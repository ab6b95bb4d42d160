/**
 * `JwtAuthenticationFilter`: the bearer token is cut out of the `Authorization`
 * header, and a token the JWT library accepts installs an authentication built
 * from its claims; the filter chain then continues.
 */
module JwtFilter {
  import opened Common
  import opened SecurityModel
  import opened JwtService

  /** `Character.isWhitespace` for a character of the Basic Multilingual Plane. */
  predicate IsWhitespace(c: char) {
    var n := c as int;
    || 0x09 <= n <= 0x0D || 0x1C <= n <= 0x20
    || n == 0x1680 || 0x2000 <= n <= 0x2006 || 0x2008 <= n <= 0x200A
    || n == 0x2028 || n == 0x2029 || n == 0x205F || n == 0x3000
  }

  /** `StringUtils.hasText`: not null and holding at least one non-whitespace character. */
  predicate HasText(s: Option<string>) {
    s.Some? && exists i :: 0 <= i < |s.value| && !IsWhitespace(s.value[i])
  }

  const BearerPrefix := "Bearer "

  /**
   * `getJwtFromRequest`: the header after `"Bearer "` when the header has text and
   * starts with exactly that prefix; null otherwise.
   */
  function GetJwtFromRequest(authorizationHeader: Option<string>): (jwt: Option<string>)
    ensures !HasText(authorizationHeader) ==> jwt.None?
    ensures HasText(authorizationHeader) ==>
      (jwt.Some? <==> |BearerPrefix| <= |authorizationHeader.value|
                      && authorizationHeader.value[..|BearerPrefix|] == BearerPrefix)
    ensures jwt.Some? ==>
      && authorizationHeader.Some?
      && authorizationHeader.value == BearerPrefix + jwt.value
      && |jwt.value| == |authorizationHeader.value| - |BearerPrefix|
  {
    if HasText(authorizationHeader) && BearerPrefix <= authorizationHeader.value then
      Some(authorizationHeader.value[|BearerPrefix|..])
    else
      None
  }

  /**
   * The text test is implied by the prefix test (the prefix starts with `B`), so a
   * token is extracted exactly when the header starts with `"Bearer "`.
   */
  lemma ExtractedIffBearerPrefix(authorizationHeader: Option<string>)
    ensures GetJwtFromRequest(authorizationHeader).Some?
        <==> authorizationHeader.Some? && BearerPrefix <= authorizationHeader.value
  {
    if authorizationHeader.Some? && BearerPrefix <= authorizationHeader.value {
      assert authorizationHeader.value[0] == 'B' && !IsWhitespace('B');
    }
  }

  /** Whatever follows `"Bearer "` is the token, even an empty or blank one. */
  lemma BearerRoundTrip(token: string)
    ensures GetJwtFromRequest(Some(BearerPrefix + token)) == Some(token)
  {
    var header := BearerPrefix + token;
    ExtractedIffBearerPrefix(Some(header));
    assert header[|BearerPrefix|..] == token;
  }

  /** The prefix is case-sensitive and needs one space; a tab or a lower-case `b` will not do. */
  lemma BearerPrefixIsExact(token: string)
    ensures GetJwtFromRequest(Some("bearer " + token)).None?
    ensures GetJwtFromRequest(Some("Bearer\t" + token)).None?
    ensures GetJwtFromRequest(Some("Bearer")).None?
  {
    assert ("bearer " + token)[0] != BearerPrefix[0];
    assert ("Bearer\t" + token)[6] != BearerPrefix[6];
  }

  /** The id claim as the principal carries it; only an unconvertible value is excluded. */
  function PrincipalId(id: IdClaim): (r: Option<int>)
    requires !id.OtherIdClaim?
    ensures r.Some? <==> id.NumericIdClaim?
    ensures r.Some? ==> r.value == id.value
  {
    match id
    case NumericIdClaim(n) => Some(n)
    case NoIdClaim => None
  }

  /**
   * Whether reading the claims throws inside the try block: the `id` claim cannot
   * be converted to a `Long`, or the subject is absent or empty, which the
   * `User` constructor behind `CustomUserDetails` refuses.
   */
  predicate ClaimsThrow(claims: TokenClaims) {
    claims.id.OtherIdClaim? || claims.subject == ""
  }

  /**
   * The authentication the try block installs, or `None` when it installs none: no
   * token with text, a token the library rejects, or an exception while reading the
   * claims (which is caught and logged).
   */
  function AuthenticationFromHeader(authorizationHeader: Option<string>, parser: JwtParser)
    : (auth: Option<Authentication>)
    ensures var jwt := GetJwtFromRequest(authorizationHeader);
      auth.Some? <==> HasText(jwt) && ValidateToken(parser, jwt.value) && !ClaimsThrow(parser(jwt.value).value)
    ensures var jwt := GetJwtFromRequest(authorizationHeader);
      auth.Some? ==>
        && auth.value.authenticated
        && auth.value.username == parser(jwt.value).value.subject
        && auth.value.userId == PrincipalId(parser(jwt.value).value.id)
        && auth.value.authorities == GetAuthoritiesFromJwt(parser(jwt.value).value)
  {
    var jwt := GetJwtFromRequest(authorizationHeader);
    if HasText(jwt) && ValidateToken(parser, jwt.value) then
      var claims := parser(jwt.value).value;
      if ClaimsThrow(claims) then
        None
      else
        Some(Authentication(true, claims.subject, PrincipalId(claims.id), GetAuthoritiesFromJwt(claims)))
    else
      None
  }

  /** A valid bearer token whose claims read cleanly authenticates its subject with its roles. */
  lemma ValidTokenAuthenticates(token: string, parser: JwtParser)
    requires HasText(Some(token)) && ValidateToken(parser, token) && !ClaimsThrow(parser(token).value)
    ensures var auth := AuthenticationFromHeader(Some(BearerPrefix + token), parser);
      && auth.Some?
      && auth.value.username == parser(token).value.subject
      && auth.value.authorities == GetAuthoritiesFromJwt(parser(token).value)
  {
    BearerRoundTrip(token);
  }

  /** A request without an `Authorization` header, or with a blank one, is never authenticated here. */
  lemma NoHeaderNoAuthentication(authorizationHeader: Option<string>, parser: JwtParser)
    requires !HasText(authorizationHeader)
    ensures AuthenticationFromHeader(authorizationHeader, parser).None?
  {
  }

  /** The request's security context (`SecurityContextHolder.getContext()`). */
  class SecurityContext {
    var authentication: Option<Authentication>

    constructor (authentication: Option<Authentication>)
      ensures this.authentication == authentication
    {
      this.authentication := authentication;
    }
  }

  /** The rest of the filter chain; only the number of times it is entered is observed. */
  class FilterChain {
    var invocations: nat

    constructor ()
      ensures invocations == 0
    {
      invocations := 0;
    }

    /** `filterChain.doFilter(request, response)`. */
    method DoFilter()
      modifies this
      ensures invocations == old(invocations) + 1
    {
      invocations := invocations + 1;
    }
  }

  /** The filter, holding the JWT library's parser in place of `JwtService`. */
  class JwtAuthenticationFilter {
    const jwtService: JwtParser

    constructor (jwtService: JwtParser)
      ensures this.jwtService == jwtService
    {
      this.jwtService := jwtService;
    }

    /**
     * `doFilterInternal`: installs the token's authentication when there is one,
     * leaves the context alone otherwise, and continues the chain exactly once.
     */
    method DoFilterInternal(authorizationHeader: Option<string>, context: SecurityContext,
                            filterChain: FilterChain)
      modifies context, filterChain
      ensures filterChain.invocations == old(filterChain.invocations) + 1
      ensures context.authentication ==
        if AuthenticationFromHeader(authorizationHeader, jwtService).Some?
        then AuthenticationFromHeader(authorizationHeader, jwtService)
        else old(context.authentication)
    {
      var jwt := GetJwtFromRequest(authorizationHeader);
      if HasText(jwt) && ValidateToken(jwtService, jwt.value) {
        var claims := jwtService(jwt.value).value;
        var username := claims.subject;
        if !ClaimsThrow(claims) {
          var userId := PrincipalId(claims.id);
          var authorities := GetAuthoritiesFromJwt(claims);
          context.authentication := Some(Authentication(true, username, userId, authorities));
        }
      }
      filterChain.DoFilter();
    }
  }
}
