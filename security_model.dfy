/**
 * What the security layer knows about a caller: the authentication installed for
 * the request, and the user directory that maps a username to a user id.
 */
module SecurityModel {
  import opened Common

  /**
   * An authentication object: whether it is authenticated, the principal's
   * username and id, and its granted authorities in grant order.
   */
  datatype Authentication = Authentication(
    authenticated: bool,
    username: string,
    userId: Option<int>,
    authorities: seq<string>)

  const RoleTeacher := "ROLE_TEACHER"
  const RoleDean := "ROLE_DEAN"
  const RoleAdmin := "ROLE_ADMIN"

  /**
   * The user service's answers to "which id has this username": a name that is
   * absent has no answer (unknown user, or the call failed and null came back).
   */
  type Directory = map<string, int>

  /** `UserServiceClient.getUserIdByUsername`: `None` is its null result. */
  function LookupUserId(directory: Directory, username: string): (r: Option<int>)
    ensures r.Some? <==> username in directory
    ensures r.Some? ==> r.value == directory[username]
  {
    if username in directory then Some(directory[username]) else None
  }

  /** `hasAuthority(a)`: the current authentication was granted `a`. */
  predicate HasAuthority(auth: Option<Authentication>, authority: string) {
    auth.Some? && authority in auth.value.authorities
  }

  /** `isAuthenticated()` for the request's authentication. */
  predicate IsAuthenticated(auth: Option<Authentication>) {
    auth.Some? && auth.value.authenticated
  }
}
