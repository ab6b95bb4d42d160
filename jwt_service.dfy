/**
 * `JwtService`: the claims of a signed token and the mapping of its `role` claim
 * to granted authorities. The signature check itself belongs to the JWT library;
 * here it is a parser that either yields the claims or throws.
 */
module JwtService {
  import opened Common

  /** The `role` claim: absent, a string, or a value of another JSON type. */
  datatype RoleClaim = NoRoleClaim | StringRoleClaim(value: string) | OtherRoleClaim

  /** The `id` claim read as a `Long`: absent (null), a number, or a value that cannot be converted. */
  datatype IdClaim = NoIdClaim | NumericIdClaim(value: int) | OtherIdClaim

  /** The claims of a token that passed the signature check; an absent `sub` is the empty subject. */
  datatype TokenClaims = TokenClaims(subject: string, id: IdClaim, role: RoleClaim)

  /** The JWT library's `parseClaimsJws`: the claims, or `None` when it throws. */
  type JwtParser = string -> Option<TokenClaims>

  /** `validateToken`: true exactly when the parser accepts the token; it never throws. */
  predicate ValidateToken(parser: JwtParser, token: string) {
    parser(token).Some?
  }

  /** Every piece of `s` between commas, empty pieces included. */
  function SplitAtCommas(s: string): (pieces: seq<string>)
    ensures |pieces| >= 1
    ensures forall i :: 0 <= i < |pieces| ==> ',' !in pieces[i]
    decreases |s|
  {
    if |s| == 0 then
      [""]
    else
      var rest := SplitAtCommas(s[1..]);
      if s[0] == ',' then [""] + rest else [[s[0]] + rest[0]] + rest[1..]
  }

  /** The pieces glued back together with a comma between each two. */
  function JoinWithCommas(pieces: seq<string>): string
    requires |pieces| >= 1
    decreases |pieces|
  {
    if |pieces| == 1 then pieces[0] else pieces[0] + "," + JoinWithCommas(pieces[1..])
  }

  /** Splitting at every comma loses nothing: joining the pieces gives the string back. */
  lemma {:induction false} JoinSplitAtCommas(s: string)
    ensures JoinWithCommas(SplitAtCommas(s)) == s
    decreases |s|
  {
    if |s| > 0 {
      var rest := SplitAtCommas(s[1..]);
      JoinSplitAtCommas(s[1..]);
      if s[0] == ',' {
        assert ([""] + rest)[1..] == rest;
        assert s == [s[0]] + s[1..];
      } else if |rest| == 1 {
        assert s == [s[0]] + rest[0];
      } else {
        var pieces := [[s[0]] + rest[0]] + rest[1..];
        assert pieces[1..] == rest[1..];
        assert JoinWithCommas(rest) == rest[0] + "," + JoinWithCommas(rest[1..]);
        assert s == [s[0]] + s[1..];
      }
    }
  }

  /** A string without a trailing comma has a non-empty last piece. */
  lemma {:induction false} LastPieceNotEmpty(s: string)
    requires s != [] && s[|s| - 1] != ','
    ensures SplitAtCommas(s)[|SplitAtCommas(s)| - 1] != ""
    decreases |s|
  {
    if |s| > 1 {
      LastPieceNotEmpty(s[1..]);
    }
  }

  /** The pieces without the empty ones at the end. */
  function DropTrailingEmpty(pieces: seq<string>): (kept: seq<string>)
    ensures |kept| <= |pieces| && kept == pieces[..|kept|]
    ensures forall i :: |kept| <= i < |pieces| ==> pieces[i] == ""
    ensures kept == [] || kept[|kept| - 1] != ""
    decreases |pieces|
  {
    if pieces == [] then []
    else if pieces[|pieces| - 1] == "" then DropTrailingEmpty(pieces[..|pieces| - 1])
    else pieces
  }

  /**
   * Java's `s.split(",")`: with no comma the whole string is the only piece (so the
   * empty string gives one empty piece); otherwise every piece between commas, in
   * order, with the empty pieces at the end removed.
   */
  function JavaSplit(s: string): (pieces: seq<string>)
    ensures forall i :: 0 <= i < |pieces| ==> ',' !in pieces[i]
    ensures s == "" ==> pieces == [""]
    ensures s != "" ==> |pieces| <= |SplitAtCommas(s)| && pieces == SplitAtCommas(s)[..|pieces|]
    ensures s != "" ==> forall i :: |pieces| <= i < |SplitAtCommas(s)| ==> SplitAtCommas(s)[i] == ""
    ensures s != "" ==> pieces == [] || pieces[|pieces| - 1] != ""
  {
    if s == "" then [""] else DropTrailingEmpty(SplitAtCommas(s))
  }

  /** Without a trailing comma, the pieces of `split(",")` join back to the claim itself. */
  lemma JavaSplitRoundTrip(s: string)
    requires s == "" || s[|s| - 1] != ','
    ensures |JavaSplit(s)| >= 1 && JoinWithCommas(JavaSplit(s)) == s
  {
    if s != "" {
      LastPieceNotEmpty(s);
      JoinSplitAtCommas(s);
      assert JavaSplit(s) == SplitAtCommas(s);
    }
  }

  /** Splitting at a comma splits the pieces there. */
  lemma {:induction false} SplitAtCommasConcat(a: string, b: string)
    requires ',' !in a
    ensures SplitAtCommas(a + "," + b) == [a] + SplitAtCommas(b)
    decreases |a|
  {
    if a == [] {
      assert a + "," + b == [','] + b;
      assert (a + "," + b)[1..] == b;
    } else {
      SplitAtCommasConcat(a[1..], b);
      assert (a + "," + b)[1..] == a[1..] + "," + b;
      assert [a[0]] + a[1..] == a;
    }
  }

  /** A piece without a comma is its own only piece. */
  lemma {:induction false} SplitAtCommasNoComma(s: string)
    requires ',' !in s
    ensures SplitAtCommas(s) == [s]
    decreases |s|
  {
    if s != [] {
      SplitAtCommasNoComma(s[1..]);
      assert [s[0]] + s[1..] == s;
    }
  }

  /** `Character.toUpperCase` on ASCII letters; every other character is kept. */
  function UpperAscii(c: char): char {
    if 'a' <= c <= 'z' then (c as int - 32) as char else c
  }

  /** `toUpperCase`, character by character. */
  function ToUpperCase(s: string): (u: string)
    ensures |u| == |s|
    ensures forall i :: 0 <= i < |s| ==> u[i] == UpperAscii(s[i])
    decreases |s|
  {
    if s == "" then "" else [UpperAscii(s[0])] + ToUpperCase(s[1..])
  }

  /** One `"ROLE_" + piece.toUpperCase()` authority per piece, in order. */
  function RoleAuthorities(pieces: seq<string>): (authorities: seq<string>)
    ensures |authorities| == |pieces|
    ensures forall i :: 0 <= i < |pieces| ==> authorities[i] == "ROLE_" + ToUpperCase(pieces[i])
    decreases |pieces|
  {
    if pieces == [] then [] else ["ROLE_" + ToUpperCase(pieces[0])] + RoleAuthorities(pieces[1..])
  }

  /** `getAuthoritiesFromJWT`: only a string role claim grants authorities. */
  function GetAuthoritiesFromJwt(claims: TokenClaims): (authorities: seq<string>)
    ensures !claims.role.StringRoleClaim? ==> authorities == []
    ensures claims.role.StringRoleClaim? ==>
      && |authorities| == |JavaSplit(claims.role.value)|
      && forall i :: 0 <= i < |authorities| ==>
           authorities[i] == "ROLE_" + ToUpperCase(JavaSplit(claims.role.value)[i])
  {
    match claims.role
    case StringRoleClaim(role) => RoleAuthorities(JavaSplit(role))
    case _ => []
  }

  /** An authority is granted exactly when some piece of the role claim upper-cases to its name. */
  lemma GrantedIffSomePiece(claims: TokenClaims, name: string)
    requires claims.role.StringRoleClaim?
    ensures "ROLE_" + name in GetAuthoritiesFromJwt(claims)
        <==> exists i :: 0 <= i < |JavaSplit(claims.role.value)| && ToUpperCase(JavaSplit(claims.role.value)[i]) == name
  {
    var pieces := JavaSplit(claims.role.value);
    var authorities := GetAuthoritiesFromJwt(claims);
    if "ROLE_" + name in authorities {
      var i :| 0 <= i < |authorities| && authorities[i] == "ROLE_" + name;
      assert ("ROLE_" + name)[5..] == name;
      assert ("ROLE_" + ToUpperCase(pieces[i]))[5..] == ToUpperCase(pieces[i]);
    }
  }

  /** A single role, in any letter case, grants that one upper-cased authority. */
  lemma SingleRole(role: string)
    requires role != "" && ',' !in role
    ensures GetAuthoritiesFromJwt(TokenClaims(subject := "", id := NoIdClaim, role := StringRoleClaim(role)))
         == ["ROLE_" + ToUpperCase(role)]
  {
    SplitAtCommasNoComma(role);
  }

  /** Upper-casing, checked character by character. */
  lemma UpperCaseOf(s: string, u: string)
    requires |s| == |u| && forall i :: 0 <= i < |s| ==> UpperAscii(s[i]) == u[i]
    ensures ToUpperCase(s) == u
  {
  }

  /** Java splits `"dean, admin"` into `"dean"` and `" admin"`. */
  lemma JavaSplitDeanAdmin(role: string)
    requires role == "dean, admin"
    ensures JavaSplit(role) == ["dean", " admin"]
  {
    assert role == "dean" + "," + " admin";
    SplitAtCommasConcat("dean", " admin");
    SplitAtCommasNoComma(" admin");
    assert SplitAtCommas(role) == ["dean", " admin"];
  }

  /** Java splits `"a,,b,"` into `"a"`, `""` and `"b"`. */
  lemma JavaSplitEmptyPieces()
    ensures JavaSplit("a,,b,") == ["a", "", "b"]
  {
    SplitAtCommasNoComma("");
    SplitAtCommasConcat("b", "");
    assert "b" + "," + "" == "b,";
    SplitAtCommasConcat("", "b,");
    assert "" + "," + "b," == ",b,";
    SplitAtCommasConcat("a", ",b,");
    assert "a" + "," + ",b," == "a,,b,";
    var all := ["a", "", "b", ""];
    assert SplitAtCommas("a,,b,") == all;
    assert all[..3] == ["a", "", "b"];
  }

  /** Java splits `",,"` into nothing at all. */
  lemma JavaSplitCommasOnly()
    ensures JavaSplit(",,") == []
  {
    SplitAtCommasNoComma("");
    SplitAtCommasConcat("", "");
    assert "" + "," + "" == ",";
    SplitAtCommasConcat("", ",");
    assert "" + "," + "," == ",,";
    var all := ["", "", ""];
    assert SplitAtCommas(",,") == all;
    assert DropTrailingEmpty(all) == DropTrailingEmpty(["", ""]) == DropTrailingEmpty([""]) == [];
  }

  /** The authorities of the pieces `"dean"` and `" admin"`. */
  lemma RoleAuthoritiesDeanAdmin(pieces: seq<string>)
    requires pieces == ["dean", " admin"]
    ensures RoleAuthorities(pieces) == ["ROLE_DEAN", "ROLE_ ADMIN"]
  {
    UpperCaseOf("dean", "DEAN");
    UpperCaseOf(" admin", " ADMIN");
    var authorities := RoleAuthorities(pieces);
    assert authorities[0] == "ROLE_" + "DEAN" == "ROLE_DEAN";
    assert authorities[1] == "ROLE_" + " ADMIN" == "ROLE_ ADMIN";
  }

  /**
   * Pieces are not trimmed: `"dean, admin"` grants `ROLE_DEAN` and `ROLE_ ADMIN`,
   * so the second role is lost to a space.
   */
  lemma PiecesAreNotTrimmed(claims: TokenClaims)
    requires claims.role == StringRoleClaim("dean, admin")
    ensures GetAuthoritiesFromJwt(claims) == ["ROLE_DEAN", "ROLE_ ADMIN"]
    ensures "ROLE_ADMIN" !in GetAuthoritiesFromJwt(claims)
  {
    JavaSplitDeanAdmin(claims.role.value);
    var pieces := JavaSplit(claims.role.value);
    assert pieces == ["dean", " admin"];
    RoleAuthoritiesDeanAdmin(pieces);
  }

  /** An empty piece in the middle becomes the bare `ROLE_`; a trailing comma adds nothing. */
  lemma EmptyPieces(claims: TokenClaims)
    requires claims.role == StringRoleClaim("a,,b,")
    ensures GetAuthoritiesFromJwt(claims) == ["ROLE_A", "ROLE_", "ROLE_B"]
  {
    JavaSplitEmptyPieces();
    UpperCaseOf("a", "A");
    UpperCaseOf("", "");
    UpperCaseOf("b", "B");
    var authorities := GetAuthoritiesFromJwt(claims);
    assert |authorities| == 3;
    assert authorities[0] == "ROLE_" + "A" == "ROLE_A";
    assert authorities[1] == "ROLE_" + "" == "ROLE_";
    assert authorities[2] == "ROLE_" + "B" == "ROLE_B";
  }

  /** An empty role claim is one empty piece; a claim of commas only is no piece at all. */
  lemma EmptyAndCommaOnlyClaims(c1: TokenClaims, c2: TokenClaims)
    requires c1.role == StringRoleClaim("") && c2.role == StringRoleClaim(",,")
    ensures GetAuthoritiesFromJwt(c1) == ["ROLE_"]
    ensures GetAuthoritiesFromJwt(c2) == []
  {
    UpperCaseOf("", "");
    var a1 := GetAuthoritiesFromJwt(c1);
    assert |a1| == 1 && a1[0] == "ROLE_" + "" == "ROLE_";
    JavaSplitCommasOnly();
  }
}
