/**
 * The bearer-token authentication backend: the `Authorization` header
 * must be two whitespace-separated parts, the first `bearer` in any case,
 * the second a token that decodes to a payload with a `sub`. Every other
 * request is anonymous. JWT verification is a parameter: it yields the
 * payload, or nothing when the signature or the claims are rejected.
 */
module AuthBackend {
  import opened Wrappers
  import opened PyStr

  /** A request's headers, names lower-cased as the server delivers them, in order. */
  type Headers = seq<(string, string)>

  /** A decoded token payload: claim name to a string value or null. */
  type Payload = map<string, Option<string>>

  /** The authentication result: the granted scopes and the user name. */
  datatype Credentials = Credentials(scopes: seq<string>, username: string)

  const AuthorizationHeader := "authorization"
  const BearerScheme := "bearer"
  const SubjectClaim := "sub"
  const AuthenticatedScope := "authenticated"

  /** The first value of header `name`, as `request.headers[name]` looks it up. */
  function Header(headers: Headers, name: string): (r: Option<string>)
    ensures r.None? <==> forall i :: 0 <= i < |headers| ==> headers[i].0 != name
    ensures r.Some? ==> exists i :: 0 <= i < |headers| && headers[i] == (name, r.value)
    ensures r.Some? ==> exists i :: 0 <= i < |headers| && headers[i] == (name, r.value) && forall j :: 0 <= j < i ==> headers[j].0 != name
  {
    if headers == [] then None
    else if headers[0].0 == name then Some(headers[0].1)
    else
      var r := Header(headers[1..], name);
      assert r.Some? ==> exists i :: 0 <= i < |headers[1..]| && headers[1..][i] == (name, r.value);
      assert r.Some? ==> exists i :: 0 <= i < |headers| && headers[i] == (name, r.value) && forall j :: 0 <= j < i ==> headers[j].0 != name by {
        if r.Some? {
          var i :| 0 <= i < |headers[1..]| && headers[1..][i] == (name, r.value) && forall j :: 0 <= j < i ==> headers[1..][j].0 != name;
          assert headers[i + 1] == (name, r.value);
          forall j | 0 <= j < i + 1 ensures headers[j].0 != name {
            if j > 0 { assert headers[j] == headers[1..][j - 1]; }
          }
        }
      }
      r
  }

  /**
   * `JWTAuthBackend.authenticate`: credentials exactly when the header is
   * present, has two parts, the scheme is `bearer` ignoring case, the token
   * decodes and its payload names a subject.
   */
  function Authenticate(headers: Headers, decode: string -> Option<Payload>): (r: Option<Credentials>)
    ensures Header(headers, AuthorizationHeader).None? ==> r.None?
    ensures r.Some? <==>
      && Header(headers, AuthorizationHeader).Some?
      && |Words(Header(headers, AuthorizationHeader).value)| == 2
      && AsciiLower(Words(Header(headers, AuthorizationHeader).value)[0]) == BearerScheme
      && decode(Words(Header(headers, AuthorizationHeader).value)[1]).Some?
      && SubjectClaim in decode(Words(Header(headers, AuthorizationHeader).value)[1]).value
      && decode(Words(Header(headers, AuthorizationHeader).value)[1]).value[SubjectClaim].Some?
    ensures r.Some? ==> r.value.scopes == [AuthenticatedScope]
    ensures r.Some? ==>
      r.value.username == decode(Words(Header(headers, AuthorizationHeader).value)[1]).value[SubjectClaim].value
  {
    match Header(headers, AuthorizationHeader)
    case None => None
    case Some(auth) =>
      var parts := Words(auth);
      if |parts| != 2 then None
      else if AsciiLower(parts[0]) != BearerScheme then None
      else
        match decode(parts[1])
        case None => None
        case Some(payload) =>
          if SubjectClaim !in payload || payload[SubjectClaim].None? then None
          else Some(Credentials([AuthenticatedScope], payload[SubjectClaim].value))
  }

  /** Extra or trailing whitespace, and the case of the scheme, do not matter. */
  lemma SchemeAndSpacing(scheme: string, spaces: string, token: string, trailing: string, headers: Headers, decode: string -> Option<Payload>)
    requires scheme != [] && NoSpace(scheme) && AsciiLower(scheme) == BearerScheme
    requires token != [] && NoSpace(token)
    requires spaces != [] && forall i :: 0 <= i < |spaces| ==> IsSpace(spaces[i])
    requires forall i :: 0 <= i < |trailing| ==> IsSpace(trailing[i])
    requires Header(headers, AuthorizationHeader) == Some(scheme + spaces + token + trailing)
    ensures Authenticate(headers, decode) ==
      match decode(token)
      case None => None
      case Some(p) => if SubjectClaim in p && p[SubjectClaim].Some? then Some(Credentials([AuthenticatedScope], p[SubjectClaim].value)) else None
  {
    TwoWords(scheme, spaces, token, trailing);
  }

  /** The words of a scheme, whitespace, a token and trailing whitespace are the scheme and the token. */
  lemma TwoWords(scheme: string, spaces: string, token: string, trailing: string)
    requires scheme != [] && NoSpace(scheme)
    requires token != [] && NoSpace(token)
    requires spaces != [] && forall i :: 0 <= i < |spaces| ==> IsSpace(spaces[i])
    requires forall i :: 0 <= i < |trailing| ==> IsSpace(trailing[i])
    ensures Words(scheme + spaces + token + trailing) == [scheme, token]
  {
    var rest := token + trailing;
    assert scheme + spaces + token + trailing == scheme + spaces + rest;
    WordsOfWordThen(scheme, spaces, rest);
    WordsOfSpaces(spaces, rest);
    PaddedWord(token, trailing);
  }

  /** A word followed by whitespace only has that word as its only word. */
  lemma PaddedWord(token: string, trailing: string)
    requires token != [] && NoSpace(token)
    requires forall i :: 0 <= i < |trailing| ==> IsSpace(trailing[i])
    ensures Words(token + trailing) == [token]
  {
    if trailing == [] {
      assert token + trailing == token;
      WordsOfOneWord(token);
    } else {
      assert token + trailing == token + trailing + [];
      WordsOfWordThen(token, trailing, []);
      WordsOfSpaces(trailing, []);
      assert TrimLeft([]) == [];
    }
  }

  /** The header the front end sends, `Bearer <token>`, yields the token's subject. */
  lemma BearerHeader(token: string, decode: string -> Option<Payload>, user: string)
    requires token != [] && NoSpace(token)
    requires decode(token) == Some(map[SubjectClaim := Some(user)])
    ensures Authenticate([(AuthorizationHeader, "Bearer " + token)], decode) == Some(Credentials([AuthenticatedScope], user))
  {
    assert "Bearer " + token == "Bearer" + " " + token + [];
    assert AsciiLower("Bearer") == BearerScheme;
    SchemeAndSpacing("Bearer", " ", token, [], [(AuthorizationHeader, "Bearer " + token)], decode);
  }

  /** A header with one part, or three, is anonymous whatever the token. */
  lemma WrongShape(headers: Headers, decode: string -> Option<Payload>)
    requires Header(headers, AuthorizationHeader).Some?
    requires |Words(Header(headers, AuthorizationHeader).value)| != 2
    ensures Authenticate(headers, decode).None?
  {
  }
}
