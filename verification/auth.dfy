/**
 * The `Authorization` header the client attaches to every request:
 * the Basic scheme of RFC 7617, section 2, whose credentials are the
 * user-pass `username ":" password` in base64 (RFC 4648, section 4).
 * The base64 codec is a library call and stays uninterpreted: it is a
 * parameter of the functions that use it.
 */
module Auth {
  import opened Wrappers

  const Scheme: string := "Basic "

  /** The user-pass string formatted before encoding: the two parts around one colon. */
  function UserPass(username: string, password: string): (up: string)
    ensures |up| == |username| + 1 + |password|
    ensures up[..|username|] == username && up[|username|] == ':' && up[|username| + 1..] == password
  {
    username + ":" + password
  }

  /** The position of the first colon of `s`, if it has one. */
  function FirstColon(s: string): (r: Option<nat>)
    ensures r.None? <==> ':' !in s
    ensures r.Some? ==> r.value < |s| && s[r.value] == ':' && ':' !in s[..r.value]
  {
    if |s| == 0 then None
    else if s[0] == ':' then Some(0)
    else
      match FirstColon(s[1..])
      case None => None
      case Some(i) =>
        assert s[1..][..i] == s[1..i + 1];
        Some(i + 1)
  }

  /**
   * Splits a user-pass at its first colon, as a receiver of RFC 7617
   * credentials does: the user-id cannot contain a colon, the password can.
   */
  function SplitUserPass(s: string): (r: Option<(string, string)>)
    ensures r.None? <==> ':' !in s
    ensures r.Some? ==> ':' !in r.value.0 && UserPass(r.value.0, r.value.1) == s
  {
    match FirstColon(s)
    case None => None
    case Some(i) =>
      assert s == s[..i] + ":" + s[i + 1..];
      Some((s[..i], s[i + 1..]))
  }

  /** A user-pass splits back into its two parts exactly when the user-id has no colon. */
  lemma {:induction false} UserPassRoundTrip(username: string, password: string)
    ensures SplitUserPass(UserPass(username, password)) == Some((username, password)) <==> ':' !in username
  {
    if ':' in username {
      return;
    }
    var s := UserPass(username, password);
    assert s[|username|] == ':';
    assert s[..|username|] == username;
    var i := FirstColon(s).value;
    assert i <= |username| ==> s[..|username|][i..] == s[i..|username|];
    assert s[..i] == username;
    assert s[i + 1..] == password;
  }

  /**
   * An instance of the converse of `UserPassRoundTrip`: the client formats
   * the user-pass without checking the user-id, so a colon in it makes two
   * different credential pairs send the same header.
   */
  lemma ColonInUserIdIsAmbiguous()
    ensures UserPass("a:b", "c") == UserPass("a", "b:c")
    ensures SplitUserPass(UserPass("a:b", "c")) == Some(("a", "b:c"))
  {
    UserPassRoundTrip("a", "b:c");
  }

  /** The header value `Basic <base64(username:password)>`. */
  function BasicCredentials(username: string, password: string, base64: string -> string): (h: string)
    ensures |h| >= |Scheme| && h[..|Scheme|] == Scheme
    ensures h[|Scheme|..] == base64(UserPass(username, password))
  {
    Scheme + base64(UserPass(username, password))
  }

  /** What a server makes of a Basic header, given a base64 decoder. */
  function ParseBasicCredentials(header: string, unbase64: string -> Option<string>): Option<(string, string)>
  {
    if |header| < |Scheme| || header[..|Scheme|] != Scheme then None
    else
      match unbase64(header[|Scheme|..])
      case None => None
      case Some(s) => SplitUserPass(s)
  }

  /**
   * With a decoder that inverts the encoder on the user-pass, the header
   * carries the credentials back to the server unchanged.
   */
  lemma {:induction false} BasicCredentialsRoundTrip(
    username: string, password: string,
    base64: string -> string, unbase64: string -> Option<string>)
    requires ':' !in username
    requires unbase64(base64(UserPass(username, password))) == Some(UserPass(username, password))
    ensures ParseBasicCredentials(BasicCredentials(username, password, base64), unbase64)
         == Some((username, password))
  {
    var h := BasicCredentials(username, password, base64);
    assert h[..|Scheme|] == Scheme;
    assert h[|Scheme|..] == base64(UserPass(username, password));
    UserPassRoundTrip(username, password);
  }

  /**
   * The characters `HeaderValue::from_str` accepts: visible ASCII, space,
   * tab and anything beyond ASCII; control characters and DEL are refused,
   * so no accepted value can break the header line.
   */
  predicate IsHeaderValue(s: string): (ok: bool)
    ensures ok ==> '\r' !in s && '\n' !in s && '\0' !in s
  {
    forall i :: 0 <= i < |s| ==> s[i] == '\t' || (32 <= s[i] as int && s[i] as int != 127)
  }

  /** The alphabet of base64 (RFC 4648, section 4), with its padding character. */
  predicate IsBase64Char(c: char)
  {
    ('A' <= c <= 'Z') || ('a' <= c <= 'z') || ('0' <= c <= '9') || c == '+' || c == '/' || c == '='
  }

  /**
   * With an encoder whose output stays in the base64 alphabet, the header
   * value is always accepted: the construction-time `unwrap` cannot fail.
   */
  lemma Base64HeaderIsValid(username: string, password: string, base64: string -> string)
    requires forall k :: 0 <= k < |base64(UserPass(username, password))| ==>
      IsBase64Char(base64(UserPass(username, password))[k])
    ensures IsHeaderValue(BasicCredentials(username, password, base64))
  {
    var h := BasicCredentials(username, password, base64);
    var e := base64(UserPass(username, password));
    forall i | 0 <= i < |h|
      ensures h[i] == '\t' || (32 <= h[i] as int && h[i] as int != 127)
    {
      if i >= |Scheme| {
        assert h[i] == e[i - |Scheme|];
      }
    }
  }
}
