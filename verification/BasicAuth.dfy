/** Proxy authentication of the HTTP proxy (authenticate in http.go, CredentialValidator in routine.go). */
module BasicAuth {
  import opened Wrappers
  import opened Text
  import Base64

  const COLON: Byte := 58
  const PREFIX := "Basic "

  const PROXY_AUTH_REQUIRED := 407
  const NOT_ACCEPTABLE := 406
  const LENGTH_REQUIRED := 411
  const UNAUTHORIZED := 401

  datatype Credentials = Credentials(username: Bytes, password: Bytes)
  datatype Verdict = Accepted | Rejected(code: int)

  /** A proxy asks for credentials as soon as either of them is configured. */
  predicate AuthRequired(c: Credentials) {
    c.username != [] || c.password != []
  }

  /** strings.TrimPrefix(s, "Basic "). */
  function TrimBasic(s: string): string {
    if PREFIX <= s then s[|PREFIX|..] else s
  }

  /** CredentialValidator.Valid: the conjunction of two constant-time comparisons. */
  predicate Valid(c: Credentials, username: Bytes, password: Bytes) {
    var u := if c.username == username then 1 else 0;
    var p := if c.password == password then 1 else 0;
    u * p == 1
  }

  /** authenticate; `header` is the Proxy-Authorization value, empty when absent. */
  function Authenticate(c: Credentials, header: string): Verdict {
    if !AuthRequired(c) then Accepted
    else if header == "" then Rejected(PROXY_AUTH_REQUIRED)
    else
      var decoded := Base64.Decode(TrimBasic(header));
      if decoded.None? then Rejected(NOT_ACCEPTABLE) else
      var pair := SplitFirst(decoded.value, COLON);
      if pair.None? then Rejected(LENGTH_REQUIRED)
      else if Valid(c, pair.value.0, pair.value.1) then Accepted
      else Rejected(UNAUTHORIZED)
  }

  /** Without a configured user name and password, everybody is let in. */
  lemma OpenProxy(header: string)
    ensures Authenticate(Credentials([], []), header) == Accepted
  {
  }

  /**
  With a user name or a password configured, a header is accepted exactly when, after an optional
  "Basic ", it is base64 for the configured pair joined by a colon; a configured user name with a
  colon in it can never be matched.
  */
  lemma AcceptedExactly(c: Credentials, header: string)
    requires c.username != [] || c.password != []
    ensures Authenticate(c, header) == Accepted <==>
      58 !in c.username && Base64.Decode(if "Basic " <= header then header[6..] else header) == Some(c.username + [58] + c.password)
  {
    var text := if "Basic " <= header then header[6..] else header;
    if header == "" {
      assert Base64.Decode("") == Some([]);
    } else if 58 !in c.username && Base64.Decode(text) == Some(c.username + [58] + c.password) {
      SplitFirstAt(c.username, COLON, c.password);
    }
  }

  /**
  For every colon-free user-id and every password, colons included, the header of section 2 of
  RFC 7617 is accepted exactly when both equal the configured pair, and otherwise answered 401.
  */
  lemma StandardHeader(c: Credentials, user: Bytes, password: Bytes)
    requires (c.username != [] || c.password != []) && 58 !in user
    ensures Authenticate(c, "Basic " + Base64.Encode(user + [58] + password))
         == if user == c.username && password == c.password then Accepted else Rejected(401)
  {
    var text := Base64.Encode(user + [58] + password);
    assert ("Basic " + text)[6..] == text;
    Base64.DecodeEncode(user + [58] + password);
    SplitFirstAt(user, COLON, password);
  }

  /** Each rejection names its cause: no header, no base64, no colon, or the wrong pair. */
  lemma RejectionCodes(c: Credentials, header: string)
    requires c.username != [] || c.password != []
    ensures var decoded := Base64.Decode(if "Basic " <= header then header[6..] else header);
      && (Authenticate(c, header) == Rejected(407) <==> header == "")
      && (Authenticate(c, header) == Rejected(406) <==> header != "" && decoded.None?)
      && (Authenticate(c, header) == Rejected(411) <==> header != "" && decoded.Some? && 58 !in decoded.value)
      && (Authenticate(c, header) == Rejected(401) <==>
            && header != "" && decoded.Some? && 58 in decoded.value
            && !(58 !in c.username && decoded.value == c.username + [58] + c.password))
  {
    AcceptedExactly(c, header);
  }
}
