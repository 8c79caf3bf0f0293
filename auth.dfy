/** The bearer-token gate every endpoint depends on (app/main.py, `auth`).
    The header has the `Authorization: Bearer <token>` form of section 2.1
    of RFC 6750, with the scheme name compared case-sensitively. */
module Auth {
  import opened Text

  const BearerPrefix: string := "Bearer "

  /** What the gate does with a request: let it through, or raise an
      HTTP error with a status code and a detail message. */
  datatype AuthOutcome = Accepted | Rejected(status: int, detail: string)

  const MissingOrInvalid: AuthOutcome := Rejected(401, "Missing/invalid token")
  const Forbidden: AuthOutcome := Rejected(403, "Forbidden")

  /** Python's `s.split(" ", 1)[1]`: the text after the first space, or
      None when there is no space (where Python raises IndexError). */
  function AfterFirstSpace(s: string): (r: Option<string>)
    ensures r.Some? <==> ' ' in s
    ensures r.Some? ==> |r.value| < |s|
    ensures r.Some? ==> var p := |s| - |r.value| - 1;
      s[p] == ' ' && ' ' !in s[..p] && s[p + 1..] == r.value
  {
    if |s| == 0 then None
    else if s[0] == ' ' then Some(s[1..])
    else
      var r := AfterFirstSpace(s[1..]);
      assert r.Some? ==> s[..|s| - |r.value| - 1] == [s[0]] + s[1..][..|s| - |r.value| - 2];
      r
  }

  /** A space-free prefix is skipped when looking for the first space. */
  lemma {:induction false} SkipSpaceFree(prefix: string, rest: string)
    requires ' ' !in prefix
    ensures AfterFirstSpace(prefix + rest) == AfterFirstSpace(rest)
  {
    if prefix != [] {
      var s := prefix + rest;
      assert s[0] == prefix[0] != ' ';
      assert s[1..] == prefix[1..] + rest;
      calc {
        AfterFirstSpace(s);
        AfterFirstSpace(s[1..]);
        { SkipSpaceFree(prefix[1..], rest); }
        AfterFirstSpace(rest);
      }
    } else {
      assert prefix + rest == rest;
    }
  }

  /** The token of a header that starts with the bearer prefix is
      everything after that prefix, since the prefix's only space is its
      last character. */
  function BearerToken(header: string): (token: string)
    requires BearerPrefix <= header
    ensures token == header[|BearerPrefix|..]
  {
    var rest := header[|BearerPrefix|..];
    assert header == "Bearer" + ([' '] + rest);
    SkipSpaceFree("Bearer", [' '] + rest);
    AfterFirstSpace(header).value
  }

  /** The `auth` dependency: 401 when the header is absent, empty or does
      not start with the exact prefix "Bearer ", 403 when the token after
      it is not the configured key, accepted otherwise. */
  function Authorize(header: Option<string>, apiKey: string): (r: AuthOutcome)
    ensures r == MissingOrInvalid <==> header.None? || !(BearerPrefix <= header.value)
    ensures r == Forbidden <==>
      header.Some? && BearerPrefix <= header.value && header.value[|BearerPrefix|..] != apiKey
    ensures r == Accepted <==> header == Some(BearerPrefix + apiKey)
    ensures r == Accepted || r == MissingOrInvalid || r == Forbidden
  {
    if header.None? || header.value == "" || !(BearerPrefix <= header.value) then
      MissingOrInvalid
    else
      var token := BearerToken(header.value);
      assert header.value == BearerPrefix + token;
      if token != apiKey then Forbidden else Accepted
  }
}
