/**
 * `Credentials`: a request of the form `toolId` or `toolId:password`. The
 * request is split on ':' with Java's `String.split`; one piece names the
 * tool, two pieces also store the password as the tool's secret, and any
 * other number of pieces is rejected. The password never becomes part of
 * the object itself; `getToken` fetches it back from the secret provider.
 */
module Credentials {
  import opened Wrappers
  import opened JavaString
  import opened SecretStore

  datatype Credentials = Credentials(toolId: string)

  /** `IllegalArgumentException`: the request split into neither one nor two pieces. */
  datatype RequestError = WrongPartCount(parts: seq<string>)

  /**
   * The constructor. On success it yields the credentials and the provider
   * after the password (if any) was stored; whether that save succeeded is
   * ignored, as the constructor ignores `setSecret`'s answer.
   */
  function New(request: string, provider: Provider, saveOk: bool): (r: Result<(Credentials, Provider), RequestError>)
    ensures r.Ok? <==> |Split(request, ':')| == 1 || |Split(request, ':')| == 2
    ensures r.Err? ==> r.error.parts == Split(request, ':')
    ensures r.Ok? ==> r.value.0.toolId == Split(request, ':')[0]
    ensures r.Ok? && |Split(request, ':')| == 1 ==> r.value.1 == provider
    ensures r.Ok? && |Split(request, ':')| == 2 ==>
      GetSecret(r.value.1, r.value.0.toolId) == Some(Split(request, ':')[1])
    ensures r.Ok? && |Split(request, ':')| == 2 ==>
      OthersUnchanged(provider.ksh, r.value.1.ksh, {SecretAlias(r.value.0.toolId)})
  {
    var parts := Split(request, ':');
    if |parts| == 1 then Ok((Credentials(parts[0]), provider))
    else if |parts| == 2 then Ok((Credentials(parts[0]), SetSecret(provider, parts[0], parts[1], saveOk).0))
    else Err(WrongPartCount(parts))
  }

  /** `getToolId()`: the tool id fixed at construction, the one `toString` shows. */
  function GetToolId(c: Credentials): (r: string)
    ensures ToolIdOf(ToString(c)) == Some(r)
  {
    ToStringRoundTrip(c);
    c.toolId
  }

  /** `getToken()`: whatever secret the provider holds under the tool id, if any. */
  function GetToken(c: Credentials, provider: Provider): (r: Option<Chars>)
    ensures r.Some? <==> SecretAlias(c.toolId) in provider.ksh.entries
    ensures r.Some? ==> r.value == provider.ksh.entries[SecretAlias(c.toolId)]
  {
    SecretStore.GetSecret(provider, c.toolId)
  }

  const ToStringPrefix: string := "Credentials{toolId='"
  const ToStringSuffix: string := "'}"

  /** `toString()`: shows the tool id only. */
  function ToString(c: Credentials): (s: string)
    ensures |s| == |ToStringPrefix| + |c.toolId| + |ToStringSuffix|
    ensures s[..|ToStringPrefix|] == ToStringPrefix && s[|s| - |ToStringSuffix|..] == ToStringSuffix
  {
    ToStringPrefix + c.toolId + ToStringSuffix
  }

  /** Reading the tool id back out of a rendering; `None` when the text is not one. */
  function ToolIdOf(s: string): Option<string> {
    if |s| >= |ToStringPrefix| + |ToStringSuffix| && s[..|ToStringPrefix|] == ToStringPrefix
      && s[|s| - |ToStringSuffix|..] == ToStringSuffix
    then Some(s[|ToStringPrefix|..|s| - |ToStringSuffix|])
    else None
  }

  /** The rendering determines the tool id: it is a faithful, reversible rendering of it. */
  lemma ToStringRoundTrip(c: Credentials)
    ensures ToolIdOf(ToString(c)) == Some(c.toolId)
  {
    var s := ToString(c);
    assert s[|ToStringPrefix|..|s| - |ToStringSuffix|] == c.toolId;
  }

  /** A request without ':' names the tool by all of its text and stores nothing. */
  lemma RequestToolIdOnly(request: string, provider: Provider, saveOk: bool)
    requires ':' !in request
    ensures New(request, provider, saveOk) == Ok((Credentials(request), provider))
  {
    SplitWithoutSeparator(request, ':');
  }

  /** "id:pw" names tool `id` and stores exactly `pw` under it, leaving every other secret alone. */
  lemma RequestWithPassword(id: string, pw: string, provider: Provider, saveOk: bool)
    requires ':' !in id && ':' !in pw && pw != ""
    ensures New(id + ":" + pw, provider, saveOk).Ok?
    ensures var (c, p) := New(id + ":" + pw, provider, saveOk).value;
      && GetToolId(c) == id && GetToken(c, p) == Some(pw)
      && OthersUnchanged(provider.ksh, p.ksh, {SecretAlias(id)})
  {
    SplitTwo(id, pw, ':');
    assert id + ":" + pw == id + [':'] + pw;
  }

  /** "a:b:c" (three pieces, the last not empty) is rejected. */
  lemma RequestThreeParts(a: string, b: string, c: string, provider: Provider, saveOk: bool)
    requires ':' !in a && ':' !in b && ':' !in c && c != ""
    ensures New(a + ":" + b + ":" + c, provider, saveOk) == Err(WrongPartCount([a, b, c]))
  {
    SplitThree(a, b, c, ':');
    assert a + ":" + b + ":" + c == a + [':'] + b + [':'] + c;
  }

  /** A trailing ':' is dropped by `split`: "id:" is the same request as "id". */
  lemma RequestTrailingColon(id: string, provider: Provider, saveOk: bool)
    requires ':' !in id && id != ""
    ensures New(id + ":", provider, saveOk) == Ok((Credentials(id), provider))
  {
    SplitTwo(id, "", ':');
    assert id + ":" == id + [':'] + "";
  }

  /** The split edge cases: ":" has no pieces and is rejected, "" is one empty tool id, ":pw" has an empty tool id. */
  lemma RequestEdgeCases(pw: string, provider: Provider, saveOk: bool)
    requires ':' !in pw && pw != ""
    ensures New(":", provider, saveOk) == Err(WrongPartCount([]))
    ensures New("", provider, saveOk) == Ok((Credentials(""), provider))
    ensures New(":" + pw, provider, saveOk).Ok?
    ensures var (c, p) := New(":" + pw, provider, saveOk).value;
      GetToolId(c) == "" && GetToken(c, p) == Some(pw)
  {
    SplitTwo("", "", ':');
    assert ":" == "" + [':'] + "";
    SplitTwo("", pw, ':');
    assert ":" + pw == "" + [':'] + pw;
  }

  /**
   * The rendering depends on the tool id alone: the same tool with or
   * without a password renders identically, so no password can be read
   * from it.
   */
  lemma ToStringHidesPassword(id: string, pw: string, provider: Provider, saveOk: bool)
    requires ':' !in id && ':' !in pw && pw != ""
    ensures New(id, provider, saveOk).Ok? && New(id + ":" + pw, provider, saveOk).Ok?
    ensures ToString(New(id, provider, saveOk).value.0) == ToString(New(id + ":" + pw, provider, saveOk).value.0)
  {
    RequestToolIdOnly(id, provider, saveOk);
    RequestWithPassword(id, pw, provider, saveOk);
  }
}
