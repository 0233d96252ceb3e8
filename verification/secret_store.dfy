/**
 * `KeyStoreSecretProvider`: username, password, named secrets and an API
 * token kept as entries of a key store. Every write goes to the key-store
 * handler's working entries and is followed by one `save()`, which writes
 * the file and may fail; a failed save is reported as `false`, and the
 * working entries keep the write.
 *
 * The handler is a value here: its working entries, the entries as last
 * saved, and the list of calls made on it. Whether a save succeeds is the
 * caller's `saveOk` argument, standing for the file system.
 */
module SecretStore {
  import opened Wrappers

  type Chars = seq<char>

  /** One call on the key-store handler. */
  datatype HandlerCall = SetEntry(alias: string) | DeleteEntry(alias: string) | Save

  /** `KeyStoreHandler`: working entries, the entries as of the last successful save, and the call log. */
  datatype Handler = Handler(entries: map<string, Chars>, saved: map<string, Chars>, calls: seq<HandlerCall>)

  /** A handler over a key store with nothing in it, as a fresh file or the all-empty mock gives. */
  function EmptyHandler(): Handler {
    Handler(map[], map[], [])
  }

  function HandlerGet(h: Handler, alias: string): Option<Chars> {
    if alias in h.entries then Some(h.entries[alias]) else None
  }

  function HandlerSet(h: Handler, alias: string, value: Chars): Handler {
    h.(entries := h.entries[alias := value], calls := h.calls + [SetEntry(alias)])
  }

  function HandlerDelete(h: Handler, alias: string): Handler {
    h.(entries := h.entries - {alias}, calls := h.calls + [DeleteEntry(alias)])
  }

  /** `save()`: on success the file holds exactly the working entries; on failure it is unchanged. */
  function HandlerSave(h: Handler, saveOk: bool): Handler {
    h.(saved := if saveOk then h.entries else h.saved, calls := h.calls + [Save])
  }

  /** How often `c` occurs in a call log. */
  function Occurrences(calls: seq<HandlerCall>, c: HandlerCall): nat {
    if |calls| == 0 then 0
    else Occurrences(calls[..|calls| - 1], c) + (if calls[|calls| - 1] == c then 1 else 0)
  }

  /** The calls a provider operation made, given the provider before and after it. */
  function NewCalls(before: Provider, after: Provider): seq<HandlerCall>
    requires |before.ksh.calls| <= |after.ksh.calls|
  {
    after.ksh.calls[|before.ksh.calls|..]
  }

  datatype Provider = KeyStoreSecretProvider(ksh: Handler)

  /** The Java exceptions the provider throws. */
  datatype SecretError = IllegalArgument | IllegalState

  const ALIAS_USERNAME: string := "usr"
  const ALIAS_PASSWORD: string := "pwd"
  const ALIAS_TOKEN: string := "tkn"
  const ALIAS_TOKEN_DATE: string := "tknd"

  /** The alias a named secret is stored under; the prefix keeps it apart from the fixed aliases. */
  function SecretAlias(secretId: string): string {
    "pwd-" + secretId
  }

  /** The five kinds of entry never share an alias. */
  lemma AliasesDistinct(secretId: string)
    ensures SecretAlias(secretId) !in {ALIAS_USERNAME, ALIAS_PASSWORD, ALIAS_TOKEN, ALIAS_TOKEN_DATE}
    ensures |{ALIAS_USERNAME, ALIAS_PASSWORD, ALIAS_TOKEN, ALIAS_TOKEN_DATE}| == 4
  {
    assert |SecretAlias(secretId)| >= 4;
    assert SecretAlias(secretId)[3] == '-';
  }

  /** Nothing but the entries under `aliases` differs between two handlers. */
  ghost predicate OthersUnchanged(before: Handler, after: Handler, aliases: set<string>) {
    forall a :: a !in aliases ==> HandlerGet(before, a) == HandlerGet(after, a)
  }

  /** The file holds what the provider holds. */
  ghost predicate IsSaved(h: Handler) {
    h.saved == h.entries
  }

  /** The constructor: a provider over the given handler; no handler (Java `null`) is an illegal argument. */
  function New(ksh: Option<Handler>): (r: Result<Provider, SecretError>)
    ensures r.Err? <==> ksh.None?
    ensures r.Err? ==> r.error == IllegalArgument
    ensures r.Ok? ==> r.value.ksh == ksh.value
  {
    match ksh
    case None => Err(IllegalArgument)
    case Some(h) => Ok(KeyStoreSecretProvider(h))
  }

  /** Key-store providers keep their secrets on disk. */
  function IsPersistent(p: Provider): (r: bool)
    ensures r
  {
    true
  }

  /** The stored username; a store without one is in an illegal state. */
  function GetUsername(p: Provider): (r: Result<string, SecretError>)
    ensures r.Err? <==> ALIAS_USERNAME !in p.ksh.entries
    ensures r.Err? ==> r.error == IllegalState
    ensures r.Ok? ==> HandlerGet(p.ksh, ALIAS_USERNAME) == Some(r.value)
  {
    match HandlerGet(p.ksh, ALIAS_USERNAME)
    case None => Err(IllegalState)
    case Some(v) => Ok(v)
  }

  /** The stored password; a store without one is in an illegal state. */
  function GetPassword(p: Provider): (r: Result<Chars, SecretError>)
    ensures r.Err? <==> ALIAS_PASSWORD !in p.ksh.entries
    ensures r.Err? ==> r.error == IllegalState
    ensures r.Ok? ==> HandlerGet(p.ksh, ALIAS_PASSWORD) == Some(r.value)
  {
    match HandlerGet(p.ksh, ALIAS_PASSWORD)
    case None => Err(IllegalState)
    case Some(v) => Ok(v)
  }

  /** The secret stored under `secretId`, if any. */
  function GetSecret(p: Provider, secretId: string): (r: Option<Chars>)
    ensures r.Some? <==> SecretAlias(secretId) in p.ksh.entries
    ensures r.Some? ==> r.value == p.ksh.entries[SecretAlias(secretId)]
  {
    HandlerGet(p.ksh, SecretAlias(secretId))
  }

  /** The stored API token; a missing token is simply absent, not an error. */
  function GetToken(p: Provider): (r: Option<Chars>)
    ensures r.Some? <==> ALIAS_TOKEN in p.ksh.entries
    ensures r.Some? ==> r.value == p.ksh.entries[ALIAS_TOKEN]
  {
    HandlerGet(p.ksh, ALIAS_TOKEN)
  }

  /** One entry written, then one save; the result is whether the save succeeded. */
  function Store(p: Provider, alias: string, value: Chars, saveOk: bool): (r: (Provider, bool))
    ensures r.1 == saveOk
    ensures HandlerGet(r.0.ksh, alias) == Some(value)
    ensures OthersUnchanged(p.ksh, r.0.ksh, {alias})
    ensures saveOk ==> IsSaved(r.0.ksh)
    ensures !saveOk ==> r.0.ksh.saved == p.ksh.saved
    ensures r.0.ksh.calls == p.ksh.calls + [SetEntry(alias), Save]
  {
    (KeyStoreSecretProvider(HandlerSave(HandlerSet(p.ksh, alias, value), saveOk)), saveOk)
  }

  function SetUsername(p: Provider, username: string, saveOk: bool): (r: (Provider, bool))
    ensures r.1 == saveOk
    ensures GetUsername(r.0) == Ok(username)
    ensures OthersUnchanged(p.ksh, r.0.ksh, {ALIAS_USERNAME})
  {
    Store(p, ALIAS_USERNAME, username, saveOk)
  }

  function SetPassword(p: Provider, password: Chars, saveOk: bool): (r: (Provider, bool))
    ensures r.1 == saveOk
    ensures GetPassword(r.0) == Ok(password)
    ensures OthersUnchanged(p.ksh, r.0.ksh, {ALIAS_PASSWORD})
  {
    Store(p, ALIAS_PASSWORD, password, saveOk)
  }

  function SetSecret(p: Provider, secretId: string, secret: Chars, saveOk: bool): (r: (Provider, bool))
    ensures r.1 == saveOk
    ensures GetSecret(r.0, secretId) == Some(secret)
    ensures OthersUnchanged(p.ksh, r.0.ksh, {SecretAlias(secretId)})
  {
    Store(p, SecretAlias(secretId), secret, saveOk)
  }

  /**
   * `SecretProvider.keyStoreBased(ksh, username, password)`: a provider over
   * the handler with username and password written (and saved) in turn.
   */
  function KeyStoreBased(ksh: Option<Handler>, username: string, password: Chars, saveOk: bool): (r: Result<Provider, SecretError>)
    ensures r.Err? <==> ksh.None?
    ensures r.Ok? ==> GetUsername(r.value) == Ok(username) && GetPassword(r.value) == Ok(password)
  {
    match New(ksh)
    case Err(e) => Err(e)
    case Ok(p) =>
      var (p1, _) := SetUsername(p, username, saveOk);
      var (p2, _) := SetPassword(p1, password, saveOk);
      Ok(p2)
  }

  /**
   * `setToken(reader)`: the token and the time it was stored (`now`, as
   * `OffsetDateTime.now().toString()` gives it) are written, then saved once.
   */
  function SetToken(p: Provider, token: Chars, now: string, saveOk: bool): (r: (Provider, bool))
    ensures r.1 == saveOk
    ensures GetToken(r.0) == Some(token)
    ensures HandlerGet(r.0.ksh, ALIAS_TOKEN_DATE) == Some(now)
    ensures OthersUnchanged(p.ksh, r.0.ksh, {ALIAS_TOKEN, ALIAS_TOKEN_DATE})
    ensures saveOk ==> IsSaved(r.0.ksh)
    ensures !saveOk ==> r.0.ksh.saved == p.ksh.saved
  {
    var h := HandlerSet(HandlerSet(p.ksh, ALIAS_TOKEN, token), ALIAS_TOKEN_DATE, now);
    (KeyStoreSecretProvider(HandlerSave(h, saveOk)), saveOk)
  }

  /** `deleteToken()`: the token and its date are deleted, then saved once. */
  function DeleteToken(p: Provider, saveOk: bool): (r: (Provider, bool))
    ensures r.1 == saveOk
    ensures GetToken(r.0) == None
    ensures HandlerGet(r.0.ksh, ALIAS_TOKEN_DATE) == None
    ensures OthersUnchanged(p.ksh, r.0.ksh, {ALIAS_TOKEN, ALIAS_TOKEN_DATE})
    ensures saveOk ==> IsSaved(r.0.ksh)
    ensures !saveOk ==> r.0.ksh.saved == p.ksh.saved
  {
    var h := HandlerDelete(HandlerDelete(p.ksh, ALIAS_TOKEN), ALIAS_TOKEN_DATE);
    (KeyStoreSecretProvider(HandlerSave(h, saveOk)), saveOk)
  }

  /** Counting calls in a log of three. */
  lemma OccurrencesOfThree(x: HandlerCall, y: HandlerCall, z: HandlerCall)
    ensures forall c :: Occurrences([x, y, z], c) == (if x == c then 1 else 0) + (if y == c then 1 else 0) + (if z == c then 1 else 0)
  {
    forall c
      ensures Occurrences([x, y, z], c) == (if x == c then 1 else 0) + (if y == c then 1 else 0) + (if z == c then 1 else 0)
    {
      assert [x][..0] == [];
      assert Occurrences([x], c) == (if x == c then 1 else 0);
      assert [x, y][..1] == [x];
      assert Occurrences([x, y], c) == Occurrences([x], c) + (if y == c then 1 else 0);
      assert [x, y, z][..2] == [x, y];
    }
  }

  /** On a store with nothing in it, username and password are errors, while the token is merely absent. */
  lemma NothingSet(p: Provider)
    requires p.ksh.entries == map[]
    ensures GetUsername(p) == Err(IllegalState)
    ensures GetPassword(p) == Err(IllegalState)
    ensures GetToken(p) == None
  {
  }

  /** Creating without a handler fails; with one, the provider is persistent and holds the handler's entries. */
  lemma CreateProvider(h: Handler)
    ensures New(None) == Err(IllegalArgument)
    ensures New(Some(h)).Ok? && IsPersistent(New(Some(h)).value)
    ensures GetToken(New(Some(h)).value) == HandlerGet(h, ALIAS_TOKEN)
  {
  }

  /**
   * Username and password given at creation come back; setting new ones
   * succeeds when the saves do, and the getters then return the new values;
   * a named secret then round-trips too, and none of these writes disturbs
   * the others.
   */
  lemma UsernamePasswordSecretRoundTrip(h: Handler, usr: string, pwd: Chars, usr2: string, pwd2: Chars, key: string, value: Chars)
    ensures var p0 := KeyStoreBased(Some(h), usr, pwd, true).value;
      && GetUsername(p0) == Ok(usr) && GetPassword(p0) == Ok(pwd)
      && var (p1, ok1) := SetUsername(p0, usr2, true);
      && ok1 && GetUsername(p1) == Ok(usr2) && GetPassword(p1) == Ok(pwd)
      && var (p2, ok2) := SetPassword(p1, pwd2, true);
      && ok2 && GetPassword(p2) == Ok(pwd2) && GetUsername(p2) == Ok(usr2)
      && var (p3, ok3) := SetSecret(p2, key, value, true);
      && ok3 && GetSecret(p3, key) == Some(value)
      && GetUsername(p3) == Ok(usr2) && GetPassword(p3) == Ok(pwd2)
      && IsSaved(p3.ksh)
  {
    AliasesDistinct(key);
  }

  /** A stored token reads back; after `deleteToken` it is gone, whatever else the store holds. */
  lemma TokenRoundTrip(p: Provider, token: Chars, now: string, saveOk: bool, deleteOk: bool)
    ensures var (p1, ok1) := SetToken(p, token, now, saveOk);
      && ok1 == saveOk && GetToken(p1) == Some(token)
      && var (p2, ok2) := DeleteToken(p1, deleteOk);
      && ok2 == deleteOk && GetToken(p2) == None
      && OthersUnchanged(p.ksh, p2.ksh, {ALIAS_TOKEN, ALIAS_TOKEN_DATE})
  {
  }

  /**
   * `deleteToken` deletes the two token entries, calls `save()` exactly once
   * and after them, writes nothing, and answers `false` exactly when the save failed.
   */
  lemma DeleteTokenCalls(p: Provider, saveOk: bool)
    ensures var (p1, ok) := DeleteToken(p, saveOk);
      && |p.ksh.calls| <= |p1.ksh.calls|
      && var calls := NewCalls(p, p1);
      && Occurrences(calls, Save) == 1 && calls[|calls| - 1] == Save
      && Occurrences(calls, DeleteEntry(ALIAS_TOKEN)) == 1
      && Occurrences(calls, DeleteEntry(ALIAS_TOKEN_DATE)) == 1
      && |calls| == 3
      && (ok <==> saveOk)
  {
    var (p1, ok) := DeleteToken(p, saveOk);
    var calls := NewCalls(p, p1);
    assert calls == [DeleteEntry(ALIAS_TOKEN), DeleteEntry(ALIAS_TOKEN_DATE), Save];
    OccurrencesOfThree(DeleteEntry(ALIAS_TOKEN), DeleteEntry(ALIAS_TOKEN_DATE), Save);
  }

  /**
   * `setToken` writes the token and its date before its one `save()`, and
   * answers `false` when the save fails; the file then keeps its old content.
   */
  lemma SetTokenCalls(p: Provider, token: Chars, now: string, saveOk: bool)
    ensures var (p1, ok) := SetToken(p, token, now, saveOk);
      && |p.ksh.calls| <= |p1.ksh.calls|
      && var calls := NewCalls(p, p1);
      && Occurrences(calls, Save) == 1 && calls[|calls| - 1] == Save
      && Occurrences(calls, SetEntry(ALIAS_TOKEN)) == 1
      && Occurrences(calls, SetEntry(ALIAS_TOKEN_DATE)) == 1
      && |calls| == 3
      && (!saveOk ==> !ok && p1.ksh.saved == p.ksh.saved)
  {
    var (p1, ok) := SetToken(p, token, now, saveOk);
    var calls := NewCalls(p, p1);
    assert calls == [SetEntry(ALIAS_TOKEN), SetEntry(ALIAS_TOKEN_DATE), Save];
    OccurrencesOfThree(SetEntry(ALIAS_TOKEN), SetEntry(ALIAS_TOKEN_DATE), Save);
  }
}
