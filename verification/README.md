# RoboZonky: region decoding, credentials, command line and key-store secrets

A Dafny model of four small sequential pieces of RoboZonky, a robot that
invests on the Zonky peer-to-peer lending marketplace:

- **Region decoding** (`Regions`, with `JavaInt`). The Zonky API sends a
  borrower's region as a 1-based number in text. `RegionDeserializer`
  parses it with `Integer.parseInt`, subtracts one in 32-bit arithmetic and
  indexes `Region.values()`; any failure gives `UNKNOWN`, which is declared
  last. `JavaInt` models `Integer.parseInt` twice: once as a reference
  meaning (`ParseInt`) and once as the JDK's own loop with negative
  accumulation and overflow guards (`ParseIntJava`), proved equal.
- **Credentials requests** (`Credentials`, with `JavaString`). A request
  `toolId` or `toolId:password` is split with `String.split(":")`; trailing
  empty pieces vanish, so `"id:"` is one piece, `":"` is none and `""` is one
  empty piece. One piece names the tool, two also store the password in the
  secret provider, and anything else is rejected. `JavaString.SplitFast`
  follows the JDK's single-character fast path and is proved equal to the
  reference `Split`.
- **Command-line builder** (`CommandLine`). `CommandLinePart` holds
  options (name to ordered values, in insertion order), JVM properties and
  environment variables; `storeOptions` writes each option name on a line,
  then each value in double quotes. The implementation class is not part of
  this model. Its behaviour is taken from `CommandLinePartTest`, and the option
  table behaves like a `LinkedHashMap`: setting a name again replaces its
  values and keeps its place.
- **Key-store secret provider** (`SecretStore`). The provider keeps username,
  password, named secrets and a token in a key-store handler, and saves once
  after every write. The handler is a value holding three things: the working
  entries, the entries as last saved, and a log of calls. Whether a save
  succeeds is an argument standing for the file system. Errors are values:
  a missing username or password is `IllegalState`, and a missing handler is
  `IllegalArgument`. The implementation class is not part of this model. Its
  behaviour is taken from `KeyStoreSecretProviderTest`.

Everything is a pure function over immutable datatypes, except the two JDK
algorithms written as methods with loops (`ParseIntJava`, `SplitFast`).

## Model

| member | source | states |
|---|---|---|
| JavaInt.ParseInt | robozonky-api/src/main/java/com/github/triceo/robozonky/api/remote/enums/Region.java:47 | `Integer.parseInt` succeeds only on an optional sign followed by at least one digit whose signed value is a 32-bit `int`, and then yields that value |
| JavaInt.ParseIntJava | robozonky-api/src/main/java/com/github/triceo/robozonky/api/remote/enums/Region.java:47 | the JDK's accumulation loop (negative accumulator, `multmin` and `limit + digit` guards, truncating division) never overflows an `int` and agrees with the reference meaning on every text |
| JavaInt.Quot | robozonky-api/src/main/java/com/github/triceo/robozonky/api/remote/enums/Region.java:47 | Java's `int` division truncates toward zero, which differs from Dafny's division for negative dividends; `parseInt` relies on it for its overflow bound |
| JavaInt.ParseIntToDecimal | robozonky-api/src/main/java/com/github/triceo/robozonky/api/remote/enums/Region.java:47 | parsing the decimal text of any `int` gives that `int` back |
| JavaInt.Sub | robozonky-api/src/main/java/com/github/triceo/robozonky/api/remote/enums/Region.java:47 | `int` subtraction is exact inside the 32-bit range and wraps by 2^32 outside it |
| Regions.Ordinal | robozonky-api/src/main/java/com/github/triceo/robozonky/api/remote/enums/Region.java:35-36 | every constant sits at its ordinal in `values()` |
| Regions.ValuesAreAnEnumeration | robozonky-api/src/main/java/com/github/triceo/robozonky/api/remote/enums/Region.java:35-36 | `values()` holds 15 pairwise distinct constants and indexing inverts `ordinal()` |
| Regions.UnknownIsLast | robozonky-api/src/main/java/com/github/triceo/robozonky/api/remote/enums/Region.java:28-36 | `UNKNOWN` has the highest ordinal, 14 |
| Regions.ArrayIndex | robozonky-api/src/main/java/com/github/triceo/robozonky/api/remote/enums/Region.java:47 | the computed index is the parsed number minus one, except that `MIN_VALUE` wraps to `MAX_VALUE`; it fails exactly when parsing fails |
| Regions.Deserialize | robozonky-api/src/main/java/com/github/triceo/robozonky/api/remote/enums/Region.java:45-52 | API number n in 1..15 gives the n-th declared constant; every other text gives `UNKNOWN`; the decoder is total |
| Regions.DeserializeApiNumber | robozonky-api/src/main/java/com/github/triceo/robozonky/api/remote/enums/Region.java:47-48 | the text of each n from 1 to 14 decodes to the constant with ordinal n-1, never `UNKNOWN` |
| Regions.DeserializeFirstAndLast | robozonky-api/src/main/java/com/github/triceo/robozonky/api/remote/enums/Region.java:35-48 | "1" is `PRAHA` and "14" is `ZLINSKY` |
| Regions.DeserializeFifteen | robozonky-api/src/main/java/com/github/triceo/robozonky/api/remote/enums/Region.java:28-48 | "15" yields index 14, which is in range and holds `UNKNOWN`, so no fallback is involved |
| Regions.DeserializeNotAnInt | robozonky-api/src/main/java/com/github/triceo/robozonky/api/remote/enums/Region.java:47-51 | text that is not a Java `int` decodes to `UNKNOWN` |
| Regions.DeserializeMalformedExamples | robozonky-api/src/main/java/com/github/triceo/robozonky/api/remote/enums/Region.java:47-51 | the empty text, a lone sign, letters, a decimal point and 2147483648 all decode to `UNKNOWN` |
| Regions.DeserializeOutOfRange | robozonky-api/src/main/java/com/github/triceo/robozonky/api/remote/enums/Region.java:47-51 | parsed numbers below 1 or above 15 decode to `UNKNOWN`, and `MIN_VALUE - 1` wraps to `MAX_VALUE` |
| Regions.DeserializeRecognises | robozonky-api/src/main/java/com/github/triceo/robozonky/api/remote/enums/Region.java:45-52 | a real region comes out if and only if the text is an `int` from 1 to 14 |
| JavaString.IndexOf | robozonky-common/src/main/java/com/github/triceo/robozonky/common/secrets/Credentials.java:34 | `indexOf(c, from)` is the first position at or after `from` holding `c`, and -1 exactly when there is none |
| JavaString.DropTrailingEmpty | robozonky-common/src/main/java/com/github/triceo/robozonky/common/secrets/Credentials.java:34 | the result is a prefix of the pieces ending in a non-empty piece, and everything dropped is empty |
| JavaString.SegmentsJoin | robozonky-common/src/main/java/com/github/triceo/robozonky/common/secrets/Credentials.java:34 | no piece contains ':' and joining the pieces with ':' restores the request |
| JavaString.SplitPieces | robozonky-common/src/main/java/com/github/triceo/robozonky/common/secrets/Credentials.java:34 | a text without ':' is itself alone; otherwise the pieces are the ':'-separated segments in order with the trailing run of empty ones dropped, so the last piece kept is non-empty; no piece contains ':' |
| JavaString.JoinSegments | robozonky-common/src/main/java/com/github/triceo/robozonky/common/secrets/Credentials.java:34 | cutting a join of ':'-free pieces gives those pieces back |
| JavaString.SplitFast | robozonky-common/src/main/java/com/github/triceo/robozonky/common/secrets/Credentials.java:34 | the JDK's single-character split loop computes exactly the reference `Split` |
| JavaString.CollectPieces | robozonky-common/src/main/java/com/github/triceo/robozonky/common/secrets/Credentials.java:34 | the `indexOf` walk collects every piece in order, and its offset stays 0 exactly when there is no separator |
| JavaString.TrailingEmptyCut | robozonky-common/src/main/java/com/github/triceo/robozonky/common/secrets/Credentials.java:34 | the count-down loop keeps exactly the pieces before the trailing empty run |
| JavaString.SplitWithoutSeparator | robozonky-common/src/main/java/com/github/triceo/robozonky/common/secrets/Credentials.java:34 | a text without ':' (the empty text included) splits into itself alone |
| JavaString.SplitTwo | robozonky-common/src/main/java/com/github/triceo/robozonky/common/secrets/Credentials.java:34 | "a:b" is two pieces, or one piece "a" when b is empty, or none when both are empty |
| JavaString.SplitThree | robozonky-common/src/main/java/com/github/triceo/robozonky/common/secrets/Credentials.java:34 | "a:b:c" with c non-empty is three pieces |
| Credentials.New | robozonky-common/src/main/java/com/github/triceo/robozonky/common/secrets/Credentials.java:32-45 | construction succeeds exactly for 1 or 2 pieces. The tool id is the first piece. One piece leaves the provider untouched. Two pieces store the second as the tool's secret and change no other entry. Otherwise the error carries the pieces |
| Credentials.GetToolId | robozonky-common/src/main/java/com/github/triceo/robozonky/common/secrets/Credentials.java:47-49 | the tool id returned is the one `toString` shows |
| Credentials.GetToken | robozonky-common/src/main/java/com/github/triceo/robozonky/common/secrets/Credentials.java:51-53 | present exactly when the provider holds a secret under the tool id, and then it is that secret |
| Credentials.RequestToolIdOnly | robozonky-common/src/main/java/com/github/triceo/robozonky/common/secrets/Credentials.java:34-37 | a request without ':' is the tool id as a whole and stores nothing |
| Credentials.RequestWithPassword | robozonky-common/src/main/java/com/github/triceo/robozonky/common/secrets/Credentials.java:38-53 | "id:pw" gives tool id "id", `getToken` then yields "pw", and no other entry changes |
| Credentials.RequestThreeParts | robozonky-common/src/main/java/com/github/triceo/robozonky/common/secrets/Credentials.java:42-43 | "a:b:c" is rejected with its three pieces |
| Credentials.RequestTrailingColon | robozonky-common/src/main/java/com/github/triceo/robozonky/common/secrets/Credentials.java:34-37 | "id:" behaves as "id": one piece and no secret stored |
| Credentials.RequestEdgeCases | robozonky-common/src/main/java/com/github/triceo/robozonky/common/secrets/Credentials.java:34-43 | ":" is rejected with no pieces, "" is accepted with an empty tool id, ":pw" stores pw under the empty tool id |
| Credentials.ToString | robozonky-common/src/main/java/com/github/triceo/robozonky/common/secrets/Credentials.java:55-60 | the rendering is the tool id between the fixed prefix `Credentials{toolId='` and suffix `'}` |
| Credentials.ToStringRoundTrip | robozonky-common/src/main/java/com/github/triceo/robozonky/common/secrets/Credentials.java:55-60 | the tool id can be read back out of the rendering |
| Credentials.ToStringHidesPassword | robozonky-common/src/main/java/com/github/triceo/robozonky/common/secrets/Credentials.java:55-60 | "id" and "id:pw" render identically, so the rendering reveals nothing about the password |
| CommandLine.Empty | robozonky-installer/robozonky-installer-panels/src/test/java/com/github/triceo/robozonky/installer/panels/CommandLinePartTest.java:40 | a new builder has three empty tables |
| CommandLine.Put | robozonky-installer/robozonky-installer-panels/src/test/java/com/github/triceo/robozonky/installer/panels/CommandLinePartTest.java:40-44 | the map view gets `name` mapped to the new values. An existing name keeps its place. A new name is appended at the end |
| CommandLine.GetOptionsContents | robozonky-installer/robozonky-installer-panels/src/test/java/com/github/triceo/robozonky/installer/panels/CommandLinePartTest.java:40-52 | `getOptions()` maps every option in the table to its own values and holds no other name |
| CommandLine.SetOption | robozonky-installer/robozonky-installer-panels/src/test/java/com/github/triceo/robozonky/installer/panels/CommandLinePartTest.java:40-52 | afterwards the option has exactly the given values, all other options are as before, and properties and environment variables are unchanged |
| CommandLine.SetProperty | robozonky-installer/robozonky-installer-panels/src/test/java/com/github/triceo/robozonky/installer/panels/CommandLinePartTest.java:62-71 | the property maps to the value, other properties are as before, options and environment are unchanged |
| CommandLine.SetEnvironmentVariable | robozonky-installer/robozonky-installer-panels/src/test/java/com/github/triceo/robozonky/installer/panels/CommandLinePartTest.java:81-90 | the variable maps to the value, other variables are as before, options and properties are unchanged |
| CommandLine.SetOptionReplaces | robozonky-installer/robozonky-installer-panels/src/test/java/com/github/triceo/robozonky/installer/panels/CommandLinePartTest.java:42-49 | setting an option twice leaves only the second values and does not move the option |
| CommandLine.EmptyHasNothing | robozonky-installer/robozonky-installer-panels/src/test/java/com/github/triceo/robozonky/installer/panels/CommandLinePartTest.java:46-47 | a name never set is absent from all three tables |
| CommandLine.OptionsScenario | robozonky-installer/robozonky-installer-panels/src/test/java/com/github/triceo/robozonky/installer/panels/CommandLinePartTest.java:33-53 | for any distinct names, the options test holds: values as last set, an unknown name absent, the other tables empty |
| CommandLine.PropertyAndVariableScenario | robozonky-installer/robozonky-installer-panels/src/test/java/com/github/triceo/robozonky/installer/panels/CommandLinePartTest.java:56-91 | a property or a variable set on a fresh builder reads back, an unknown key is absent, and the other two tables stay empty |
| CommandLine.StoreOptionsWritten | robozonky-installer/robozonky-installer-panels/src/test/java/com/github/triceo/robozonky/installer/panels/CommandLinePartTest.java:94-104 | the written lines are one per option plus one per value, and reading them back restores the table when no name looks quoted |
| CommandLine.StoreOptionsLineCount | robozonky-installer/robozonky-installer-panels/src/test/java/com/github/triceo/robozonky/installer/panels/CommandLinePartTest.java:97-103 | the written lines are one per option plus one per value |
| CommandLine.LinesAppend | robozonky-installer/robozonky-installer-panels/src/test/java/com/github/triceo/robozonky/installer/panels/CommandLinePartTest.java:97-103 | lines follow table order: each option contributes its name and then its quoted values |
| CommandLine.StoreOptionsRoundTrip | robozonky-installer/robozonky-installer-panels/src/test/java/com/github/triceo/robozonky/installer/panels/CommandLinePartTest.java:96-103 | reading the written lines back as lines (bare line = name, quoted lines = its values) restores the table, provided no name itself looks quoted |
| CommandLine.StoreOptionsExample | robozonky-installer/robozonky-installer-panels/src/test/java/com/github/triceo/robozonky/installer/panels/CommandLinePartTest.java:96-103 | the test's three options are written as `-noarg`, `-onearg`, `"a1"`, `-twoarg`, `"a2"`, `"a3"` |
| SecretStore.New | robozonky-common/src/test/java/com/github/triceo/robozonky/common/secrets/KeyStoreSecretProviderTest.java:154-158 | no handler is an illegal argument; otherwise the provider wraps the given handler |
| SecretStore.IsPersistent | robozonky-common/src/test/java/com/github/triceo/robozonky/common/secrets/KeyStoreSecretProviderTest.java:100 | a key-store provider reports itself persistent |
| SecretStore.GetUsername | robozonky-common/src/test/java/com/github/triceo/robozonky/common/secrets/KeyStoreSecretProviderTest.java:64-68 | an illegal-state error exactly when no username entry exists, else the stored username |
| SecretStore.GetPassword | robozonky-common/src/test/java/com/github/triceo/robozonky/common/secrets/KeyStoreSecretProviderTest.java:70-74 | an illegal-state error exactly when no password entry exists, else the stored password |
| SecretStore.GetSecret | robozonky-common/src/test/java/com/github/triceo/robozonky/common/secrets/KeyStoreSecretProviderTest.java:97-99 | present exactly when an entry for that secret exists, and then it is that entry's value |
| SecretStore.GetToken | robozonky-common/src/test/java/com/github/triceo/robozonky/common/secrets/KeyStoreSecretProviderTest.java:76-80 | present exactly when a token entry exists, and then it is that entry's value; absence is not an error |
| SecretStore.Store | robozonky-common/src/test/java/com/github/triceo/robozonky/common/secrets/KeyStoreSecretProviderTest.java:83-99 | one write then one save. The entry reads back and nothing else changes. The answer is the save's outcome. A successful save leaves the file equal to the entries; a failed one leaves it as it was |
| SecretStore.SetUsername | robozonky-common/src/test/java/com/github/triceo/robozonky/common/secrets/KeyStoreSecretProviderTest.java:90-92 | answers whether the save succeeded; `getUsername` then returns the new name; no other entry changes |
| SecretStore.SetPassword | robozonky-common/src/test/java/com/github/triceo/robozonky/common/secrets/KeyStoreSecretProviderTest.java:93-95 | answers whether the save succeeded; `getPassword` then returns the new password; no other entry changes |
| SecretStore.SetSecret | robozonky-common/src/test/java/com/github/triceo/robozonky/common/secrets/KeyStoreSecretProviderTest.java:97-99 | answers whether the save succeeded; `getSecret` then returns the value; no other entry changes |
| SecretStore.KeyStoreBased | robozonky-common/src/test/java/com/github/triceo/robozonky/common/secrets/KeyStoreSecretProviderTest.java:59-62 | fails exactly without a handler; otherwise username and password read back as given |
| SecretStore.SetToken | robozonky-common/src/test/java/com/github/triceo/robozonky/common/secrets/KeyStoreSecretProviderTest.java:104-122 | answers whether the save succeeded. The token and its timestamp read back and nothing else changes. The file is updated only by a successful save |
| SecretStore.DeleteToken | robozonky-common/src/test/java/com/github/triceo/robozonky/common/secrets/KeyStoreSecretProviderTest.java:124-142 | answers whether the save succeeded. Token and timestamp are gone and nothing else changes. The file is updated only by a successful save |
| SecretStore.NothingSet | robozonky-common/src/test/java/com/github/triceo/robozonky/common/secrets/KeyStoreSecretProviderTest.java:64-80 | on an empty store, username and password are illegal-state errors while the token is merely absent |
| SecretStore.CreateProvider | robozonky-common/src/test/java/com/github/triceo/robozonky/common/secrets/KeyStoreSecretProviderTest.java:154-158 | creation without a handler fails; with one, the provider is persistent and sees the handler's entries |
| SecretStore.UsernamePasswordSecretRoundTrip | robozonky-common/src/test/java/com/github/triceo/robozonky/common/secrets/KeyStoreSecretProviderTest.java:82-101 | the given username and password come back, then new ones, then a named secret. Each setter answers true when saves succeed. No write disturbs the others, and the file ends up saved |
| SecretStore.TokenRoundTrip | robozonky-common/src/test/java/com/github/triceo/robozonky/common/secrets/KeyStoreSecretProviderTest.java:103-122 | a stored token reads back; after `deleteToken` it is absent; all other entries are untouched |
| SecretStore.DeleteTokenCalls | robozonky-common/src/test/java/com/github/triceo/robozonky/common/secrets/KeyStoreSecretProviderTest.java:124-142 | `deleteToken` makes exactly two deletes and one final save. It answers false exactly when the save fails |
| SecretStore.SetTokenCalls | robozonky-common/src/test/java/com/github/triceo/robozonky/common/secrets/KeyStoreSecretProviderTest.java:144-152 | `setToken` makes exactly two writes and then one save. A failed save answers false and leaves the file as it was |

## Left out

- Logging (the region warning, the credentials debug messages) and the
  Jackson parser plumbing around `deserialize` are not modelled; the decoder
  takes the token's text directly, so a `null` text is not represented.
- JavaInt.ParseInt: `Character.digit` also accepts non-ASCII Unicode decimal
  digits (Arabic-Indic, fullwidth and others); the model accepts only ASCII
  '0'..'9', so such text decodes to `UNKNOWN` here where Java may find a region.
- The `KeyStoreSecretProvider` and `KeyStoreHandler` classes are not part of
  this model; only their tests are. The alias strings ("usr", "pwd",
  "tkn", "tknd" and "pwd-" before a secret's name) are the model's own
  choice. They are chosen pairwise distinct so that the five kinds of entry
  cannot collide.
- SecretStore.Store: the handler's own `set` and `delete` are taken to always
  succeed, so every answer is the save's outcome alone; a handler
  whose `set` or `delete` reports failure (as a mock can) is not modelled.
- SecretStore.SetToken: the handler's `set` is taken to always succeed, as for
  `Store`. The token arrives as text. A `Reader` that fails while
  being read is not modelled. The clock is the `now` argument.
- Credentials.New: `Credentials` accepts any `SecretProvider`; the model
  passes it the key-store provider, so any other provider implementation
  is not part of this model.
- SecretStore.SetTokenCalls: exactly one save, after both writes, is the
  model's assumption; the failed-save test only demands two writes and at
  least one save, so an implementation saving after each write also passes it.
- SecretStore.DeleteToken: the handler's `delete` is taken to always succeed,
  so the answer is the save's outcome alone; an implementation whose answer
  also depends on what `delete` reports is not modelled.
- SecretStore.DeleteTokenCalls: "false exactly when the save fails" holds
  only under that assumption about `delete`.
- SecretStore.KeyStoreBased: one save outcome stands for both of its saves.
- Key-store encryption, the file format, the handler's password, and the
  provider's token-date query are not modelled.
- CommandLine.StoreOptions: the lines are returned rather than written to a
  file; file creation, encoding and I/O errors are not modelled. Line
  terminators inside names or values are not modelled either: such a name or
  value would become several lines of the file when read back, whereas here it
  stays one written line.
- `Credentials.toString` does not literally avoid every password substring (a
  password "d" occurs in the rendering of tool id "id"); what it guarantees,
  and what is proved, is that the rendering depends on the tool id alone.
- The daemon loop, notification properties, service loaders, the rate
  counter, event listeners, the e-mail validator and the plain data classes
  of the repository are outside this model: they are thread coordination,
  reflection, I/O or data payloads without logic to verify.
