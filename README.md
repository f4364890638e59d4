# Deepgram .NET SDK: request dispatch, vendor headers and the callback guard

This project models, in Dafny, the three pieces of logic at the core of the
Deepgram .NET SDK's REST layer:

- **Vendor response-header extraction** (`PostFileAsync`). Custom headers named
  `x-dg-<key>` (current prefix) or `dg-<key>` (legacy prefix) are reported under
  their short key when the caller's allow-list asks for it. A header whose
  lower-cased raw name is allow-listed is reported as it is. When the
  allow-list contains `content-type`, the response's media type (or `""`) is
  added under that key. The source's index loop, which grows a
  dictionary with `Add`, is the method `VendorHeaders.ExtractVendorHeaders`. It
  is proved equal to the specification function `VendorHeaders.Extraction`, and the
  protocol's properties are lemmas about that function.
- **The status gate of every verb** (`GetAsync`, `PostAsync`, `PostFileAsync`,
  both `DeleteAsync`, `PatchAsync`, `PutAsync`). A body is decoded only after
  `EnsureSuccessStatusCode` has accepted a 2xx status (section 15.3 of RFC 9110).
  Every exception is rethrown unchanged. The verbs are pure functions of the
  outcome of sending.
- **The callback guard of the pre-recorded entry points** (`TranscribeUrl`,
  `TranscribeUrlCallBack`, `TranscribeFile`, `TranscribeFileCallBack`). A
  synchronous call refuses a callback. A callback call needs exactly one of the
  schema's `CallBack` property and the `callBack` argument. An argument is
  folded into the schema before the query string is made. A refused call makes
  no request at all. `PreRecordedClient` itself is not part of this model: its
  behaviour is taken from its unit tests, and each entry point reports the
  `PostAsync` calls it made next to its result.

The request options are the record `PrerecordedSchema.Schema`. It has one
`Option` field per nullable property, and each property has a fixed wire token.

Modules: `Wrappers` (Option, Result), `Http` (requests, responses, errors,
ASCII lower-casing), `VendorHeaders`, `RestClient`, `PrerecordedSchema`,
`PrerecordedClient`.

Collaborators whose source is not part of this model are function-valued
parameters, so nothing is assumed about them:

- `QueryParameterUtil.AppendQueryParameters` is `Transport.append`.
- `HttpClient.SendAsync` is `Transport.send`. Its failure stands for connection
  errors, timeouts and cancellation.
- `RequestContentUtil.DeserializeAsync<T>` is `decode`.
- `QueryParameterUtil.GetParameters` is `Services.getParameters`.
- The JSON payload of a URL source is `Services.createPayload`.

Two facts of the code that shape the model:

- A key reached twice makes `Dictionary.Add` throw. An existing entry is never
  overwritten.
- The exception from `EnsureSuccessStatusCode` carries the status only, not the
  response body.

## Model

| member | source | states |
|---|---|---|
| `Http.ToLower` | Deepgram/Abstractions/AbstractRestClient.cs:76 | the lower-cased name keeps its length and maps every ASCII capital to its small letter, leaving other characters alone (the invariant-culture reading) |
| `Http.ToLowerIgnoresCase` | Deepgram/Abstractions/AbstractRestClient.cs:76 | names that differ only in the ASCII case of their letters lower-case to the same name |
| `Http.ToLowerTurkic` | Deepgram/Abstractions/AbstractRestClient.cs:76 | the culture-sensitive `ToLower()` under a Turkish or Azerbaijani culture maps `I` to dotless `ı` and the other ASCII capitals to their small letters |
| `Http.TurkicLowerSplitsCaseVariants` | Deepgram/Abstractions/AbstractRestClient.cs:76 | under that culture `I` and `i`, case variants of one letter, lower-case to different characters |
| `VendorHeaders.Rule` | Deepgram/Abstractions/AbstractRestClient.cs:79-102 | a header yields at most one key; that key is allow-listed and is the name minus `x-dg-`, minus `dg-`, or the name itself |
| `VendorHeaders.CurrentPrefixFirst` | Deepgram/Abstractions/AbstractRestClient.cs:79-87 | `x-dg-<k>` yields `k` whenever `k` is allow-listed, before any other rule |
| `VendorHeaders.LegacyPrefixSecond` | Deepgram/Abstractions/AbstractRestClient.cs:89-98 | `dg-<k>` yields `k` whenever `k` is allow-listed |
| `VendorHeaders.RawNameLast` | Deepgram/Abstractions/AbstractRestClient.cs:99-102 | when neither prefix rule applies, the raw name is used if allow-listed, and otherwise the header is dropped |
| `VendorHeaders.ValuesOf` | Deepgram/Abstractions/AbstractRestClient.cs:77 | the values a successful `GetValues(key)` returns: those of the first header whose lower-cased name is `key` (its `[]` for a name no header has stands for no result; `GetValues` throws there) |
| `VendorHeaders.GetValues` | Deepgram/Abstractions/AbstractRestClient.cs:77 | `GetValues(key)` succeeds if and only if some header's lower-cased name is `key`, then with `ValuesOf`'s values; otherwise it throws a missing-header error for `key` |
| `VendorHeaders.GetValuesOfOwnName` | Deepgram/Abstractions/AbstractRestClient.cs:74-77 | the loop's lookup of a header's own lower-cased name never throws and gives `ValuesOf` of that name |
| `VendorHeaders.ValuesOfOwnName` | Deepgram/Abstractions/AbstractRestClient.cs:76-77 | on a header list with names distinct up to case, `GetValues` of a header's own name gives that header's values |
| `VendorHeaders.FirstValue` | Deepgram/Abstractions/AbstractRestClient.cs:77 | the stored value is the first value, or `""` when there is none |
| `VendorHeaders.Add` | Deepgram/Abstractions/AbstractRestClient.cs:85 | `Dictionary.Add` throws on a key already present, and otherwise adds exactly that entry and keeps all others |
| `VendorHeaders.Extraction` | Deepgram/Abstractions/AbstractRestClient.cs:74-108 | the extraction is the loop's dictionary followed by the `content-type` step: when `content-type` is allow-listed a successful result maps it to the media type, or `""` when there is none; otherwise the result is the loop's dictionary |
| `VendorHeaders.ExtractVendorHeaders` | Deepgram/Abstractions/AbstractRestClient.cs:72-108 | the index loop with its `continue` exits and the `content-type` step computes exactly `Extract` |
| `VendorHeaders.ScanFailurePersists` | Deepgram/Abstractions/AbstractRestClient.cs:74-103 | once an `Add` throws inside the loop, that exception is the result of the whole loop |
| `VendorHeaders.ScanSucceedsIffNoCollision` | Deepgram/Abstractions/AbstractRestClient.cs:74-103 | the loop completes if and only if no two headers yield the same key |
| `VendorHeaders.ScanValues` | Deepgram/Abstractions/AbstractRestClient.cs:74-103 | after the loop, every header that matched a rule is present with its first value |
| `VendorHeaders.ExtractKeysAllowed` | Deepgram/Abstractions/AbstractRestClient.cs:83-108 | every key of a successful extraction is in the allow-list |
| `VendorHeaders.ExtractKeysOrigin` | Deepgram/Abstractions/AbstractRestClient.cs:79-108 | every key of a successful extraction comes from a header's rule or is the added `content-type` |
| `VendorHeaders.ExtractComplete` | Deepgram/Abstractions/AbstractRestClient.cs:74-103 | no header that matched a rule is missing from a successful result, and its entry holds the header's first value |
| `VendorHeaders.ExtractOwnValue` | Deepgram/Abstractions/AbstractRestClient.cs:74-103 | in a successful result, the entry of every matched header is that header's own first value, or `""` when it has none |
| `VendorHeaders.ExtractFailsIffDuplicate` | Deepgram/Abstractions/AbstractRestClient.cs:85-107 | the extraction throws a duplicate-key error exactly when two headers compete for a key, or a header already produced `content-type` that is then added again |
| `VendorHeaders.ExtractIgnoresNameCase` | Deepgram/Abstractions/AbstractRestClient.cs:76 | header lists that differ only in the case of their names extract to the same result |
| `VendorHeaders.RequestIdExample` | Deepgram/Abstractions/AbstractRestClient.cs:79-87 | `X-DG-Request-Id: abc` with an unrelated header and allow-list `request-id` gives exactly `request-id ↦ abc` |
| `VendorHeaders.TurkicCultureFailsLookup` | Deepgram/Abstractions/AbstractRestClient.cs:76-102 | under a Turkish culture the lowered name of `X-DG-Request-Id` names no header, so `GetValues` throws, and it matches no rule either; invariant lower-casing reports `request-id ↦ abc` |
| `VendorHeaders.BothPrefixesCollide` | Deepgram/Abstractions/AbstractRestClient.cs:79-98 | `x-dg-request-id` together with `dg-request-id` makes the extraction throw |
| `RestClient.EnsureSuccess` | Deepgram/Abstractions/AbstractRestClient.cs:46 | the response passes if and only if its status is 2xx; otherwise the call fails with that status; a send failure is passed on |
| `RestClient.Exchange` | Deepgram/Abstractions/AbstractRestClient.cs:45-48 | the shared send-check-decode step keeps the status gate |
| `RestClient.GetAsync` | Deepgram/Abstractions/AbstractRestClient.cs:39-55 | a GET result exists only for a 2xx response and is exactly the decoded body; every exception is rethrown unchanged |
| `RestClient.PostFileAsync` | Deepgram/Abstractions/AbstractRestClient.cs:64-120 | a 2xx response yields the extracted headers and the raw body; header keys are allow-listed; a send, status or `Add` exception is rethrown unchanged |
| `RestClient.PostAsync` | Deepgram/Abstractions/AbstractRestClient.cs:129-146 | a POST result exists only for a 2xx response and is exactly the decoded body; every exception is rethrown unchanged |
| `RestClient.DeleteAsync` | Deepgram/Abstractions/AbstractRestClient.cs:153-166 | succeeds, returning nothing, if and only if the response is 2xx; every exception is rethrown unchanged |
| `RestClient.DeleteAsyncOf` | Deepgram/Abstractions/AbstractRestClient.cs:174-190 | a DELETE result exists only for a 2xx response and is exactly the decoded body; every exception is rethrown unchanged |
| `RestClient.PatchAsync` | Deepgram/Abstractions/AbstractRestClient.cs:198-221 | a PATCH result exists only for a 2xx response and is exactly the decoded body; every exception is rethrown unchanged |
| `RestClient.PutAsync` | Deepgram/Abstractions/AbstractRestClient.cs:229-248 | a PUT result exists only for a 2xx response and is exactly the decoded body; every exception is rethrown unchanged |
| `RestClient.NonSuccessNeverDecoded` | Deepgram/Abstractions/AbstractRestClient.cs:46-47 | a non-2xx response fails with its status whatever the decoder would return |
| `RestClient.ServerErrorExample` | Deepgram/Abstractions/AbstractRestClient.cs:39-55 | a GET answered with HTTP 500 fails with status 500 and has no decoded result |
| `PrerecordedSchema.WireToken` | Deepgram/Models/PreRecorded/v1/PrerecordedSchema.cs:14-250 | the `JsonPropertyName` of each of the 35 properties; its contract is stated by `TokenRoundTrip` (every token maps back to its property) and `WireTokensDistinct` (no two properties share a token) |
| `PrerecordedSchema.TokenRoundTrip` | Deepgram/Models/PreRecorded/v1/PrerecordedSchema.cs:14-250 | every property's wire token names that property back |
| `PrerecordedSchema.WireTokensDistinct` | Deepgram/Models/PreRecorded/v1/PrerecordedSchema.cs:14-250 | two properties with the same wire token are the same property |
| `PrerecordedSchema.WireTokensIgnoreIdentifierCasing` | Deepgram/Models/PreRecorded/v1/PrerecordedSchema.cs:150-236 | `CallBack`, `MultiChannel`, `SmartFormat`, `UttSplit` are sent as `callback`, `multichannel`, `smart_format`, `utt_split` |
| `PrerecordedSchema.Default` | Deepgram/Models/PreRecorded/v1/PrerecordedSchema.cs:7-251 | a new schema has every property unset |
| `PrerecordedSchema.ExplicitZeroIsSet` | Deepgram/Models/PreRecorded/v1/PrerecordedSchema.cs:15-180 | `false`, `0` and an empty list are set values, distinct from unset |
| `PrerecordedSchema.WithCallBack` | Deepgram/Models/PreRecorded/v1/PrerecordedSchema.cs:22-23 | the updated schema has `CallBack` set to the URL and every other property unchanged |
| `PrerecordedClient.VerifyNoCallBack` | Deepgram.Tests/UnitTests/ClientTests/PrerecordedClientTests.cs:55-74 | a synchronous call passes if and only if `CallBack` is unset, and then leaves the schema unchanged; otherwise it throws an argument error |
| `PrerecordedClient.VerifyOneCallBack` | Deepgram.Tests/UnitTests/ClientTests/PrerecordedClientTests.cs:77-182 | a callback call passes if and only if exactly one of property and argument is set; an argument is folded into `CallBack`; nothing else changes |
| `PrerecordedClient.PostGuarded` | Deepgram.Tests/UnitTests/ClientTests/PrerecordedClientTests.cs:24-74 | a refused call posts nothing and throws the guard's error; an accepted one posts once to `listen?` plus the encoded schema and returns `PostAsync`'s result unchanged |
| `PrerecordedClient.TranscribeUrl` | Deepgram.Tests/UnitTests/ClientTests/PrerecordedClientTests.cs:24-74 | without a callback it posts exactly once to `listen?` plus `GetParameters(schema)` and returns the response unchanged; with a callback it throws an argument error and makes no request |
| `PrerecordedClient.TranscribeUrlCallBack` | Deepgram.Tests/UnitTests/ClientTests/PrerecordedClientTests.cs:77-182 | property only: posts with the schema's query; argument only: posts with the query of the schema with the argument in `CallBack`; both or neither: argument error and no request |
| `PrerecordedClient.TranscribeFile` | Deepgram.Tests/UnitTests/ClientTests/PrerecordedClientTests.cs:185-240 | the stream and byte variants post once to `listen?` plus `GetParameters(schema)` with the file's bytes and return the response unchanged |
| `PrerecordedClient.TranscribeFileCallBack` | Deepgram.Tests/UnitTests/ClientTests/PrerecordedClientTests.cs:243-415 | the callback rules of `TranscribeUrlCallBack`, with the file's bytes as the body; a refused call makes no request at all |
| `PrerecordedClient.ArgumentFoldsIntoProperty` | Deepgram.Tests/UnitTests/ClientTests/PrerecordedClientTests.cs:77-107 | an argument on a schema without `CallBack` gives the same request and result as the same URL set as the property |
| `PrerecordedClient.FileTargetIndependentOfSource` | Deepgram.Tests/UnitTests/ClientTests/PrerecordedClientTests.cs:185-415 | whether a request is made, and its target, do not depend on the file being given as bytes or as a stream |
| `PrerecordedClient.ExtraNeverChecked` | Deepgram/Models/PreRecorded/v1/PrerecordedSchema.cs:97-103 | for every schema, the value of `extra` changes neither guard's verdict, and an accepted schema keeps it as given |
| `PrerecordedClient.ExtraLimitNotEnforced` | Deepgram/Models/PreRecorded/v1/PrerecordedSchema.cs:97-103 | a schema whose `extra` pair exceeds the documented 2048 characters is still accepted |

## Left out

- Network and asynchrony: request construction, `SendAsync`, `CopyToAsync` into a `MemoryStream`, cancellation tokens and task scheduling. A response is plain data, and the response body is a byte sequence. The source returns the `MemoryStream` positioned after its last byte (AbstractRestClient.cs:110-113); the model returns the whole body and has no stream position. A cancelled or failed send is one of the send's failures.
- `QueryParameterUtil.GetParameters`, `AppendQueryParameters`, `RequestContentUtil.DeserializeAsync` and the URL payload builder are not part of this model. They are uninterpreted parameters. So no percent-encoding, field order or value formatting is modelled. Neither is the repeated-pair form of list options such as `redact=pci&redact=numbers` (PrerecordedSchema.cs:174-180).
- `PreRecordedClient` and `UriSegments` are not part of this model. The entry points follow the unit tests. The listen segment is taken to be `listen`. Addons and cancellation tokens on the entry points are not modelled: the tests call them without.
- `PrerecordedClient.TranscribeFile`: refusing a schema with `CallBack` set follows `TranscribeUrl` (tests :55-74). No test of the file variant with a callback property is shown.
- `PrerecordedClient.VerifyOneCallBack`: the argument is folded by returning an updated record. Whether the caller's own schema object is changed in place is not captured. A null schema argument is not modelled: every test passes one.
- Logging (`Log.Exception`, `LogProvider`): the model keeps only the rethrow.
- `SpecifyTimeOut`, `HttpClientWrapper` and the constructor's `HttpClient` set-up: these are timeout and client configuration.
- `SpeakClient`, the `Metadata` and `Callback` DTOs, and `KeySchema`: these have no behaviour. `KeySchema`'s expiry rule is only documented and is never enforced.
- `Http.ToLower`: the model lower-cases by the invariant ASCII rule. The source's `ToLower()` uses the current culture; under a Turkish or Azerbaijani culture it maps `I` to `ı`, so the lookup `GetValues` of a name such as `X-DG-Request-Id` throws and the call fails (see "## Findings"). Lower-casing of non-ASCII characters is not modelled. `IndexOf(prefix) == 0`, also culture-sensitive in .NET, is modelled as an ordinal prefix test.
- `VendorHeaders.ExtractFailsIffDuplicate`: a header list is taken as .NET's `response.Headers` enumerates it, with names distinct up to case (`VendorHeaders.DistinctNames`), because .NET merges names that differ only in case into one entry. The model does not merge: on a list such as `X-Foo: a` and `x-foo: b` with `x-foo` allow-listed it throws a duplicate-key error, where the source would see one merged header and store `x-foo ↦ a`.
- `UttSplit` (`double`) is kept opaque as its 64-bit pattern. `Alternatives` is an unbounded integer: nothing computes with it, so 32-bit width does not matter.

## Findings

| source | as written | input that shows it | evidently intended | confidence | as-written member | corrected member |
|---|---|---|---|---|---|---|
| Deepgram/Abstractions/AbstractRestClient.cs:76 | the header name is lower-cased with the culture-sensitive `ToLower()` | current culture `tr-TR`, response header `X-DG-Request-Id: abc`, allow-list `request-id`: the name becomes `x-dg-request-ıd`; `GetValues` at :77 is called with a name no header has and throws, so the whole call fails (and no rule would match the name either) | header names compared case-insensitively whatever the culture (`ToLowerInvariant()`), so the header is reported as `request-id ↦ abc` | medium, not executed | `VendorHeaders.TurkicCultureFailsLookup` (with `Http.ToLowerTurkic`, `Http.TurkicLowerSplitsCaseVariants`) | `Http.ToLower` with `Http.ToLowerIgnoresCase`, `VendorHeaders.ExtractIgnoresNameCase` |
