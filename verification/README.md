# UnityTwitchAPI request and client core, in Dafny

A model of the two deterministic pieces of the Unity Twitch API client that
sit around the engine's networking calls:

- **Requests** (`Core/Request.cs`): building the request URL from a base URL and
  `(key, value)` query pairs, the headers every call carries, the verb, body and
  content type each request kind fixes, and `OnCompleted`, which turns one
  response into callback invocations and then disarms the callbacks.
- **Session** (`Core/Client.cs`): the client's readonly application credentials,
  its OAuth token and broadcaster identity (either may be null), token arrival,
  the identity fetch (clear, then replace wholesale), the save string and the
  constructor that loads it, and the `User` record's JSON encoder and decoder.

Files: `common.dfy` (option, result, C# null strings, the exceptions the code can
raise), `json.dfy` (the JSON tree and the library lookups the code uses),
`query.dfy` (query-string building and a parser that reads it back),
`requests.dfy` (headers, request kinds, response dispatch) and `session.dfy`
(user record, client state, save and load, identity fetch).

Modelling choices:

- The strings the client and user hold (client id, client secret, token and
  the four user fields) are `Option<string>`, where `None` is null. An
  interpolated null prints as empty text: with no token, the header is `Bearer `.
  URLs, verbs, request bodies and query pairs are plain strings.
- A thrown exception is a `Failure(NullReference)` or `Failure(ArgumentOutOfRange)`
  result: `ParseJSON` on a payload without `data`, or with an empty `data` list;
  `GetSaveString` on a client without identity; loading a save without `uinfo`.
- The JSON library is a tree plus the lookups the code relies on: `GetField`
  finds the first field with the key. The string form of `GetField` yields a
  present field's string (null for a non-string node) and the fallback for an
  absent one. `list` is an array's items or an object's values. A null string is
  stored as a JSON null.
- The URL escape function is a parameter (`escape: string -> string`).
- `OnCompleted` takes the parse outcome of the body and which callback
  invocations throw as inputs, and returns the invocations in order, the
  callbacks left armed, and whether an exception escaped.

Three behaviours of the code that the model keeps:

- `onError` can run twice for one response: first with the error payload
  (Core/Request.cs:56), then with null from the outer catch when that first
  call throws (Core/Request.cs:74). `Requests.ErrorHandlerCanFireTwice` shows this.
- Whenever the outer catch's `onError(null)` throws (Core/Request.cs:74), the
  exception leaves `OnCompleted` before the callbacks are cleared, so the
  callbacks stay armed. This happens on two paths: after a parse failure, and
  after an error payload whose first `onError` call threw.
  The model keeps this behaviour (`escaped`). The model does prove that
  `onCompleted` runs at most once over any run of completions (`Requests.CompleteAll`).
- Restoring a save is not a format check. A missing `soauth` gives a null token,
  and a missing `uinfo` is a null-reference failure.

## Model

| member | source | states |
|---|---|---|
| Query.Segments | Core/Request.cs:98-104 | one `key=value&` segment per pair, in input order; a non-empty list always yields text ending in `&`; an empty list yields nothing |
| Query.AddQueryParameters | Core/Request.cs:91-106 | a null or empty list returns the base URL unchanged; otherwise the result is the base, then `?`, then the segments, and it always ends in `&` |
| Query.BuildUrl | Core/Request.cs:95-105 | the piece-by-piece builder loop produces exactly the URL of the reference definition, ending in `&` for a non-empty list |
| Query.ParseSegments | Core/Request.cs:98-104 | keys are appended verbatim and only values are escaped: when no key holds `=` and no escaped value holds `&`, the query parses back to the list of (key, escaped value) pairs |
| Query.QueryRoundTrip | Core/Request.cs:91-106 | for a base without `?`, keys without `=` and escaped values without `&`, splitting the built URL at `?` recovers the base, and the query recovers every pair in order (none for a null or empty array) |
| Requests.AddHeaders | Core/Request.cs:83-89 | sets `Authorization: Bearer <token>` and `Client-Id: <client id>` (null prints as empty); sets `Content-Type: application/json` exactly when asked; leaves every other header unchanged, including an existing `Content-Type` when none is asked for |
| Requests.NewPostRequest | Core/Request.cs:123-138 | a POST carrying the contents as body, the query-extended URL, the three headers including the JSON content type, and both callbacks armed |
| Requests.NewSimpleRequest | Core/Request.cs:147-162 | a body-less request of the given verb with only the authorization and client-id headers, and both callbacks armed |
| Requests.NewKindRequest | Core/Request.cs:168-188 | `GetRequest` sends verb `GET` and `PatchRequest` verb `PATCH`, both without body or content type, with exactly the `Authorization: Bearer <token>` and `Client-Id` headers, with the query-extended URL and both callbacks armed |
| Requests.OnCompleted | Core/Request.cs:48-78 | parse failure: `onError(null)` only. Error payload: `onError(json)` first, never `onCompleted`, and `onError(null)` again when that call throws. Success payload: `onCompleted(json)` only, whatever it throws. Callbacks are cleared unless the final `onError(null)` throws out of the method |
| Requests.CompletedFaultIsSwallowed | Core/Request.cs:58-69 | whether `onCompleted` throws changes neither the invocations nor the callbacks: its exception never reaches `onError` |
| Requests.LaterCompletionSilent | Core/Request.cs:76-77 | after a completion that clears the callbacks, any later completion invokes nothing |
| Requests.ErrorHandlerCanFireTwice | Core/Request.cs:54-75 | a concrete error response for which `onError` is invoked twice, with the payload and then with null |
| Requests.IsApiError | Core/Request.cs:54 | a body is an API error when it is an object with an `error` field |
| Requests.CompleteAll | Core/Request.cs:48-78 | over any run of completions, `onCompleted` is invoked at most once; the callbacks stay armed exactly when every completion escaped, and are cleared otherwise; when the first completion does not escape, it is the only one that invokes anything |
| Requests.CompleteAllStopsAt | Core/Request.cs:71-77 | for the first completion that does not escape, after any number that did: the run invokes exactly what the completions up to it invoke, and ends with the callbacks cleared |
| Session.FirstEntry | Core/Client.cs:154 | a missing `data` field, or a `data` with no list (a string, number, boolean or null), is a null-reference failure. For an array or object `data`, an empty list is an out-of-range failure; otherwise the result is the first item (for an object, its first field value) |
| Session.ParseUser | Core/Client.cs:152-159 | reads only the first `data` entry; a present field's string is taken; a missing id, login or display name keeps the previous value; a missing broadcaster type becomes empty text |
| Session.ToJson | Core/Client.cs:161-177 | `data` is an array of exactly one entry holding the four user keys, and parsing it into any user gives back the encoded user |
| Session.HasOAuth | Core/Client.cs:48 | `bHasOAuth` holds exactly when the token is non-null |
| Session.HasBroadcasterInfos | Core/Client.cs:43 | `bHasBroadcasterInfos` holds exactly when the identity is non-null |
| Session.NewClient | Core/Client.cs:55-59 | keeps the given credentials; no token and no identity |
| Session.NewClientWithToken | Core/Client.cs:67-70 | keeps the given credentials and token; `bHasOAuth` holds exactly when the token is non-null; no identity |
| Session.OnOAuthTokenReceived | Core/Client.cs:125-128 | the token becomes the response's access token; credentials and identity are unchanged |
| Session.GetBroadcasterInfos | Core/Client.cs:77-81 | the identity is cleared first, token and credentials unchanged; an authorized GET to the users endpoint is issued with only the user-infos callback |
| Session.OnBroadcasterInfosGet | Core/Client.cs:83-86 | the fetched user replaces the identity wholesale; nothing else changes |
| Session.ReceiveUserInfos | Core/Client.cs:142-150 | a success payload that parses into a fresh user becomes the identity; an error payload, parse failure or unparseable user leaves the client as it was; the callbacks end cleared |
| Session.FetchIdentity | Core/Client.cs:77-86 | after a fetch and its response, the client has an identity exactly when the payload was a success that parsed, that identity is the parsed user, and a later response changes nothing |
| Session.GetSaveString | Core/Client.cs:101-107 | fails with a null reference exactly when there is no identity; otherwise holds `soauth` and `uinfo`, and loading it with any credentials restores the token and identity |
| Session.LoadFromSave | Core/Client.cs:112-120 | credentials come from the arguments, never from the save; the token comes from `soauth` (null when absent); the identity is parsed from `uinfo` into a fresh user; a missing `uinfo` is a null-reference failure, and an unparsable `uinfo` fails with the exception its parse throws |
| Session.Replay | Core/Client.cs:20-25 | over any sequence of token arrivals, identity requests and identity arrivals, client id and secret never change. The token is the access token of the last arrival, or the initial one when none arrived. The identity is decided by the last identity event: a request leaves none, an arrival sets the user |
| Session.ReplayLastEvents | Core/Client.cs:77-86 | in any history, a token arrival not followed by another gives the client's token, and an identity request not followed by an arrival leaves the client without identity |

## Left out

- Sending the request, the engine's completion event, the download handler and the UTF-8 encoding of the body: engine networking. A completion is an input to `OnCompleted`.
- JSON text parsing and printing: the library is third-party and not shown. Bodies are trees, and a body that did not parse is the `Unparseable` outcome. For the same reason, the `PostRequest` overload that takes a JSON object (Core/Request.cs:118) is not modelled separately: it only prints its argument and calls the string overload.
- The URL escape function belongs to the engine, so it is a parameter.
- Query.QueryRoundTrip: the round trip holds under three assumptions: the base URL holds no `?`, no key holds `=`, and no escaped value holds `&`. The source checks none of them.
- URLs, verbs, request bodies and query pairs are taken to be non-null, so the null-reference paths for them are not modelled. One example is a null POST body, which `Encoding.UTF8.GetBytes` rejects (Core/Request.cs:128).
- `GetOAuth` and the loopback OAuth listener are not part of this model. A token arrives as `TokenResponse`.
- `Debug.Log` and `Debug.LogException`: logging with no effect on state.
- The `yield`, `operation` and `sResult` accessors and the `SendPostRequest`/`SendGetRequest`/`SendPatchRequest` extensions: they only expose the engine operation or forward to the constructors modelled above.
- Requests.OnCompleted: a callback's throwing is a fixed flag per kind of argument, so a stateful delegate that throws on some calls and not on others with the same argument is not modelled.
- Session.ReceiveUserInfos: `GetClientUserInfos` passes no error callback (its call does not match the shown `SendGetRequest` signature), so the request's error callback is taken as null, and any error callback is assumed not to throw.
- Session.Replay: an identity arrival is `OnBroadcasterInfosGet` with the fetched user; which in-flight request delivered it is not tracked.
