# orbi-pro router client, modelled in Dafny

This is a model of the Node.js client for a Netgear Orbi Pro router's admin pages.

`Pages` is the page client. It is built from a base URL, a username and a
password, and offers four operations, each an HTTP GET against the router:
- `change_user.html` evicts any other admin session.
- `basic_home_result.txt` returns a `;`-separated status record. It is parsed
  into a status and the satellite and device counts.
- `DEV_device_info.htm` returns a `device=` line holding a JSON list of device
  records.
- `LOG_logout.htm` ends the session.

`Client` is an event emitter with two getters, `status` and `devices`. It holds
the last refreshed state and forwards only the password and base URL to
`Pages`. `refresh()` chains the four operations in order. Only after the
logout succeeds does it publish the status and devices, and then it emits
`refreshed`. If any step fails, the state is left untouched and nothing is
emitted.

The Dafny modules follow that structure:
- `Results` holds the error kinds and a `Result` type.
- `Text` holds splitting, joining and decimal fields.
- `Json` is the JSON subset of the device payload, with an encoder that plays
  `JSON.stringify` and a decoder that plays `JSON.parse`.
- `Pages` holds the constructor, the URLs, the response handling and the two
  body parsers.
- `PageCases` holds the concrete router bodies, checked against the general
  lemmas.
- `Client` models `refresh` as a phase machine, one phase per promise link.
  It records an ordered log of effects: page calls, the state commit, the
  settling of the promise and the emitted event.
- `AsWritten` holds the source's own body patterns, for the findings below.

The HTTP transport is a parameter: a function from URL to response. What
`refresh` observes from it is a `StepResults` value, which records one outcome
per page call.

## Model

| member | source | states |
|---|---|---|
| Pages.New | src/Pages.mjs:6-15 | Construction fails with InvalidArgument exactly when the password is missing or empty. Otherwise the password is kept, and the base URL and username are the supplied non-empty values or the defaults `https://routerlogin.net` and `admin`. |
| Pages.UrlOf | src/Pages.mjs:17-18 | Each request URL is the client's base URL, one `/`, and then the operation's page name. |
| Pages.UrlsDistinct | src/Pages.mjs:26-58 | The four operations request four different URLs on the same client. |
| Pages.Receive | src/Pages.mjs:18 | A response yields its body exactly when it is a 2xx. A non-2xx status or a failed connection is a request error. The response is the final one, after any redirects the library followed. |
| Pages.ChangeUserPage | src/Pages.mjs:26-28 | It requests exactly change_user.html. It succeeds iff the response is a 2xx and otherwise fails with a request error. The source resolves with the body, but no caller uses it, so the model drops it. |
| Pages.BasicHomeResultPage | src/Pages.mjs:41-55 | It requests exactly basic_home_result.txt. A non-2xx response is a request error, and a 2xx body is handed to the status parser. |
| Pages.DeviceInfoPage | src/Pages.mjs:30-39 | It requests exactly DEV_device_info.htm. A non-2xx response is a request error, and a 2xx body is handed to the device parser. |
| Pages.LogoutPage | src/Pages.mjs:57-59 | It requests exactly LOG_logout.htm. It succeeds iff the response is a 2xx. The source resolves with the body, but no caller uses it, so the model drops it. |
| Pages.ParseBasicHomeResult | src/Pages.mjs:42-53 | An accepted body starts with its status token and a `;`. A rejected body fails with the basic_home_result.txt error. |
| Pages.BasicHomeResultRoundTrip | src/Pages.mjs:43-53 | Every record the router writes (status, two counts, four more digit fields, blank lines) parses back to its status and counts. |
| Pages.BasicHomeResultSound | src/Pages.mjs:43-53 | A body that parses is exactly a record: a status token, six digit fields and blank text joined by `;`. The counts are the decimal values of the second and third fields. |
| Pages.BasicHomeResultRejects | src/Pages.mjs:44-47 | Every `;`-joined body that lacks the record's shape is rejected with the basic_home_result.txt error. |
| Pages.ParseDeviceInfo | src/Pages.mjs:31-38 | An accepted body starts with `device_changed=`. Failures are parse errors. |
| Pages.DeviceInfoRoundTrip | test/Pages.mjs:206-218 | Every page the router serves parses back to its device list. This covers `device_changed=` with any one-line flag, a `device=` line holding `JSON.stringify` of the list, and blank trailing lines, for every list including the empty one. |
| Pages.DeviceInfoRejectsPayload | src/Pages.mjs:37 | A device page whose `device=` line carries a payload that does not decode is rejected as malformed JSON rather than with the page error. |
| Pages.DeviceInfoSound | src/Pages.mjs:32-37 | A body that parses is exactly a flag line, a `device=` line and blank text. The JSON decoding of the payload line gives the result. |
| Json.Put | src/Pages.mjs:37 | Assigning a property whose key is new appends it at the end. Assigning an existing key keeps the length and puts the new member in. |
| Json.PutReplaces | src/Pages.mjs:37 | Assigning an existing key overwrites the first property with that key where it stands. Every other property keeps its position and value. |
| Json.PutReplacesKey | src/Pages.mjs:37 | In an object, where keys are distinct, assigning key k overwrites exactly the property with key k. |
| Json.AssembleDistinct | src/Pages.mjs:37 | Members whose keys are all different build the object with those members, in order. |
| Json.Encode | test/Pages.mjs:210 | The stringified device list is one line with no raw control characters. |
| Json.Decode | src/Pages.mjs:37 | Text whose first non-blank character is not `[` is rejected. |
| Json.DecodeClosesArray | src/Pages.mjs:37 | A text that parses ends with the closing `]` apart from trailing blanks. A truncated list, or one followed by anything but blanks, is rejected. |
| Json.DecodeRejectsUnclosed | src/Pages.mjs:37 | A text whose last character is neither blank nor `]` is rejected. |
| Json.DecodeEncode | src/Pages.mjs:37 | Parsing the stringified form of any device list returns the same list. |
| PageCases.StatusHappyPath | test/Pages.mjs:263-274 | `success;3;16;0;0;0;0;` followed by two line breaks parses to status `success` with 3 satellites and 16 devices. |
| PageCases.StatusRejectsText | test/Pages.mjs:305 | `this is an invalid body` is rejected. |
| PageCases.StatusRejectsSatellites | test/Pages.mjs:306 | A non-digit satellite count is rejected. |
| PageCases.StatusRejectsDevices | test/Pages.mjs:307 | A non-digit device count is rejected. |
| PageCases.StatusRejectsMissingField | test/Pages.mjs:308 | A record with one field too few is rejected. |
| PageCases.DevicesEmpty | test/Pages.mjs:210-220 | The empty device list of line 220, served with the default flag `1`, parses to the empty list. The same holds with flag `0`: the router sends that flag (line 223), but pairing it with an empty list is this model's own case. |
| PageCases.DevicesRejectText | test/Pages.mjs:253 | `this is something else` is rejected with the DEV_device_info.htm error. |
| PageCases.DevicesRejectInvalidJson | test/Pages.mjs:254 | The page whose device list is cut off after its first record, `device=[{ "abc": "123" },`, is rejected as malformed JSON. |
| Client.ForwardedOptions | src/Client.mjs:12-18 | Only a supplied password and base URL are passed on, unchanged. The username is never passed on. |
| Client.New | src/Client.mjs:5-20 | Construction succeeds iff a password is supplied, and otherwise fails with InvalidArgument. A new client's pages use the default username and the supplied or default base URL, and its state is the initial one. |
| Client.NewClientIsEmpty | src/Client.mjs:7-8 | A new client reports status `unknown` and no devices. |
| Client.UsernameNotForwarded | src/Client.mjs:12-19 | A username in the client's options changes nothing. The pages are those built from the base URL and password alone. |
| Client.Status | src/Client.mjs:22-24 | The reported status is never empty. A non-empty stored status is reported as it is, and an empty one reads `unknown`. |
| Client.DevicesAfterRefresh | src/Client.mjs:26-28 | After a successful refresh, `devices` reads the fetched list itself, even when it is empty; unlike `status`, it has no fallback. After a failed refresh it reads what it read before. |
| Client.FirstFailure | src/Client.mjs:32-39 | The first failing step in chain order: it is absent iff every step succeeds, and every earlier step succeeded. |
| Client.Advance | src/Client.mjs:32-46 | Each promise link brings the chain closer to settling. Only the link after the logout changes the state. A rejection carries the error of the step that just ran. |
| Client.Run | src/Client.mjs:30-47 | Once every page call answers, the chain settles. The state changes only when it settles successfully. |
| Client.Refresh | src/Client.mjs:30-47 | A rejected refresh leaves the state as it was. |
| Client.RefreshSucceeds | src/Client.mjs:32-45 | When all four steps succeed, the four pages are called in order, the parsed status and devices are committed, the promise resolves, and then one `refreshed` event follows. |
| Client.RefreshFails | src/Client.mjs:32-46 | When step k is the first to fail, exactly steps 0..k are called and the state is unchanged. The promise rejects with that step's error, and nothing is committed or emitted. |
| Client.RefreshOkIff | src/Client.mjs:30-47 | A refresh resolves iff all four steps succeed. |
| Client.RefreshAllOrNothing | src/Client.mjs:40-42 | A refresh either rejects with the state unchanged, or resolves with exactly the fetched status and devices committed. |
| Client.RefreshEffects | src/Client.mjs:32-45 | The calls are a non-empty prefix of the four steps, in order. There is one commit and one event exactly when the refresh resolves. On success the commit, the settling and the event are the last three effects, in that order. On failure the promise settles last. |
| Client.RefreshAllPublishesLast | src/Client.mjs:40-45 | Over a series of refreshes, one event is emitted per successful refresh. The final state is the one the last successful refresh published, or the starting state if none succeeded. |
| Client.RefreshClient | src/Client.mjs:30-47 | A refresh never changes the client's pages. A failed refresh leaves the client unchanged. |
| Client.LiveStepFails | src/Client.mjs:32-39 | A step fails iff its page answers with something other than a 2xx, or, for the status and device pages, the body does not parse. |
| Client.LiveRefreshSucceeds | src/Client.mjs:32-45 | With four 2xx answers and parsable bodies, the URLs are requested in chain order and one event is emitted. `status` and `devices` then report the parsed values. |
| Client.LiveRefreshFails | src/Client.mjs:32-46 | When the page of step k is the first to fail, exactly the URLs of steps 0..k are requested. Nothing is emitted, the client is unchanged, and the promise rejects with that page's error. |
| AsWritten.ParseBasicHomeResultAsWritten | src/Pages.mjs:43-47 | The source's status pattern accepts a body iff its `;`-pieces are a status token, five digit fields and nothing after the last `;`. |
| AsWritten.StatusPatternRejectsRouterRecords | src/Pages.mjs:43 | No record the router writes matches the source's status pattern, though each one parses under the router's format. |
| AsWritten.ParseDeviceInfoAsWritten | src/Pages.mjs:32-37 | The source's device pattern accepts only a one-line body that starts with `device_changed=1 device=`. |
| AsWritten.DevicePatternRejectsRouterPages | src/Pages.mjs:32 | No device page the router serves matches the source's device pattern, though each one parses under the router's format. |

## Findings

| source | as written | input that shows it | evidently intended | confidence | as-written member | corrected member |
|---|---|---|---|---|---|---|
| src/Pages.mjs:43 | The status pattern wants five digit fields and the end of the body right after the last `;`. | `success;3;16;0;0;0;0;` followed by two line breaks, the router's record from test/Pages.mjs:265 | Accept the status, six digit fields and trailing blank lines. | not executed; high, since every router record is rejected | AsWritten.StatusPatternRejectsRouterRecords | Pages.BasicHomeResultRoundTrip |
| src/Pages.mjs:32 | The device pattern wants `device_changed=1 device=` on one line, with the JSON ending the body. | `device_changed=1`, a line break, `device=[]`, then three line breaks, the router's page from test/Pages.mjs:210 | Accept the flag line, then the `device=` line, then blank lines, for any flag value. | not executed; high, since every router page is rejected | AsWritten.DevicePatternRejectsRouterPages | Pages.DeviceInfoRoundTrip |

## Left out

- HTTP, basic authentication and `request-promise-native`: the transport is a function parameter from URL to response. The credentials are kept in `Pages` but not sent anywhere.
- Redirects: with its default options, the library follows up to ten 3xx redirects of a GET, and only the final response decides success. The router sends such redirects, for instance to change_user.html while another admin session is open. The transport stands for that whole exchange and returns the final response. A page's `requests` lists the page that was asked for, not the redirect hops, and the hop limit is not modelled.
- The dump of each body to `tmp/` (src/Pages.mjs:19) is file I/O with a clock-derived name. As written, the name expression throws: `Date.now()` returns a number, which has no `getUTCMilliseconds`. So every `_httpGet` promise would reject, even on a 2xx, before the body is returned. The model follows the evident intent: the dump has no effect, and the body is returned.
- src/Pages.mjs never assigns `module.exports`, so `require("./Pages.mjs")` at src/Client.mjs:2 yields an empty object. Without an injected page class, `new pagesClass(...)` at src/Client.mjs:19 would then throw a TypeError. Also, `.mjs` files load as ES modules, where `require` and `module` are not defined. The model follows the evident intent: the page class is exported and loadable, and the client constructs it.
- `Pages` stores its base URL as `this._baseUrl` (src/Pages.mjs:10) and defines no `baseUrl` getter, so the constructor tests at test/Pages.mjs:72 and :77 read `undefined`. The model's `baseUrl` field follows the evident intent, a base URL the client exposes.
- `_httpGet` is declared `static` (src/Pages.mjs:17), so `this._httpGet` is not reachable from an instance and `this` inside it would be the class. The model reads it as the instance helper evidently meant.
- `Number.parse` (src/Pages.mjs:50-51) is not a JavaScript function. The counts are modelled as the decimal values of their digit fields, which is the evident intent and what the tests expect.
- The `depends.Pages` injection (src/Client.mjs:9-10): the model always uses its own `Pages`. The test doubles it serves are replaced by the `StepResults` parameter.
- `EventEmitter` and `setTimeout`: emitting is modelled as an `Emitted` effect placed after the promise settles in the effect log. Listeners, timers and real asynchrony are not modelled.
- A page call that never answers is not modelled. The transport is a total function, and the source sets no timeout, so with a silent router `refresh()` stays pending forever.
- Client.Devices: the getter returns the stored array itself, not a copy (src/Client.mjs:26-28), so a caller can push to it or edit its device objects and change the client state outside `refresh`. The model treats the device list as an immutable value and assumes callers leave what the getter returns alone. The claims that the state changes only when a refresh settles successfully (`Client.Run`, `Client.RefreshAllOrNothing`, `Client.RefreshAllPublishesLast`) hold in the source only under that assumption.
- Concurrent or overlapping refreshes: `RefreshAll` models refreshes one after another only.
- The client state keeps only the status token, not the whole snapshot object. A stored snapshot whose `status` field is missing is not representable; an empty status, which the getter treats the same way, is.
- `new Pages()` or `new Client()` with no options object, which throws a TypeError in the source, is not modelled. An omitted option is `None`.
- Only string-valued options are modelled. JavaScript truthiness of non-string values is reduced to "present and non-empty".
- Json.Decode: only the JSON subset the device page carries is modelled: an array of flat objects with string values. Numbers, literals, nesting, and any other top-level value are rejected rather than parsed.
- Json.Decode: `\u` escapes are read as single code points, and any escape in the surrogate range `\uD800`-`\uDFFF` is rejected. So a payload that `JSON.parse` accepts, such as an escaped surrogate pair, is malformed JSON in the model. JavaScript's ordering of integer-like keys first is not modelled either.
- Json.DecodeEncode: it is stated for device records without repeated keys, the only kind a JavaScript object can hold.
- The counts are unbounded naturals. JavaScript numbers lose precision above 2^53, and that is not modelled.
- The flag after `device_changed=` is not interpreted: the router sends `0` and `1`, and the source only ever accepted `1`.
- test/Pages.mjs:309 expects the happy-path record of line 265 to be rejected, which contradicts the happy-path test. The model follows the happy path.
- `logout` calls `requestPromise` directly instead of going through `_httpGet` (src/Pages.mjs:58). The only observable difference is the body dump, which is left out.
