# ShapeDiver tiny SDK — a Dafny model

This project models the small Python client that the VIKTOR sample apps use to
talk to a ShapeDiver Geometry Backend (`shapediver-karamba-test/ShapeDiverTinySdk.py`):

- the colour codec between an `(r, g, b)` triple and ShapeDiver's `0xRRGGBBff` strings
  (`HexColor`, over a model of Python's `hex()` and `int(text, 16)`);
- `flatten_nested_list`, which descends into JSON arrays only (`Flattening`);
- `ShapeDiverResponse`, the read-only accessors over a parsed backend document:
  parameters, outputs, exports, their flattened content items, the glTF filter and
  `sessionId` (`ResponseView`);
- `ShapeDiverTinySessionSdk` with its `ExceptionHandler` and `ParameterMapper`
  decorators (`SessionSdk`): the constructor, `close`, `output` and `export` as pure
  functions over an HTTP oracle. Each call returns what the caller sees (a value, the
  exception handler's value in its place, or a raised error) together with the list of
  requests it sent.

JSON is an inductive datatype (`JsonValues.Json`) whose objects are ordered
`seq<(string, Json)>`, so "values in mapping order" can be stated. Python exceptions
are values of `Failures.Error`. The code the client calls but does not define is a
parameter, `SessionSdk.Env`: `send` stands for `requests.post`/`requests.put`,
`parse` for `json.loads`, and `show` for `str()` of a non-string value inside an f-string.

The model follows the code, which lacks some behaviour a client like this is often described with:

- The code keeps no Unopened/Open/Closed state. `close()` may be called again and
  simply posts again. Nothing raises an invalid-state error.
- The parameter mapper is an opaque function supplied by the caller. The code has no
  built-in Colour mapper.
- The opening body is `paramDict` sent verbatim when it is a string, and its JSON
  serialisation otherwise. It is not always a map.
- The memoisation helpers delegate to VIKTOR's `memoize` and add no lock of their
  own; they live outside the modelled file.
- "No content found" and "more than one glTF item" are handled by the apps, not by
  the client.

## Model

| member | source | states |
|---|---|---|
| JsonValues.Get | shapediver-karamba-test/ShapeDiverTinySdk.py:34 | a dict lookup finds a value exactly when some member has the key, and the value found is bound to that key |
| JsonValues.GetFindsBinding | shapediver-karamba-test/ShapeDiverTinySdk.py:79 | with distinct keys, as in any dict, `d[key]` yields v if and only if (key, v) is a member |
| JsonValues.Values | shapediver-karamba-test/ShapeDiverTinySdk.py:34 | the values of `items()` are the members' values, one per member, in mapping order |
| HexColor.Hex | shapediver-karamba-test/ShapeDiverTinySdk.py:8 | `hex(n)[2:]` is lowercase hex digits denoting n, without leading zeros, at most two digits below 256 |
| HexColor.IntToTwoDigitHex | shapediver-karamba-test/ShapeDiverTinySdk.py:7-8 | the padded digits denote i, are lowercase hex, and have length exactly 2 if and only if i < 256 |
| HexColor.RgbToShapeDiverColor | shapediver-karamba-test/ShapeDiverTinySdk.py:10-11 | the colour starts "0x", ends "ff", and for channels below 256 has length 10 with characters [2:4], [4:6], [6:8] denoting r, g, b |
| HexColor.PlainHexParses | shapediver-karamba-test/ShapeDiverTinySdk.py:5 | `int(s, 16)` of a non-empty string of hex digits (either case) is the number the digits denote |
| HexColor.ChannelParses | shapediver-karamba-test/ShapeDiverTinySdk.py:5 | two hex digits parse to a value below 256 |
| HexColor.Slice | shapediver-karamba-test/ShapeDiverTinySdk.py:5 | Python slicing: the ordinary subsequence when in range, the rest of the string when the end is past it, and empty when the start is |
| HexColor.ShapeDiverColorToRgb | shapediver-karamba-test/ShapeDiverTinySdk.py:4-5 | when characters 2 to 8 are hex digits, decoding succeeds with the three two-digit values, each in 0..255; a string of at most 6 characters, or a window character no hex literal contains, raises |
| HexColor.ParseRejectsStrayChar | shapediver-karamba-test/ShapeDiverTinySdk.py:5 | `int(t, 16)` raises whenever `t` holds a character that is not a digit, whitespace, a sign, an underscore or the x of the prefix |
| HexColor.ParseHexInt | shapediver-karamba-test/ShapeDiverTinySdk.py:5 | `int(text, 16)`: a text with nothing but whitespace raises; with PlainHexParses, ParseRejectsStrayChar and EmptyDoesNotParse, plain hex digits parse to their value and any stray character raises |
| HexColor.SeparatorIsNotSpace | shapediver-karamba-test/ShapeDiverTinySdk.py:5 | the ASCII separator U+001C is not whitespace to `int()`, so a channel holding it raises |
| HexColor.EmptyDoesNotParse | shapediver-karamba-test/ShapeDiverTinySdk.py:5 | `int('', 16)`, the value of a channel window past the string's end, raises |
| HexColor.TwoDigitHexRoundTrip | shapediver-karamba-test/ShapeDiverTinySdk.py:5-8 | `int(intToTwoDigitHex(i), 16) == i` for every non-negative i |
| HexColor.ColorRoundTrip | shapediver-karamba-test/ShapeDiverTinySdk.py:4-11 | decoding an encoded colour gives back (r, g, b) for all channels in 0..255 |
| HexColor.DecodeReadsOnlyChannels | shapediver-karamba-test/ShapeDiverTinySdk.py:4-5 | two strings that agree on [2:8] decode alike: the prefix, the alpha and any tail are ignored |
| HexColor.EncodeExamples | shapediver-karamba-test/ShapeDiverTinySdk.py:10-11 | (255,255,255) encodes as "0xffffffff" and (0,0,0) as "0x000000ff" |
| HexColor.ChannelWindow | shapediver-karamba-test/ShapeDiverTinySdk.py:5 | each channel's slice is the matching part of the [2:8] window, also for short strings |
| Flattening.Flatten | shapediver-karamba-test/ShapeDiverTinySdk.py:13-14 | the flattened list contains no list |
| Flattening.FlattenSingleton | shapediver-karamba-test/ShapeDiverTinySdk.py:14 | a single element contributes its own flattening when it is a list, and itself otherwise (dicts and strings too) |
| Flattening.FlattenAppend | shapediver-karamba-test/ShapeDiverTinySdk.py:14 | flatten(a + b) == flatten(a) + flatten(b); with the singleton case this fixes the left-to-right depth-first order |
| Flattening.FlattenIdentity | shapediver-karamba-test/ShapeDiverTinySdk.py:13-14 | flattening leaves a list unchanged if and only if it holds no nested list |
| Flattening.FlattenIdempotent | shapediver-karamba-test/ShapeDiverTinySdk.py:13-14 | flattening twice equals flattening once |
| Flattening.FlattenLeaves | shapediver-karamba-test/ShapeDiverTinySdk.py:13-14 | a value is in the flattened list if and only if it is a non-list value reachable through nested lists |
| ResponseView.FromValue | shapediver-karamba-test/ShapeDiverTinySdk.py:22-26 | a string is parsed and fails only when it is not JSON; any other value is wrapped unchanged |
| ResponseView.Member | shapediver-karamba-test/ShapeDiverTinySdk.py:50 | `v[key]` succeeds exactly on an object holding the key; TypeError on a non-object, KeyError on a missing key |
| ResponseView.Mapping | shapediver-karamba-test/ShapeDiverTinySdk.py:34 | a member's values in mapping order with one value per member, or the TypeError, KeyError or AttributeError Python raises |
| ResponseView.Parameters | shapediver-karamba-test/ShapeDiverTinySdk.py:28-34 | `parameters()` is the values of the `parameters` mapping in order, as many as it has members |
| ResponseView.Outputs | shapediver-karamba-test/ShapeDiverTinySdk.py:36-42 | `outputs()` is the values of the `outputs` mapping in order, as many as it has members |
| ResponseView.Exports | shapediver-karamba-test/ShapeDiverTinySdk.py:60-66 | `exports()` is the values of the `exports` mapping in order, as many as it has members |
| ResponseView.Contents | shapediver-karamba-test/ShapeDiverTinySdk.py:50 | one `content` per definition in order, succeeding exactly when every definition has one; a failure is the lookup error of the first definition without one |
| ResponseView.DefinitionItems | shapediver-karamba-test/ShapeDiverTinySdk.py:50 | content items are the flattening of the definitions' contents, exist exactly when every content lookup succeeds, and otherwise raise the first failing lookup's error |
| ResponseView.DefinitionItemsAppend | shapediver-karamba-test/ShapeDiverTinySdk.py:44-50 | the items of a + b are the items of a followed by those of b |
| ResponseView.DefinitionItemsSingle | shapediver-karamba-test/ShapeDiverTinySdk.py:44-50 | one definition contributes its flattened content: the leaves of a list, or a scalar or object content as one item |
| ResponseView.OutputContentItems | shapediver-karamba-test/ShapeDiverTinySdk.py:44-50 | `outputContentItems()` flattens the outputs' contents in definition order; it raises what `outputs()` raises, else the first missing `content` lookup's error |
| ResponseView.ExportContentItems | shapediver-karamba-test/ShapeDiverTinySdk.py:68-74 | `exportContentItems()` flattens the exports' contents in definition order; it raises what `exports()` raises, else the first missing `content` lookup's error |
| ResponseView.GltfItems | shapediver-karamba-test/ShapeDiverTinySdk.py:58 | the filter succeeds exactly when every item has a `contentType`, keeps only glTF binaries, and otherwise raises the lookup error of the first item without one |
| ResponseView.GltfItemsExact | shapediver-karamba-test/ShapeDiverTinySdk.py:52-58 | the glTF items are picked from the items at strictly increasing positions, and a position is picked if and only if its item is a glTF binary |
| ResponseView.OutputContentItemsGltf2 | shapediver-karamba-test/ShapeDiverTinySdk.py:52-58 | `outputContentItemsGltf2()` succeeds exactly when the output items exist and all have a `contentType`, and is their glTF filter; otherwise it raises the output items' error or the first item's `contentType` error |
| ResponseView.SingleGltfOutput | shapediver-karamba-test/ShapeDiverTinySdk.py:44-58 | one output with one `model/gltf-binary` item yields exactly that item |
| ResponseView.SessionId | shapediver-karamba-test/ShapeDiverTinySdk.py:76-79 | `sessionId()` is the `sessionId` member: KeyError when the document lacks it, TypeError when the document is not a mapping |
| SessionSdk.Accept | shapediver-karamba-test/ShapeDiverTinySdk.py:174-180 | a reply is accepted exactly when it has the expected status and a JSON body that wraps; another status raises with that status and text, an expected status with a body that does not decode raises the decode error, and a transport failure raises its error |
| SessionSdk.Guard | shapediver-karamba-test/ShapeDiverTinySdk.py:81-97 | a success passes through; with no handler an error propagates; with one, the handler's value is returned or the handler's error raised |
| SessionSdk.MappedParams | shapediver-karamba-test/ShapeDiverTinySdk.py:99-106 | the mapper rewrites `paramDict` only when one is configured and `paramDict` was passed; otherwise the default `{}` or the given value is used |
| SessionSdk.InitStep | shapediver-karamba-test/ShapeDiverTinySdk.py:129-147 | a given init response wins and sends nothing; else a ticket POSTs once to `/api/v2/ticket/{ticket}` and the result is the status check for 201 followed by wrapping the reply's JSON; with neither it raises without a request |
| SessionSdk.Open | shapediver-karamba-test/ShapeDiverTinySdk.py:113-147 | the constructor keeps the URL, handler and mapper; it applies the handler but never the mapper; a handler returning None leaves an object without a response, any other value raises TypeError |
| SessionSdk.CurrentSessionId | shapediver-karamba-test/ShapeDiverTinySdk.py:156 | the session id comes from the stored response; an object without a response raises AttributeError |
| SessionSdk.Interpolate | shapediver-karamba-test/ShapeDiverTinySdk.py:156 | the session id is rendered into the URL as its own characters when it is a string, and as `str()` of it otherwise |
| SessionSdk.CloseStep | shapediver-karamba-test/ShapeDiverTinySdk.py:149-159 | one bodiless POST to `/api/v2/session/{id}/close`, succeeding exactly on status 200; another status raises with that status and text, a transport failure raises its error, and a missing id sends nothing |
| SessionSdk.OutputStep | shapediver-karamba-test/ShapeDiverTinySdk.py:161-180 | one PUT of the mapped parameters to `/api/v2/session/{id}/output`, whose result is the status check for 200 followed by wrapping the reply's JSON; a failing mapper or missing id sends nothing |
| SessionSdk.ExportBody | shapediver-karamba-test/ShapeDiverTinySdk.py:191 | the export body has exactly the members `exports` = [exportId] and `parameters` = the parameters |
| SessionSdk.ExportStep | shapediver-karamba-test/ShapeDiverTinySdk.py:182-202 | one PUT of exactly the body `{exports: [exportId], parameters: mapped}` to `/api/v2/session/{id}/export`, whose result is the status check for 200 followed by wrapping the reply's JSON |
| SessionSdk.Close | shapediver-karamba-test/ShapeDiverTinySdk.py:149-159 | `close()` sends what its body sends and its outcome is the handler decorator applied to the body's result: returns exactly when the body succeeds, raises the body's error without a handler |
| SessionSdk.Output | shapediver-karamba-test/ShapeDiverTinySdk.py:161-180 | `output()` sends what its body sends and its outcome is the handler decorator applied to the body's result: the body's response exactly when it succeeds, its error without a handler |
| SessionSdk.Export | shapediver-karamba-test/ShapeDiverTinySdk.py:182-202 | `export()` sends what its body sends and its outcome is the handler decorator applied to the body's result: the body's response exactly when it succeeds, its error without a handler |
| SessionSdk.OpenedSessionId | shapediver-karamba-test/ShapeDiverTinySdk.py:129-145 | a ticket sends exactly the ticket POST, and yields a session with a response exactly when the answer is 201 with a document that wraps; that session's `sessionId()` is the document's `sessionId`, for JSON and string replies alike |
| SessionSdk.OpenFromTicketReply | shapediver-karamba-test/ShapeDiverTinySdk.py:137-145 | a 201 answer stores the reply's JSON as the response, or the parse of a string reply; an unparsable string raises without a handler |
| SessionSdk.OutputFromReply | shapediver-karamba-test/ShapeDiverTinySdk.py:170-180 | a 200 answer to the output PUT makes `output()` return that answer's document; any other status reaches the handler decorator as that status's error |
| SessionSdk.ExportFromReply | shapediver-karamba-test/ShapeDiverTinySdk.py:192-202 | a 200 answer to the export PUT makes `export()` return that answer's document; any other status reaches the handler decorator as that status's error |
| SessionSdk.HandlerDecidesFailures | shapediver-karamba-test/ShapeDiverTinySdk.py:81-97 | with a handler configured, a failing `close`, `output` or `export` returns the handler's value or raises the handler's error, and sends no request beyond the body's |
| SessionSdk.SessionRequestsOnEndpoint | shapediver-karamba-test/ShapeDiverTinySdk.py:156-190 | every request `close`, `output` or `export` sends goes to the session's `modelViewUrl` under `/api/v2/session/` followed by its own id |
| SessionSdk.OpenKeepsEndpoint | shapediver-karamba-test/ShapeDiverTinySdk.py:121 | a constructed session keeps the `modelViewUrl` it was opened against |

## Left out

- HTTP transport: `requests.post`/`requests.put` are the oracle `Env.send`. Timeouts, retries and asset downloads are not modelled.
- JSON text: `json.loads` is the oracle `Env.parse`. `json.dumps` is not modelled: a JSON body is carried as the value it serialises.
- JSON numbers are integers only. Floats are not modelled.
- Objects whose keys repeat: a Python dict cannot hold them. `Get` returns the first binding.
- `str()` of a non-string `sessionId` in a URL is the oracle `Env.show`. A ticket is modelled as a string.
- Exception messages: errors carry the status and body text, not the formatted wording.
- HexColor.ShapeDiverColorToRgb: `int(_, 16)` also accepts non-ASCII Unicode decimal digits. The model rejects them.
- HexColor.ParseHexInt and HexColor.ParseRejectsStrayChar: the same non-ASCII Unicode decimal digits count as stray characters here.
- Negative colour channels: `hex()` then yields a minus sign. Channels are `nat`, so they are excluded.
- An explicit `exceptionHandler=None` passed to the constructor: the decorator would call `None(e)`. The model's `None` means "not passed".
- `paramDict={}` is a mutable default. A mapper that mutates it in place is not modelled.
- A parameter mapper receives the whole `sdk`. The model gives it the URL and the stored response (`View`), not the handler or the mapper.
- A handler may return any Python value. The model's handler returns a JSON value.
- The memoisation helpers and the VIKTOR exception handler in both `ShapeDiverTinySdkViktorUtils.py` files: they wrap VIKTOR's `memoize` and UI messaging, whose behaviour is not visible here.
- Both `app.py` files, `createParametrization.py` and `test.py`: UI glue, a code generator and a live-network script.
- Rate limiting: it is only a TODO in the code.
