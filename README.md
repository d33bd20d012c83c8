# Destiny route tables and socket discipline, in Dafny

This project models three parts of the Destiny HTTP server.

**The `#router` macro** (`Sources/DestinyMacros/Router.swift`, module `DestinyRouter`).
At build time it turns a list of labelled macro arguments into Swift source text:
`Router(staticResponses: [key: value, ...])`.
- The arguments are: `returnType:`, `version:`, `middleware: [...]`, and unlabelled `Route(...)` calls.
- Each key is a `StackString32(b0, ..., b31)` literal holding the first 32 UTF-8 bytes of the request line `METHOD /path VERSION`, zero-padded. That line has the shape given in section 3 of RFC 9112.
- Each value is the route's response text, rendered as an expression of the chosen return type.
- `parse_route` and `parse_middleware` fold their labelled arguments into `Route` and `StaticMiddleware` records. The last argument with a given label wins, and every field has a default.
- `parse_status` maps status member names to the codes of section 15 of RFC 9110. An unknown name becomes 500.

**The older macro** (`Sources/Macros/Router.swift`, module `LegacyRouter`). It has the same structure, with these differences:
- the keys are the plain string literal `"METHOD /path"`;
- a route's status defaults to 200;
- only `.string(...)` sets a static result;
- middleware has no status override;
- there is a `byteBuffer` return type, and every return type its switch does not list (`.staticString` among them) renders as StaticString.

**The socket discipline** (`Sources/DestinyUtilities/SocketProtocol.swift`, module `Sockets`).
- The `Socket` class has:
  - a `closed` flag and an idempotent `close`;
  - a `deinitalize` path;
  - one-byte reads, line reads, request-line tokenising and fixed-length reads;
  - a write loop that runs to completion.
- The file descriptor is abstract:
  - `input` holds the bytes the peer has sent;
  - `readSizes` and `writeSizes` give, call by call, the most one `read` call (of one byte in `read()`, of many in `read(into:length:)`) or one `write` call transfers. An entry of 0, or no entry at all, means the call fails.
  - `output` holds the bytes written;
  - the ghost counter `releases` counts how often the descriptor was released.
- The loops are specified by the functions `Fill`, `Send` and `LineRead`. `ReadLineOutcome` is what `readLine` returns when every call delivers. Lemmas about those functions state what the loops achieve.

Shared modules:
- `Wrappers`: `Option`, `Result`, `Outcome`.
- `Encoding`: bytes, decimal numerals, `joined(separator:)`, UTF-8 and UTF-16.
- `Syntax`: the argument records that stand in for the Swift syntax tree.
- `Http`: methods, content types, statuses and the status-name table.
- `RouterCommon`: the parts both macros share.

## Model

| member | source | states |
|---|---|---|
| Syntax.LastLabelled | Sources/DestinyMacros/Router.swift:216-258 | the argument a per-label fold keeps is the last one carrying that label: no later argument carries it, and none at all when the result is nil |
| Syntax.LastLabelledSnoc | Sources/DestinyMacros/Router.swift:216-258 | one more argument becomes the winner exactly when it carries the label |
| Encoding.Decimal | Sources/DestinyMacros/Router.swift:48 | the `"\(n)"` rendering is a non-empty digit string with no leading zero unless n is 0 |
| Encoding.DecimalRoundTrip | Sources/DestinyMacros/Router.swift:48 | reading a rendered numeral back gives the number |
| Encoding.ParseUInt8Canonical | Sources/DestinyMacros/Router.swift:245-247 | `UInt8(text)` accepts a literal only when it is the decimal numeral of its value, possibly after leading zeros (with Encoding.ParseUInt8Decimal: exactly the byte numerals are accepted) |
| Encoding.LeadingZeros | Sources/DestinyMacros/Router.swift:245-247 | every digit string is the numeral of its value after some leading zeros |
| Encoding.ParseUInt8Decimal | Sources/DestinyMacros/Router.swift:245-247 | every byte's decimal rendering parses back to that byte |
| Encoding.DecimalsInjective | Sources/DestinyMacros/Router.swift:78 | two number lists with the same renderings are equal |
| Encoding.JoinInjective | Sources/DestinyMacros/Router.swift:48 | numerals joined by a separator that does not start with a digit can be split back into the same list |
| Encoding.Utf8Scalar | Sources/DestinyMacros/Router.swift:75 | one scalar encodes to 1 to 4 bytes, to one byte exactly when it is ASCII, and to a non-zero first byte unless it is NUL |
| Encoding.Utf8Concat | Sources/DestinyMacros/Router.swift:72-75 | the UTF-8 view of a concatenation is the concatenation of the views |
| Encoding.Utf8Ascii | Sources/DestinyMacros/Router.swift:75 | on ASCII text the UTF-8 bytes are the character codes, one per character |
| Http.UppercasedIsUpper | Sources/DestinyMacros/Router.swift:220-222 | the method token has no lower-case ASCII letter left, keeps every other character of the member name, and upper-casing it again changes nothing |
| Http.MethodNamedTokens | Sources/DestinyMacros/Router.swift:219-222 | the member names `.get` and `.post` denote the methods GET and POST |
| Http.ParseStatus | Sources/DestinyMacros/Router.swift:265-322 | every name maps to a status code in 100...599 |
| Http.ParseStatusListed | Sources/DestinyMacros/Router.swift:267-318 | each of the 49 listed names maps to its own status code (the older table, Sources/Macros/Router.swift:216-273, lists the same names) |
| Http.ParseStatusFallback | Sources/DestinyMacros/Router.swift:320 | a name maps to something other than 500 only when it is that status's listed name, so every unlisted name maps to 500 |
| RouterCommon.LastValue | Sources/DestinyMacros/Router.swift:185-187 | the last value given for a header name, absent exactly when no pair names it |
| RouterCommon.HeaderMap | Sources/DestinyMacros/Router.swift:185-187 | assigning the pairs in turn gives a dictionary whose keys are exactly the names given, each mapped to the last value given for it |
| RouterCommon.HeaderMapAssign | Sources/DestinyMacros/Router.swift:186 | one more assignment updates only that name |
| RouterCommon.HeaderMapConcat | Sources/DestinyMacros/Router.swift:180-187 | merging two header lists in turn: the later list wins on shared names |
| RouterCommon.AssignHeaders | Sources/DestinyMacros/Router.swift:185-187 | the header loop leaves the earlier headers merged with the dictionary's, with the dictionary's last values winning |
| RouterCommon.HeaderPairsSnoc | Sources/DestinyMacros/Router.swift:180-187 | an `appliesHeaders:` argument merges its entries over the headers so far; any other argument leaves them |
| RouterCommon.BytesLiteralInjective | Sources/DestinyMacros/Router.swift:47-49 | the rendered `[n,n,...]` literal determines the values: equal literals exactly when the lists are equal |
| RouterCommon.ResponseCallInjective | Sources/DestinyMacros/Router.swift:50-52 | `RouteResponse<type>(arg)` determines its argument: equal calls exactly when the arguments are equal |
| RouterCommon.RouterSourceEmpty | Sources/DestinyMacros/Router.swift:87-88 | the output is the empty dictionary `[:]` exactly when there are no entries |
| DestinyRouter.LastStaticResult | Sources/DestinyMacros/Router.swift:232-250 | the `staticResult:` argument that decides the route's static result is the last one that assigns it; `.string`, `.bytes` and non-calls assign it, other calls do not |
| DestinyRouter.CompactBytes | Sources/DestinyMacros/Router.swift:243-248 | `compactMap` never yields more bytes than there are elements |
| DestinyRouter.CompactBytesAppend | Sources/DestinyMacros/Router.swift:243-248 | the byte list of concatenated elements is the concatenation of their byte lists, so order is kept |
| DestinyRouter.CompactBytesDropsNonBytes | Sources/DestinyMacros/Router.swift:243-248 | elements that are not decimal literals of 0...255 contribute nothing |
| DestinyRouter.CompactBytesRoundTrip | Sources/DestinyMacros/Router.swift:241-248 | `.bytes([...])` written with the decimal literals of a byte list yields exactly that list |
| DestinyRouter.RouteOfSnoc | Sources/DestinyMacros/Router.swift:216-258 | one more argument overrides exactly the field its label names (a `staticResult:` only when it assigns one) and leaves every other field; the dynamic result stays nil |
| DestinyRouter.RouteOfPrefix | Sources/DestinyMacros/Router.swift:216-258 | the same step, stated for each prefix of the argument list |
| DestinyRouter.ParseRoute | Sources/DestinyMacros/Router.swift:209-262 | the parsing loop builds the route in which each field is the last argument's value for its label, or the field's default |
| DestinyRouter.RouteDefaults | Sources/DestinyMacros/Router.swift:210-215 | a route with no arguments is GET, path "", no status, text, "UTF-8", no static result and no dynamic result |
| DestinyRouter.RouteLastArgumentWins | Sources/DestinyMacros/Router.swift:219-236 | a later `path:` or `method:` argument overrides earlier ones, and a non-call `staticResult:` clears the static result |
| DestinyRouter.MiddlewareOfSnoc | Sources/DestinyMacros/Router.swift:155-190 | one more argument replaces the predicate set or status its label names, or merges its headers over the earlier ones, and leaves the rest |
| DestinyRouter.MiddlewareOfPrefix | Sources/DestinyMacros/Router.swift:155-190 | the same step, stated for each prefix of a middleware call's arguments |
| DestinyRouter.ParseMiddlewareCall | Sources/DestinyMacros/Router.swift:150-200 | the loop over one call's arguments builds the middleware record its arguments describe |
| DestinyRouter.ParseMiddleware | Sources/DestinyMacros/Router.swift:146-204 | one record per call element, in order; elements that are not calls are skipped |
| DestinyRouter.MiddlewareDefaultsAndLastHeader | Sources/DestinyMacros/Router.swift:150-154 | predicate sets default to empty, the status override to nil and headers to none; a header name given twice keeps the later value |
| DestinyRouter.ConfigOfSnoc | Sources/DestinyMacros/Router.swift:24-45 | one more macro argument replaces the setting its label names, or appends a route when it is an unlabelled call |
| DestinyRouter.ConfigOfPrefix | Sources/DestinyMacros/Router.swift:24-45 | the same step, stated for each prefix of the macro arguments |
| DestinyRouter.ParseArguments | Sources/DestinyMacros/Router.swift:20-45 | the arguments loop collects the last return type, version and middleware list given, and the routes in declaration order |
| DestinyRouter.ConfigDefaults | Sources/DestinyMacros/Router.swift:20-21 | without `version:` and `returnType:` arguments the table is for "HTTP/1.1" and StaticString |
| DestinyRouter.FixedKey | Sources/DestinyMacros/Router.swift:72-84 | the key is exactly 32 bytes: byte i is the line's byte i when there is one, otherwise 0 |
| DestinyRouter.RenderKey | Sources/DestinyMacros/Router.swift:73-84 | the two loops render the 32 key bytes as comma-separated decimals (for an empty line, 32 copies of ", 0") |
| DestinyRouter.RenderEntry | Sources/DestinyMacros/Router.swift:69-85 | one entry is the `StackString32(...)` key of the request line, a colon and the response rendered for the return type |
| DestinyRouter.EntriesSnoc | Sources/DestinyMacros/Router.swift:69-86 | declaring one more route appends its entry and leaves the earlier routes' entries unchanged, so entries follow declaration order |
| DestinyRouter.RenderEntries | Sources/DestinyMacros/Router.swift:69-86 | the mapping produces those entries in route declaration order |
| DestinyRouter.Expansion | Sources/DestinyMacros/Router.swift:17-89 | the expansion is `Router(staticResponses: [...])` around the entries of the parsed configuration joined by ",", or `[:]` when there are none |
| DestinyRouter.EmptyTableIffNoRoutes | Sources/DestinyMacros/Router.swift:86-88 | the table is the empty dictionary literal exactly when there are no routes |
| DestinyRouter.KeyLiteralIffFixedKey | Sources/DestinyMacros/Router.swift:72-85 | two request lines get the same key literal exactly when their 32 key bytes agree |
| DestinyRouter.KeyTruncation | Sources/DestinyMacros/Router.swift:73-81 | lines agreeing on their first 32 bytes share a key, and lines differing within the first 32 bytes get different keys |
| DestinyRouter.LongPathsCollide | Sources/DestinyMacros/Router.swift:72-81 | two routes whose paths share a 32-character prefix get the same key, whatever follows |
| LegacyRouter.LastStaticResult | Sources/Macros/Router.swift:196-208 | the argument that decides the static result is the last `.string(...)` one; nothing else assigns it |
| LegacyRouter.RouteOfSnoc | Sources/Macros/Router.swift:178-212 | one more argument overrides exactly the field its label names and leaves every other field; only `.string(...)` assigns the static result |
| LegacyRouter.RouteOfPrefix | Sources/Macros/Router.swift:178-212 | the same step, stated for each prefix of the argument list |
| LegacyRouter.ParseRoute | Sources/Macros/Router.swift:173-214 | the parsing loop builds the route in which each field is the last argument's value for its label, or the field's default |
| LegacyRouter.RouteDefaults | Sources/Macros/Router.swift:174-177 | a route with no arguments is GET, path "", status 200, text, "UTF-8", no static result and no dynamic result |
| LegacyRouter.StaticResultOnlyFromString | Sources/Macros/Router.swift:196-208 | a `.bytes(...)` static result, any other call and a non-call all leave the static result unchanged |
| LegacyRouter.MiddlewareOfPrefix | Sources/Macros/Router.swift:143-163 | one more argument replaces the predicate set its label names, or merges its headers over the earlier ones, and leaves the rest |
| LegacyRouter.ParseMiddlewareCall | Sources/Macros/Router.swift:142-164 | the loop over one call's arguments builds the middleware record, which has no status override |
| LegacyRouter.ParseMiddleware | Sources/Macros/Router.swift:138-168 | one record per call element, in order; elements that are not calls are skipped |
| LegacyRouter.MiddlewareDefaultsAndLastHeader | Sources/Macros/Router.swift:142-158 | predicate sets default to empty and headers to none; a header name given twice keeps the later value |
| LegacyRouter.ConfigOfPrefix | Sources/Macros/Router.swift:24-44 | one more macro argument replaces the setting its label names, or appends a route when it is an unlabelled call |
| LegacyRouter.ReturnTypeNamed | Sources/Macros/Router.swift:28-29 | a `returnType:` member name falls to the switch's `default:` exactly when it is none of `uint8Array`, `uint16Array`, `byteBuffer` and `data`, and is then kept as that name |
| LegacyRouter.ParseArguments | Sources/Macros/Router.swift:21-44 | the arguments loop collects the last return type (any member name), version and middleware list given, and the routes in declaration order |
| LegacyRouter.ConfigDefaults | Sources/Macros/Router.swift:21-22 | without `version:` and `returnType:` arguments the table is for "HTTP/1.1" and the `.staticString` return type |
| LegacyRouter.ResponseFallback | Sources/Macros/Router.swift:52-70 | a response renders as the quoted `RouteResponseStaticString("...")` exactly when the return type's name is none of the four the switch lists |
| LegacyRouter.EntriesSnoc | Sources/Macros/Router.swift:71-74 | declaring one more route appends its entry and leaves the earlier routes' entries unchanged, so entries follow declaration order |
| LegacyRouter.RenderEntries | Sources/Macros/Router.swift:71-74 | the mapping produces entries `"METHOD /path":value` in route declaration order |
| LegacyRouter.Expansion | Sources/Macros/Router.swift:20-76 | for any return-type member name, the expansion is `Router(staticResponses: [...])` around the entries of the parsed configuration joined by ",", or `[:]` when there are none |
| LegacyRouter.EmptyTableIffNoRoutes | Sources/Macros/Router.swift:75 | the table is the empty dictionary literal exactly when there are no routes |
| LegacyRouter.KeyLiteralInjective | Sources/Macros/Router.swift:73 | for method tokens without a space, two routes share a key exactly when they have the same method and path; neither the version nor truncation plays a part |
| Sockets.Delivered | Sources/DestinyUtilities/SocketProtocol.swift:96 | a read call never delivers more than asked for or available, and delivers something when the peer has bytes and the call succeeds |
| Sockets.FillAsWrittenAtLeast | Sources/DestinyUtilities/SocketProtocol.swift:94-102 | as written, a successful read has read at least `length` bytes, and the count it returns is the number of bytes consumed |
| Sockets.FillAsWrittenOverruns | Sources/DestinyUtilities/SocketProtocol.swift:95 | as written, with 20 bytes pending, a first call delivering 4 and a 10-byte request, the read returns 14 |
| Sockets.FillStep | Sources/DestinyUtilities/SocketProtocol.swift:94-100 | a call delivering n > 0 bytes uses one oracle entry, and the rest of the run goes on from the n-th byte |
| Sockets.FillConsumesFront | Sources/DestinyUtilities/SocketProtocol.swift:94-101 | a reading loop consumes its input from the front: what stays pending is a suffix of it |
| Sockets.FillExact | Sources/DestinyUtilities/SocketProtocol.swift:91-103 | with each call asking only for what is missing, a successful read returns exactly `length` and consumes exactly the missing bytes; a failure is readFailed, having consumed fewer |
| Sockets.FillCompletes | Sources/DestinyUtilities/SocketProtocol.swift:94-101 | if the peer has sent enough and every call delivers something, the read completes with `length` |
| Sockets.Accepted | Sources/DestinyUtilities/SocketProtocol.swift:120 | a write call never accepts more than offered, and accepts something when it succeeds |
| Sockets.SendExact | Sources/DestinyUtilities/SocketProtocol.swift:118-123 | `sent` never passes `length`; the write succeeds exactly when it has sent `length` bytes, and otherwise fails with writeFailed |
| Sockets.SendCompletes | Sources/DestinyUtilities/SocketProtocol.swift:118-123 | if every call accepts something, the write completes |
| Sockets.Printable | Sources/DestinyUtilities/SocketProtocol.swift:68-70 | the line text is never longer than the bytes consumed |
| Sockets.PrintableNoControl | Sources/DestinyUtilities/SocketProtocol.swift:68-70 | the line text holds only characters above 13 and below 256, so no CR and no LF |
| Sockets.PrintableKeepsText | Sources/DestinyUtilities/SocketProtocol.swift:68-70 | bytes above 13 are all kept, in order, each as its own character |
| Sockets.PrintableSnocControl | Sources/DestinyUtilities/SocketProtocol.swift:68 | a byte of 13 or less adds nothing to the line |
| Sockets.LineEnd | Sources/DestinyUtilities/SocketProtocol.swift:66-67 | the line reader stops at the first LF or NUL, or at the end of the pending input |
| Sockets.ReadLineOutcomeAt | Sources/DestinyUtilities/SocketProtocol.swift:63-73 | a line ended by an LF with no NUL before it is read up to that LF, and the bytes after it stay pending |
| Sockets.ReadLineCrLf | Sources/DestinyUtilities/SocketProtocol.swift:63-73 | a line of text ended by CR LF comes back without either, and what follows the LF stays pending |
| Sockets.ReadLineOk | Sources/DestinyUtilities/SocketProtocol.swift:63-73 | a line that is read ended at the first LF with no NUL before it, is the printable bytes before that LF, and has no control character |
| Sockets.LineReadReady | Sources/DestinyUtilities/SocketProtocol.swift:50-73 | when every one-byte call up to the line's end delivers, `readLine` returns and leaves pending what `ReadLineOutcome` says, using one oracle entry per byte consumed |
| Sockets.LineReadShort | Sources/DestinyUtilities/SocketProtocol.swift:50-73 | when one of those calls delivers nothing, `readLine` fails there with readFailed even though bytes (an LF among them) are still pending, and leaves those bytes pending |
| Sockets.LineReadOk | Sources/DestinyUtilities/SocketProtocol.swift:50-73 | a line `readLine` returns needed every call up to its LF to deliver, and is the line `ReadLineOutcome` reads, with the same bytes left pending |
| Sockets.Word | Sources/DestinyUtilities/SocketProtocol.swift:38 | the first word is the run of characters before the first space |
| Sockets.Tokens | Sources/DestinyUtilities/SocketProtocol.swift:38 | `split(separator: " ")` yields only non-empty tokens without spaces |
| Sockets.RequestTokensOfJoin | Sources/DestinyUtilities/SocketProtocol.swift:36-46 | a line of words joined by single spaces is accepted exactly when it has at least three words, and then yields exactly those words; otherwise invalidStatus |
| Sockets.TokensCons | Sources/DestinyUtilities/SocketProtocol.swift:38 | a word followed by a space or the end is the next token |
| Sockets.TokensOfJoin | Sources/DestinyUtilities/SocketProtocol.swift:38 | splitting words joined by single spaces gives the words back |
| Sockets.RequestLineExtraSpaces | Sources/DestinyUtilities/SocketProtocol.swift:38-45 | a request line with a doubled space still yields exactly its three tokens |
| Sockets.Socket.constructor | Sources/DestinyUtilities/SocketProtocol.swift:11-18 | a new socket is open, has released nothing and has written nothing |
| Sockets.Socket.Close | Sources/DestinyUtilities/SocketProtocol.swift:21-25 | afterwards the socket is closed; the descriptor is released once if it was open, not at all if it was already closed |
| Sockets.Socket.Deinitalize | Sources/DestinyUtilities/SocketProtocol.swift:27-30 | releases the descriptor when the socket is open, and never changes `closed` |
| Sockets.Socket.ReadByte | Sources/DestinyUtilities/SocketProtocol.swift:50-55 | one call uses one oracle entry; a call that delivers nothing fails with readFailed and consumes nothing, even while input is pending; a delivered NUL byte also fails; a byte returned is never 0 |
| Sockets.Socket.ReadLine | Sources/DestinyUtilities/SocketProtocol.swift:63-73 | the loop's result, the input it leaves and the oracle it leaves are those `LineRead` specifies |
| Sockets.Socket.ReadHttpRequest | Sources/DestinyUtilities/SocketProtocol.swift:36-46 | reads one line as `LineRead` specifies, fails as the line read fails, and otherwise returns that line's request tokens |
| Sockets.Socket.ReadInto | Sources/DestinyUtilities/SocketProtocol.swift:91-103 | without a buffer, returns 0 and reads nothing; otherwise the result and what is left pending are those of `Fill`, and the consumed bytes sit at the front of the buffer in order (corrected request size, see ## Findings) |
| Sockets.Socket.FillBuffer | Sources/DestinyUtilities/SocketProtocol.swift:92-102 | the loop on an existing buffer: result and state as `Fill` specifies, consumed bytes copied to the front of the buffer (corrected request size, see ## Findings) |
| Sockets.Socket.ReadLoop | Sources/DestinyUtilities/SocketProtocol.swift:94-102 | the loop's result, pending input and remaining oracle are those of `Fill`, and the buffer holds the consumed bytes in order (corrected request size, see ## Findings) |
| Sockets.Socket.ReadCall | Sources/DestinyUtilities/SocketProtocol.swift:95-100 | one call either ends the run with readFailed or lands its bytes at offset `bytes_read`, leaving earlier bytes untouched (corrected request size, see ## Findings) |
| Sockets.Socket.ReadLength | Sources/DestinyUtilities/SocketProtocol.swift:58-60 | a successful read returns exactly the next `length` pending bytes; a failure is the reading loop's error (corrected request size, see ## Findings) |
| Sockets.Socket.Write | Sources/DestinyUtilities/SocketProtocol.swift:116-124 | on a closed socket, succeeds and sends nothing; otherwise the output grows by exactly the first `length` bytes when it succeeds, and by a prefix of them when it fails with writeFailed |
| Sockets.CloseTwice | Sources/DestinyUtilities/SocketProtocol.swift:21-25 | two `close` calls release the descriptor once at most |
| Sockets.DeinitalizeTwice | Sources/DestinyUtilities/SocketProtocol.swift:27-30 | two `deinitalize` calls on an open socket release the descriptor twice, as `closed` is never set |
| Sockets.CloseThenDeinitalize | Sources/DestinyUtilities/SocketProtocol.swift:21-30 | after `close`, `deinitalize` releases nothing more |
| Sockets.DeinitalizeThenClose | Sources/DestinyUtilities/SocketProtocol.swift:21-30 | `deinitalize` on an open socket does not set `closed`, so a later `close` releases the descriptor a second time |

## Left out

- The Swift syntax tree is reduced to the argument records of module `Syntax`. Casts, the `memberAccess`/`stringLiteral`/`array`/`dictionary` helpers and the force-unwraps become the `...ArgumentOk` preconditions: an argument that would crash the macro is outside the model.
- `Route.response(version:middleware:)` renders a route's HTTP response. It is not part of this model and is the function parameter `respond`. Middleware matching and response framing are left out with it.
- `StackString32`, the runtime `Router`, `RouterReturnType`, `Route.ContentType` and `HTTPRequest.Method` are not part of this model.
  - Content types are identified by member name.
  - Methods are identified by their upper-cased raw value.
  - The newer macro's return types are the five cases its switch names.
- LegacyRouter.ReturnTypeNamed: the older macro's `RouterReturnType` is not part of this model, so every member name is taken as one of its raw values. The crash of `RouterReturnType(rawValue:)!` on a name that is not one is not modelled.
- Http.MethodNamed: upper-cases ASCII letters only. It does not model `HTTPRequest.Method(rawValue:)` rejecting an invalid token, which crashes the macro.
- LegacyRouter.ResponseValue: the `data` case is taken as always compiled in. Foundation availability (`#if canImport(Foundation)`) is not modelled.
- Quotes and backslashes in paths and response text are copied into the generated source unescaped, as the macros do. Whether that text still compiles is not modelled.
- The commented-out `parse_router` blocks and the commented-out socket helpers are dead code and not modelled. `Benchmarks/Benchmarks/Benchmarks/Benchmarks.swift` has no live code.
- Real system calls (`unistd.read`, `unistd.write`, `unistd.close`), `errno` and the `strerror` message each `SocketError` case carries are left out. The descriptor is the oracle fields of `Socket`, and a release is an increment of the ghost counter `releases`.
- Unsafe pointers and pointer arithmetic: the read buffer is a Dafny `array`, and a write takes a byte sequence.
- Sockets.Socket.ReadInto: a buffer shorter than `length` is excluded by its precondition. The Swift code would write past the buffer there.
- Sockets.Socket.ReadInto: implements the corrected loop of "## Findings" (each call asks for `min(bufferLength, length - bytes_read)`); the loop as written is Sockets.FillAsWritten.
- Sockets.Socket.FillBuffer: implements the corrected loop, not the one as written (Sockets.FillAsWritten).
- Sockets.Socket.ReadLoop: implements the corrected loop, not the one as written (Sockets.FillAsWritten).
- Sockets.Socket.ReadCall: asks for the corrected size `min(bufferLength, length - bytes_read)`, not `min(bytes_read + bufferLength, length)`.
- Sockets.Socket.ReadLength: returns exactly `length` bytes because it reads through the corrected loop; as written, `read(length:)` can report more (Sockets.FillAsWrittenOverruns).
- Sockets.Delivered: a POSIX read never reports more than it was asked for, so the model has no over-reporting call. The same holds for writes in `Sockets.Accepted`.
- Reading and writing on a descriptor that `close` or `deinitalize` has released are not distinguished from reading and writing on an open one, except for the `closed` check in `write`.
- Swift `Int` lengths are modelled as `nat`. A negative `length` (which makes both loops return at once) is not modelled.
- `consuming` on `close` (the socket cannot be used afterwards) is not enforced. The methods stay callable after `Close`.
- Concurrency: the code has none, and a socket has a single owner (`~Copyable`).

## Findings

| source | as written | input that shows it | evidently intended | confidence | as-written member | corrected member |
|---|---|---|---|---|---|---|
| Sources/DestinyUtilities/SocketProtocol.swift:95 | each call of `read(into:length:)` asks for `min(bytes_read + bufferLength, length)` bytes at offset `bytes_read` | 20 bytes pending, the first call delivers 4, `length` 10, `bufferLength` 1024: the second call asks for 10 bytes at offset 4, the result is 14, and 4 bytes land past a 10-byte buffer | ask for `min(bufferLength, length - bytes_read)` bytes, so the read returns exactly `length` and stays inside the buffer | not executed | Sockets.FillAsWrittenOverruns | Sockets.FillExact |

The model keeps both versions:
- `Sockets.FillAsWritten` is the loop as written. `Sockets.FillAsWrittenAtLeast` shows it only guarantees at least `length` bytes.
- `Sockets.Fill` is the corrected loop. `Sockets.Socket.ReadInto`, `Sockets.Socket.FillBuffer`, `Sockets.Socket.ReadLoop`, `Sockets.Socket.ReadCall` and `Sockets.Socket.ReadLength` implement it.
