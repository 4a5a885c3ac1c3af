# Snapshot replay, the WebKit pipe transport and WebKit's launch arguments

This project models three parts of the browser automation server:

- **The snapshot server** (`SnapshotServer` in `src/server/snapshot/snapshotServer.ts`).
  - `/snapshot/` serves the viewer page. That page double-buffers two iframes.
  - `/snapshot/service-worker.js` serves the replay service worker. The worker
    intercepts every navigation and every sub-resource fetch of a replayed page.
  - `/snapshot/<pageId>?name=…&time=…` serves a rendered snapshot as JSON.
  - `/resources/<id>` and `/resources/<id>/override/<sha1>` serve recorded
    resource bytes. Their headers are rebuilt: a charset for textual types,
    permissive CORS, the real length and a long-lived cache.
- **The pipe transport** (`PipeTransport` in `src/server/pipeTransport.ts`).
  It speaks the browser's protocol over a pair of pipes. Every outgoing message
  is followed by one NUL character. Incoming chunks are cut at NUL characters
  into messages; an unterminated tail waits for the next chunk.
- **The WebKit browser type** (`src/server/webkit.ts`).
  - `_defaultArgs` builds WebKit's command line and validates the user's arguments.
  - `_amendEnvironment` points WebKit's cookie jar into the user data directory.

The model is written in Dafny, one module per part, plus shared modules:

- `Wrappers`: Option and Result.
- `Strings`: JavaScript's `split`, `indexOf`, `startsWith`, `includes`, and
  ASCII lower-casing.
- `Headers`: header tables keyed case-insensitively, and the `ServerResponse`
  object.
- `SnapshotServer`: `_serveResource`, `_serveSnapshot`, `_serveSnapshotRoot`,
  `_serveServiceWorker`.
- `ServiceWorker`: the worker's `removeHash` and `doFetch`, and its
  per-document resource mappings.
- `SnapshotViewer`: the viewer page's iframe double buffer.
- `PipeTransport`: the NUL framing, as functions, and the `Transport` class.
- `WebKit`: `_defaultArgs` and `_amendEnvironment`.

Code that updates state in place is modelled as classes with `modifies` clauses:

- the response object
- the worker's mapping table
- the two iframes
- the transport's pending text and delivered messages

Methods whose effect is a computation are proved equal to a specification function:
- `DoFetch` is proved equal to `Respond`.
- `Dispatch` is proved equal to `DispatchStep`.
- `ServeResource` is proved equal to `ResolveResource` and `ResourceHeaders`.
- `DefaultArgs` is proved equal to `LaunchArgsAsWritten`.

The properties are then proved about those functions. Methods with a simple effect state it directly:
- `Send` and `OnClose`.
- The viewer's frame updates.

JavaScript truthiness is modelled exactly wherever the code branches on it:

- An empty override digest falls back to the record's digest.
- An empty `name` query falls back to `time`.
- An empty worker `sha1` means no override.
- An empty proxy bypass list adds no flags.
- An empty argument found first by the page check hides a later page argument (see Findings).

Two behaviours of the code are worth stating plainly:

- **Override bytes and caching.** The server always sends the long-lived
  `Cache-Control` (`snapshotServer.ts:240`). The worker replaces it with
  `no-cache` for override resources (`snapshotServer.ts:153-156`).
- **A failed navigation fetch.** A failed fetch or JSON parse during a
  navigation rejects the `respondWith` promise (`snapshotServer.ts:128-129`).
  The model answers `Rejected`.

## Model

| member | source | states |
|---|---|---|
| Strings.IndexOfFirst | src/server/pipeTransport.ts:60 | `indexOf` returns -1 exactly when the character does not occur from the start position on; otherwise it returns the first occurrence |
| Strings.SplitJoin | src/server/snapshot/snapshotServer.ts:186 | `split` at a separator undoes a `join` of separator-free pieces |
| Strings.JoinSplit | src/server/webkit.ts:77 | joining the pieces of a `split` at the separator gives the text back |
| Strings.SplitFree | src/server/snapshot/snapshotServer.ts:198 | no piece of a `split` contains the separator |
| Strings.ToLower | src/server/snapshot/snapshotServer.ts:231-240 | header names are lower-cased letter by letter, keeping the length; only `A`-`Z` change, each to the letter 32 code points above |
| Strings.ToLowerIdempotent | src/server/snapshot/snapshotServer.ts:231-240 | lower-casing a lower-cased header name changes nothing |
| Headers.WithHeader | src/server/snapshot/snapshotServer.ts:231 | `setHeader` adds or replaces the entry of the name's key and leaves every other entry as it was |
| Headers.WithoutHeader | src/server/snapshot/snapshotServer.ts:235 | `removeHeader` deletes exactly the name's key and keeps the other entries' values |
| Headers.SameKeyIgnoringCase | src/server/snapshot/snapshotServer.ts:231-240 | header names that differ only in letter case set and read the same entry |
| Headers.ServerResponse.constructor | src/server/snapshot/snapshotServer.ts:195 | a response starts with status 200, no headers and no body |
| Headers.ServerResponse.SetHeader | src/server/snapshot/snapshotServer.ts:231 | the new header table is the old one with the name set |
| Headers.ServerResponse.RemoveHeader | src/server/snapshot/snapshotServer.ts:235-236 | the new header table is the old one without the name |
| Headers.ServerResponse.End | src/server/snapshot/snapshotServer.ts:241 | the response's body becomes what `end` was given |
| SnapshotServer.CharsetDeclared | src/server/snapshot/snapshotServer.ts:227-230 | a textual content type without a charset gets exactly `; charset=utf-8` appended; a type that already mentions `charset`, or is not textual, is served unchanged; the served type is still textual when the recorded one is, and always starts with it |
| SnapshotServer.WithCharsetIdempotent | src/server/snapshot/snapshotServer.ts:227-230 | a content type that has already been served is served unchanged |
| SnapshotServer.DeclaredCharsetKept | src/server/snapshot/snapshotServer.ts:229 | `text/plain; charset=iso-8859-1` is served unchanged |
| SnapshotServer.BinaryTypeKept | src/server/snapshot/snapshotServer.ts:228 | `image/png` is not textual and is served unchanged |
| SnapshotServer.TrimParts | src/server/snapshot/snapshotServer.ts:199-202 | dropping an empty first piece and an empty last piece removes at most two pieces |
| SnapshotServer.ParseParts | src/server/snapshot/snapshotServer.ts:198-215 | the imperative shift/pop and shape test give the same result as `ParseResourcePath`, whose accepted paths the next two lemmas describe |
| SnapshotServer.TrimJoined | src/server/snapshot/snapshotServer.ts:198-202 | pieces joined by `/`, with or without one `/` in front and one behind, split and trimmed back into exactly those pieces |
| SnapshotServer.ResourcePathAccepted | src/server/snapshot/snapshotServer.ts:198-215 | `resources/<id>` and `resources/<id>/override/<sha1>` are accepted with or without a leading and a trailing `/`, when the ids hold no `/` and the last piece is not empty unless a `/` follows it |
| SnapshotServer.ResourcePathForms | src/server/snapshot/snapshotServer.ts:198-215 | nothing else is accepted: an accepted path is the parsed pieces joined by `/`, with at most one `/` in front and one behind |
| SnapshotServer.ResolveResourceIff | src/server/snapshot/snapshotServer.ts:217-225 | a resource is found exactly when the path parses, the record exists and the effective digest's blob reads; the bytes are those stored under a non-empty override digest, else under the record's `responseSha1` |
| SnapshotServer.ApplyHeadersAt | src/server/snapshot/snapshotServer.ts:232-233 | after copying the recorded headers, each name holds its last recorded value; other names keep theirs |
| SnapshotServer.HeaderKeys | src/server/snapshot/snapshotServer.ts:231-240 | the header names the server writes have the expected lower-case table keys |
| SnapshotServer.ResourceHeadersSpec | src/server/snapshot/snapshotServer.ts:227-240 | a served resource has no `Content-Encoding`, has `Access-Control-Allow-Origin: *`, has `Content-Length` equal to the byte count and has the long-lived cache; every other name holds its last recorded value, else the charset-completed content type for `Content-Type`, else its earlier value |
| SnapshotServer.CopyHeaders | src/server/snapshot/snapshotServer.ts:232-233 | the loop sets every recorded header in order |
| SnapshotServer.WriteResource | src/server/snapshot/snapshotServer.ts:226-241 | status 200, the rebuilt header table and the blob's bytes as body |
| SnapshotServer.ServeResource | src/server/snapshot/snapshotServer.ts:195-246 | handled exactly when the resource resolves; if not handled, the response is untouched; if handled, status 200, the rebuilt headers and the resolved bytes |
| SnapshotServer.NameTakesPrecedence | src/server/snapshot/snapshotServer.ts:189 | a non-empty `name` alone selects the snapshot, whatever `time` says |
| SnapshotServer.MissingSnapshotIsEmpty | src/server/snapshot/snapshotServer.ts:190 | a snapshot storage does not hold is answered as `{html: ''}` without resources |
| SnapshotServer.SnapshotUrlRoute | src/server/snapshot/snapshotServer.ts:186 | `/snapshot/<pageId>?<query>` is looked up under that page id with that query |
| SnapshotServer.SecondQueryMarkCuts | src/server/snapshot/snapshotServer.ts:185 | with a second `?` in the URL, the query ends there and whatever follows is dropped |
| SnapshotServer.ServeSnapshotRoot | src/server/snapshot/snapshotServer.ts:33-37 | status 200, the long-lived cache, `text/html`, the viewer page |
| SnapshotServer.ServeServiceWorker | src/server/snapshot/snapshotServer.ts:170-174 | status 200, the long-lived cache, `application/javascript`, the worker script |
| SnapshotServer.ServeSnapshot | src/server/snapshot/snapshotServer.ts:177-193 | always handled with status 200 and the long-lived cache. A URL ending in `/snapshot/` gets the viewer page with the header table of `_serveSnapshotRoot`. A URL ending in `/snapshot/service-worker.js` gets the worker script with the header table of `_serveServiceWorker`. Any other URL gets the chosen snapshot, or the empty one, as JSON, with the cache and `application/json` headers |
| SnapshotViewer.Frame.constructor | src/server/snapshot/snapshotServer.ts:60 | a new iframe is visible, has loaded nothing and is not loading |
| SnapshotViewer.Viewer.constructor | src/server/snapshot/snapshotServer.ts:60-64 | two distinct frames; the current one is shown and the next one hidden |
| SnapshotViewer.Viewer.OnLoad | src/server/snapshot/snapshotServer.ts:65-73 | the frame that fired has finished loading. The frames trade roles, whichever frame fired. The new current frame is shown and the other hidden. Neither frame's URL changes. The other frame's loading state is kept |
| SnapshotViewer.Viewer.ShowSnapshot | src/server/snapshot/snapshotServer.ts:75-78 | only the hidden frame starts loading the URL; the visible frame is untouched |
| SnapshotViewer.Viewer.OnMessage | src/server/snapshot/snapshotServer.ts:79-81 | the hidden frame starts loading the page's URL followed by the posted snapshot URL |
| SnapshotViewer.LoadTwice | src/server/snapshot/snapshotServer.ts:65-73 | two loads, of either frame, give each frame its original role back |
| SnapshotViewer.ShowThenLoad | src/server/snapshot/snapshotServer.ts:65-78 | a snapshot shown in the hidden frame becomes visible when that frame's own load fires, and the frame then shown is not loading |
| SnapshotViewer.VisibleLoadShowsLoadingFrame | src/server/snapshot/snapshotServer.ts:65-78 | a load of the visible frame also swaps the frames, so a snapshot still loading in the hidden frame is shown while it loads |
| ServiceWorker.RemoveHashSpec | src/server/snapshot/snapshotServer.ts:108-116 | a parsable URL loses exactly its fragment. The result holds no `#`. It is the whole URL, or it is what stands before the first `#`. A URL without a fragment comes back unchanged. An unparsable URL comes back unchanged |
| ServiceWorker.RemoveHashIdempotent | src/server/snapshot/snapshotServer.ts:108-116 | removing the fragment twice is removing it once |
| ServiceWorker.FragmentIgnored | src/server/snapshot/snapshotServer.ts:138 | a URL with any fragment maps to the same key as the URL without it |
| ServiceWorker.FetchUrlIsServed | src/server/snapshot/snapshotServer.ts:143-145 | the URL the worker fetches parses on the server to the same record, and the same override when the entry has one; the server then serves the entry's digest, else the record's |
| ServiceWorker.RespondMappings | src/server/snapshot/snapshotServer.ts:127-135 | only a navigation with a non-empty snapshot changes the mappings, and only by storing its own document's resources |
| ServiceWorker.BootstrapPathsLive | src/server/snapshot/snapshotServer.ts:120-122 | a request goes to the network untouched exactly when its path is the viewer page or the worker script |
| ServiceWorker.SubresourceReply | src/server/snapshot/snapshotServer.ts:137-162 | a sub-resource request gets a 404 exactly when its fragment-less URL is not mapped; otherwise it gets a copy of the fetched response with the same status and body and the same headers, except `no-cache` exactly when the entry has an override digest |
| ServiceWorker.FragmentInsensitiveReply | src/server/snapshot/snapshotServer.ts:138-139 | sub-resource requests that differ only in the fragment get the same reply |
| ServiceWorker.NavigationThenResource | src/server/snapshot/snapshotServer.ts:124-141 | after a navigation serves a snapshot page, a request from that document is answered from the mapping that navigation received |
| ServiceWorker.Worker.constructor | src/server/snapshot/snapshotServer.ts:91 | the mapping table starts empty |
| ServiceWorker.Worker.DoFetch | src/server/snapshot/snapshotServer.ts:118-163 | the reply and the new mapping table are those of the reference function `Respond` |
| PipeTransport.FramesAppend | src/server/pipeTransport.ts:48-53 | framing one more message appends that message and one NUL |
| PipeTransport.SplitFramesFree | src/server/pipeTransport.ts:59-83 | no message cut from a text, and not its unterminated tail, contains a NUL |
| PipeTransport.SplitFramesConcat | src/server/pipeTransport.ts:59-83 | a text is exactly the frames of its complete messages followed by its unterminated tail |
| PipeTransport.ConcatenationLaw | src/server/pipeTransport.ts:59-83 | the messages one dispatch delivers, framed, followed by the new pending text, are the old pending text followed by the chunk |
| PipeTransport.ChunkWithoutTerminator | src/server/pipeTransport.ts:60-64 | a chunk without a NUL delivers nothing and is appended to the pending text |
| PipeTransport.DispatchIsSplit | src/server/pipeTransport.ts:59-83 | with a NUL-free pending text, one dispatch cuts the pending text plus the chunk exactly as the whole text would be cut |
| PipeTransport.NoNulInside | src/server/pipeTransport.ts:59-83 | no delivered message and no pending text contains a NUL |
| PipeTransport.SplitAppend | src/server/pipeTransport.ts:59-83 | cutting a text that continues a NUL-free pending text delivers its messages, then the messages of what follows |
| PipeTransport.SplitFramesOfFrames | src/server/pipeTransport.ts:48-83 | the frames of NUL-free messages, followed by a NUL-free tail, cut back into exactly those messages and that tail |
| PipeTransport.DispatchAllIsSplit | src/server/pipeTransport.ts:59-83 | dispatching chunks one after another cuts the pending text plus all the chunks as one text would be cut, however the text was divided |
| PipeTransport.RoundTrip | src/server/pipeTransport.ts:48-83 | NUL-free messages written by `send` and read back in any division into chunks are delivered exactly, in order, with nothing left pending |
| PipeTransport.Transport.constructor | src/server/pipeTransport.ts:21-46 | nothing pending, not closed, nothing written or delivered |
| PipeTransport.Transport.Send | src/server/pipeTransport.ts:48-53 | once the pipe is closed, `send` fails with `Pipe has been closed` and writes nothing; otherwise it writes the message and one NUL, and the pipe holds the frames of everything sent |
| PipeTransport.Transport.Dispatch | src/server/pipeTransport.ts:59-83 | the messages delivered and the new pending text are those of the reference `DispatchStep`; the pending text stays NUL-free |
| PipeTransport.Transport.DeliverFrom | src/server/pipeTransport.ts:71-82 | the loop delivers every further NUL-terminated message in order and keeps the unterminated tail as pending |
| PipeTransport.Transport.OnClose | src/server/pipeTransport.ts:35-37 | the read pipe's `close` event marks the transport closed |
| WebKit.Find | src/server/webkit.ts:57 | `find` returns a value exactly when some argument matches, and that value is a matching argument |
| WebKit.FindFirst | src/server/webkit.ts:57-61 | the value `find` returns is the first matching argument: nothing before its position matches |
| WebKit.UserDataDirCheckExact | src/server/webkit.ts:57-59 | the `--user-data-dir=` check fires exactly when such an argument is present |
| WebKit.EmptyArgumentHidesPage | src/server/webkit.ts:60-61 | as written, `["", "http://example.com"]` passes the page check, although it names a page |
| WebKit.ChecksAgreeWithoutEmptyArguments | src/server/webkit.ts:57-61 | without empty arguments, the checks as written and as intended give the same result |
| WebKit.CheckAsWrittenIsWeaker | src/server/webkit.ts:57-61 | whatever the check as written rejects, the intended check rejects with the same error |
| WebKit.IgnoreHostFlags | src/server/webkit.ts:77 | one `--ignore-host=<host>` flag per host, in order |
| WebKit.ProxyServerFlag | src/server/webkit.ts:69-83 | no proxy, or an unknown platform, gives no proxy flags; otherwise the first flag names the server (`--proxy=` on macOS and Linux, `--curl-proxy=` on Windows), and more flags follow exactly when the bypass list is non-empty |
| WebKit.ProxyBypassFlags | src/server/webkit.ts:72-81 | macOS and Windows pass the bypass list whole; Linux passes one `--ignore-host=` flag per host, and the hosts joined by commas give the list back |
| WebKit.DefaultArgs | src/server/webkit.ts:53-88 | the command line, or the error thrown, is that of `LaunchArgsAsWritten`: the two checks by truthiness of `find`, then the command line `CommandLine` |
| WebKit.LaunchArgsAgree | src/server/webkit.ts:57-61 | the launch as written and the intended `LaunchArgs` agree whenever no argument is empty; whatever the code refuses, the intended check refuses with the same error |
| WebKit.EmptyArgumentOpensPage | src/server/webkit.ts:60-84 | as written, `["", "http://example.com"]` launches with `["--inspector-pipe", "--no-startup-window", "", "http://example.com"]`; the intended check refuses it with the page error |
| WebKit.LaunchErrors | src/server/webkit.ts:57-61 | with the intended check (`LaunchArgs`), launching fails with the `--user-data-dir` error exactly when such an argument is given. It fails with the page error exactly when there is no such argument but some argument names a page. No other error occurs |
| WebKit.LaunchFlagsOrder | src/server/webkit.ts:62-68 | the command line the code returns starts with `--inspector-pipe`. `--headless` comes next exactly for a headless launch. The user data directory follows for a persistent context, else `--no-startup-window` |
| WebKit.UserArgsPassedInOrder | src/server/webkit.ts:84 | in the command line the code returns, the user's arguments follow the generated flags unchanged and in order, and the line ends there, except that a persistent launch appends `about:blank` as its last argument |
| WebKit.GeneratedFlagsAreOptions | src/server/webkit.ts:62-83 | every generated flag starts with `--` |
| WebKit.ProxyFlagIsOption | src/server/webkit.ts:69-83 | every proxy flag starts with `--` |
| WebKit.OnlyBlankPageOpened | src/server/webkit.ts:60-86 | with the intended check (`LaunchArgs`), the only page WebKit is told to open is `about:blank`, and only for a persistent context; every other argument is empty or an option, and the line ends with `about:blank` exactly for a persistent context. The code agrees whenever no argument is empty (`LaunchArgsAgree`) |
| WebKit.AmendEnvironment | src/server/webkit.ts:37-39 | the environment gains `CURL_COOKIE_JAR_PATH`, set to `cookiejar.db` inside the user data directory; every other variable is kept |
| WebKit.AmendEnvironmentIdempotent | src/server/webkit.ts:37-39 | amending twice is amending once |

## Left out

- HTTP routing (`routePrefix`) and the `http` server objects are not modelled. A request is its URL string; a response is the `ServerResponse` class.
- Node's header validation is not modelled: names are treated as tokens, and invalid names or values, which would throw, are not checked.
- `querystring.parse` is a function parameter. A repeated `name` or `time` key, which gives an array, is not modelled.
- `snapshot.render()` and `JSON.stringify` are not modelled. A snapshot is stored already rendered. The served JSON is the `SnapshotJson` value, not its text.
- The snapshot storage is four finite maps; a missing key stands for `undefined`. `resourceById` throwing is not modelled: the code calls it outside the `try`, so such a throw would escape the handler.
- The static texts of the viewer page and the worker script are the `ViewerPage` and `ServiceWorkerScript` values.
- The service worker's `install` and `activate` listeners and `clients.claim()` are not modelled.
- `self.clients.get` is not modelled: it becomes the request's `clientUrl`, and a missing client rejects.
- `fetch` and the JSON parse of its response are function parameters; a rejection is `None`.
- ServiceWorker.FetchUrlIsServed: assumes `fetch` hands the path to the server unchanged; percent-encoding, and a `#` or `?` inside an id, are not modelled.
- Response bodies and `statusText` are carried over opaquely.
- ServiceWorker.RemoveHash: WHATWG URL parsing is a predicate parameter. A URL that parses is assumed already serialized, so its first `#` starts the fragment. Normalization by the URL parser (case, default ports, percent-encoding) is not modelled.
- The viewer page registering the worker and `showPromise` (waiting for the worker to take control) are not modelled. `ShowSnapshot` sets the URL at once. DOM styling is reduced to a visibility flag. A frame's `load` event is a call of `OnLoad` naming the frame that fired; when a browser fires it is not modelled.
- `_waitForNextTask` and the `onmessage` callback are not modelled. The transport's `delivered` list records the messages in the order they are scheduled. `JSON.parse` of each message, `JSON.stringify` in `send`, and the `onclose` callback are not modelled.
- The transport's `error` event listeners, and the removal of listeners on close, are not modelled.
- `close()` is not modelled: it always throws `unimplemented`.
- `Buffer` decoding is not modelled: chunks are character strings. A multi-byte UTF-8 character split across two chunks, which the code would decode wrongly, is out of reach of the model.
- WebKit.DefaultArgs: the `devtools` warning printed to the console is not modelled. `process.platform` is a parameter.
- WebKit.AmendEnvironment: `path.join` is a function parameter.
- `_connectToTransport` (`WKBrowser.connect`) and `_attemptToGracefullyCloseBrowser` are not modelled. Both act on a live browser connection.
- `_amendArguments` and `_rewriteStartupError` are not modelled: they return their argument unchanged.

## Findings

| source | as written | input that shows it | evidently intended | confidence | as-written member | corrected member |
|---|---|---|---|---|---|---|
| src/server/webkit.ts:60-61 | the page check throws only when `args.find(arg => !arg.startsWith('-'))` returns a truthy value, and an empty argument is found first but is false | `args = ["", "http://example.com"]` passes, and WebKit is told to open `http://example.com` | reject whenever any argument names a page, meaning it is non-empty and does not start with `-` | not executed | WebKit.EmptyArgumentOpensPage | WebKit.LaunchErrors |
