# HTTP/2 push server: decision core

A model of `index.js`, a small Node.js HTTP/2 server. For the root page
`/`, the server answers with an HTML document and pushes the stylesheets
and scripts that page refers to. It writes the head of the document at
once. After a simulated render delay it pushes one more script and
finishes the body. For every other path it serves a static file from the
server root. Each stream error goes through one classifier. A refused push
or an already closed stream is left alone. A missing file gets `404`, and
any other error gets `500`.

The model is written in Dafny in four modules:

- `Assets` (`assets.dfy`) holds the pure functions.
  - `getContentHeader` is `GetContentHeader`. Its `split('.').pop()` is
    modelled by `Split` and `Extension`, and its two-entry extension table
    by `MimeTypes`.
  - `getFileDescription` is `GetFileDescription`.
- `Transport` (`transport.dfy`) holds the HTTP/2 stream `Stream`.
  - It is a class with the fields `closed`, `rstCode` and `trace`. `trace`
    is the sequence of the calls the server made on the stream, with the arguments that the server decides.
  - Its primitives are `respond`, `write`, `end`, `on('error')`,
    `respondWithFile` and `pushStream`, plus `Close` and `Delay`. `Close`
    is how the transport resets a stream. `Delay` is the `await` point
    where the stream may be reset.
- `Traces` (`traces.dfy`) holds counting and ordering predicates over
  traces.
- `Server` (`server.dfy`) holds the stream-level code.
  - The operations are `respondToStreamError`, `pushAsset`, `appRender`
    and the `'stream'` handler.
  - Each is an imperative method that appends to a stream's trace. Its
    postcondition ties the new trace to a specification function of the
    old state:
    - `ReactionActions(Classify(...))`
    - `PushedStreamActions`
    - `RenderActions`
    - `RootActions`
    - `StaticActions`
  - The `...Protocol`, `Root...` and `Reaction...` lemmas state what those
    traces promise: counts, order, and nothing after `end`.

Whatever the transport or the peer decides is a parameter:

- whether a push stream is created (`PushOutcome`);
- how a file delivery ends (`Delivery`), and whether the stream is reset
  on the way;
- whether the stream is reset during the render delay (`RootEnvironment`).

The library calls `mime.lookup` and `path.resolve(path.join(...))` are
uninterpreted functions in a `Platform` value.

## Model

| member | source | states |
|---|---|---|
| Assets.Split | index.js:75 | `split` on one character always yields at least one piece |
| Assets.SplitPieces | index.js:75 | no piece of a split contains the separator |
| Assets.JoinSplit | index.js:75 | joining the pieces of a split with the separator gives back the original string |
| Assets.SplitJoin | index.js:75 | splitting a join of separator-free pieces gives back the pieces |
| Assets.SplitAppend | index.js:75 | splitting `s + sep + t` gives the pieces of `s` followed by the pieces of `t` |
| Assets.ExtensionSpec | index.js:75 | the popped piece has no dot, is a suffix of the name, and is either the whole name or preceded by a dot |
| Assets.ExtensionUnique | index.js:75 | those three facts pin the popped piece down uniquely |
| Assets.ExtensionMatches | index.js:75 | the extension equals a dot-free `ext` exactly when the name is `ext` or ends in `.ext` |
| Assets.ContentTypeBySuffix | index.js:74-84 | `text/css` if and only if the name is `css` or ends in `.css`; `application/javascript` if and only if it is `js` or ends in `.js`; undefined for every other name |
| Assets.DescriptionOfStem | index.js:86-92 | the descriptor of `stem.ext`, for an extension in the table, has `/stem.ext`, `./stem.ext` and that extension's content type |
| Assets.FileDescriptionParts | index.js:86-92 | the public path is `/` + name and the storage path `./` + name; distinct names get distinct paths; the header follows the name's extension |
| Assets.PublicPathExtension | index.js:74-92 | for every name with a dot, the public path `/name` selects the same header as the name |
| Traces.PushRequestsProtocol | index.js:136-139 | a run of pushes for a list of assets has one push request per asset, in order, and no other action |
| Transport.Stream.PushStream | index.js:42-47 | the parent records only the push request; the callback gets no stream on error, otherwise a fresh open stream with an empty trace |
| Transport.Stream.Delay | index.js:96-98 | during the wait the stream stays as it was unless the transport resets it, and then it records the reset code |
| Server.Classify | index.js:58-69 | ignore if and only if the error is a refused stream or the stream is closed; not found if and only if otherwise `ENOENT`; server error if and only if otherwise not `ENOENT` |
| Server.ReactionCompletes | index.js:61-71 | the reaction is nothing if and only if the stream is refused or closed; otherwise exactly one `respond` with 404 (for `ENOENT`) or 500 (for anything else), no content type, then one `end` with no body, and nothing else |
| Server.RespondToStreamError | index.js:55-72 | appends exactly the classifier's reaction to the failed stream's trace, whatever the descriptor |
| Server.Deliver | index.js:50-51 | a failed delivery first applies the transport's reset, then runs the error handler on the same stream; a delivered file adds nothing |
| Server.PushAsset | index.js:39-53 | the parent gets only the push request for the public path; no push stream exactly when creation fails; a created push stream gets its handler, the file and the delivery reaction, and ends closed, with the reset code, exactly when the transport reset it during delivery |
| Server.PushedStreamProtocol | index.js:42-51 | on a pushed stream the error handler is attached before the single `respondWithFile` with `statCheck`; no push or write follows; one `respond` (404 or 500) exactly when delivery fails without a reset; nothing after `end` |
| Server.AppRender | index.js:94-117 | after the delay a closed stream gets nothing; an open one gets the script push, one write and one `end`; `closed` changes only by a reset during the delay |
| Server.RenderProtocol | index.js:100-116 | nothing exactly when closed; otherwise one push of the script, then one write, then one `end` as the last action |
| Server.HandleStream | index.js:123-174 | on `/` the trace grows by the root actions; on any other path by the static actions; `closed` and `rstCode` change only through the reset the environment supplies |
| Server.AssetDescriptors | index.js:25-29 | the five descriptors built at start-up are `getFileDescription` of the five names: stylesheets `text/css`, scripts `application/javascript` |
| Server.AssetPaths | index.js:25-29 | the early pushes are announced as `/style.css`, `/style1.css`, `/script1.js`, `/script2.js`, and the late one as `/script.js` |
| Server.EarlyPushes | index.js:136-139 | the four early pushes, in source order |
| Server.RootHeadOrder | index.js:130-152 | the synchronous part is the 200 `text/html` respond, then the four pushes in order, then the head write |
| Server.RootHeadCounts | index.js:130-152 | the synchronous part has one respond, one write, four pushes of the early assets, no `end` and no file response |
| Server.RootCounts | index.js:130-156 | the root document has one respond and no file response; it pushes the early assets plus the script only if still open; it writes twice and ends once when open, and otherwise writes once and never ends |
| Server.RootPushedPaths | index.js:136-139 | the pushed paths are the four early assets, followed by `/script.js` only if the stream is open after the delay |
| Server.RootOrder | index.js:130-156 | the respond comes first; each early push is after it and before the head write; when open, the script push follows the head write and the `end` is last |
| Server.RootEnd | index.js:110-156 | nothing follows the `end` of the root document, and in particular nothing is written after it |
| Server.StaticProtocol | index.js:161-172 | one `respondWithFile` of the resolved path with the looked-up type, on the request stream; no push; no write; a delivered file or a closed stream adds nothing; an `ENOENT` failure on an open stream adds 404 and `end` |

## Left out

- TLS options, `createSecureServer`, `listen` and the `timeout` handler (index.js:18-23, 36, 119-121, 176): configuration and I/O, not decisions.
- All `console.log` output, including the `file.path + '\n'` text in `respondToStreamError`: it has no effect on streams.
- `statCheck` and the `last-modified` header it adds (index.js:32-34): only the option's presence is recorded, because the model has no clock or file metadata.
- `mime.lookup` and `path.resolve(path.join(...))` are not modelled; they are uninterpreted `Platform` functions. A `false` from `mime.lookup` is `None`.
- The static branch passes the request path to the file system without checking that it stays inside the server root. The model does the same and adds no check.
- Timing and concurrency: the one-second delay is only a point where the stream may be reset. Error events of pushed streams, which may run during that delay, touch only the pushed streams.
- Error events are handled directly after `respondWithFile`. The model does not interleave them with other events.
- The bytes delivered by `respondWithFile`, and the literal HTML text: the written markup is the three tokens `HeadFragment`, `ScriptFragment` and `BodyFragment`.
- The extension table is only its two own keys `css` and `js`. Keys a JavaScript object inherits from `Object.prototype`, such as `constructor`, are not modelled.
- Exceptions that `respond`, `write` or `pushStream` throw synchronously on a destroyed stream, or when the peer disabled push, are not modelled. Neither is the `catch` around `appRender` that would log them (index.js:154-159).
- The second argument of `pushStream`, `{ parent: stream.id }` (index.js:42), is not recorded in `PushRequested`: stream priority and dependency are transport matters.
- The request `:method` header is only logged. The `:path` header is taken to be present.
