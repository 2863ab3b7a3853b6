/**
 * The decision core of the push server: the stream error classifier, the
 * asset pusher, the delayed second half of the root document, and the
 * stream handler that routes between the root document and static files.
 * Each operation is a method on the abstract stream, proved to append to its
 * trace exactly the actions a specification function describes; the lemmas
 * below state what those traces promise.
 */
module Server {
  import opened Wrappers
  import opened Assets
  import opened Transport
  import opened Traces

  const ServerRoot: string := "./"
  const RootPath: string := "/"

  const StatusOk: nat := 200
  const StatusNotFound: nat := 404
  const StatusInternalServerError: nat := 500
  const TextHtml: string := "text/html"

  /** The error code Node gives a stream that the peer reset. */
  const ErrHttp2StreamError: string := "ERR_HTTP2_STREAM_ERROR"
  /** The error code of a missing file. */
  const Enoent: string := "ENOENT"
  /** REFUSED_STREAM, error code 0x7 of section 7 of RFC 7540. */
  const RefusedStream: nat := 0x7

  /** The names of the five assets the root document refers to. */
  const StyleName: string := "style.css"
  const Style1Name: string := "style1.css"
  const ScriptName: string := "script.js"
  const Script1Name: string := "script1.js"
  const Script2Name: string := "script2.js"

  /**
   * Their descriptors, as `getFileDescription` builds them at start-up
   * (proved in `AssetDescriptors`).
   */
  const CssFile: FileDescription := FileDescription("/" + StyleName, "./" + StyleName, Headers(Some(TextCss)))
  const CssFile1: FileDescription := FileDescription("/" + Style1Name, "./" + Style1Name, Headers(Some(TextCss)))
  const JsFile: FileDescription := FileDescription("/" + ScriptName, "./" + ScriptName, Headers(Some(ApplicationJavascript)))
  const JsFile1: FileDescription := FileDescription("/" + Script1Name, "./" + Script1Name, Headers(Some(ApplicationJavascript)))
  const JsFile2: FileDescription := FileDescription("/" + Script2Name, "./" + Script2Name, Headers(Some(ApplicationJavascript)))

  /** The assets pushed before the head is written, in the order they are pushed. */
  const EarlyAssets: seq<FileDescription> := [CssFile, CssFile1, JsFile1, JsFile2]

  /**
   * Library calls whose results the core only passes on: `mime.lookup`, and
   * `path.resolve(path.join(root, name))`.
   */
  datatype Platform = Platform(mimeLookup: string -> Option<string>, resolve: (string, string) -> string)

  /**
   * How a `respondWithFile` ends: the file is delivered, or an error is
   * reported, after the transport has closed the stream with code `reset`
   * if that is `Some`.
   */
  datatype Delivery = Delivered | Failed(err: StreamError, reset: Option<nat>)

  /** How a `pushStream` call ends: no push stream, or one whose file delivery ends as given. */
  datatype PushOutcome = CreationFailed(err: StreamError) | Created(delivery: Delivery)

  /** What the transport decides during one root-document request. */
  datatype RootEnvironment = RootEnvironment(
    style: PushOutcome, style1: PushOutcome, script1: PushOutcome, script2: PushOutcome,
    script: PushOutcome,
    resetDuringRender: Option<nat>)

  // ---------------------------------------------------------------------------
  // Stream error classifier (respondToStreamError)
  // ---------------------------------------------------------------------------

  datatype Reaction = Ignore | RespondNotFound | RespondServerError

  /** A push the peer refused: a stream error on a stream reset with REFUSED_STREAM. */
  predicate IsRefusedStream(err: StreamError, rstCode: Option<nat>)
  {
    err.code == ErrHttp2StreamError && rstCode == Some(RefusedStream)
  }

  /** The rules of `respondToStreamError`, in priority order. */
  function Classify(err: StreamError, rstCode: Option<nat>, closed: bool): (r: Reaction)
    ensures r == Ignore <==> IsRefusedStream(err, rstCode) || closed
    ensures r == RespondNotFound <==> !IsRefusedStream(err, rstCode) && !closed && err.code == Enoent
    ensures r == RespondServerError <==> !IsRefusedStream(err, rstCode) && !closed && err.code != Enoent
  {
    if IsRefusedStream(err, rstCode) || closed then Ignore
    else if err.code == Enoent then RespondNotFound
    else RespondServerError
  }

  /** The actions each reaction performs on the failed stream. */
  function ReactionActions(r: Reaction): seq<Action>
  {
    match r
    case Ignore => []
    case RespondNotFound => [Responded(StatusNotFound, None), Ended(None)]
    case RespondServerError => [Responded(StatusInternalServerError, None), Ended(None)]
  }

  /**
   * A reaction either leaves the stream alone or answers it completely: one
   * `respond` with a 404 (missing file) or a 500 (anything else) and then one
   * `end`, with no body.
   */
  lemma ReactionCompletes(err: StreamError, rstCode: Option<nat>, closed: bool)
    ensures var t := ReactionActions(Classify(err, rstCode, closed));
      (t == [] <==> IsRefusedStream(err, rstCode) || closed) &&
      Count(t, RespondKind) == Count(t, EndKind) <= 1 &&
      Count(t, WriteKind) == 0 && Count(t, PushKind) == 0 && Count(t, FileKind) == 0 &&
      Count(t, AttachKind) == 0 &&
      (t != [] ==> |t| == 2 && t[0].Responded? && t[0].contentType == None && t[1] == Ended(None) &&
                   (t[0].status == StatusNotFound <==> err.code == Enoent) &&
                   (t[0].status == StatusInternalServerError <==> err.code != Enoent))
  {
    var t := ReactionActions(Classify(err, rstCode, closed));
    if t != [] {
      assert t == [t[0]] + [t[1]];
      CountAppend([t[0]], [t[1]], RespondKind);
      CountAppend([t[0]], [t[1]], EndKind);
      CountAppend([t[0]], [t[1]], WriteKind);
      CountAppend([t[0]], [t[1]], PushKind);
      CountAppend([t[0]], [t[1]], FileKind);
      CountAppend([t[0]], [t[1]], AttachKind);
    }
  }

  /**
   * `respondToStreamError(err, stream, file)`. The descriptor only feeds the
   * log line, so the actions do not depend on it.
   */
  method RespondToStreamError(err: StreamError, stream: Stream, file: Option<FileDescription>)
    modifies stream`trace
    ensures stream.trace == old(stream.trace) + ReactionActions(Classify(err, stream.rstCode, stream.closed))
  {
    var isRefusedStream := err.code == ErrHttp2StreamError && stream.rstCode == Some(RefusedStream);
    if isRefusedStream || stream.closed {
      return;
    }
    if err.code == Enoent {
      stream.Respond(StatusNotFound, None);
    } else {
      stream.Respond(StatusInternalServerError, None);
    }
    stream.End(None);
  }

  /**
   * The actions the error handler performs when a delivery on a stream in
   * state (`closed`, `rstCode`) ends as `d`.
   */
  function DeliveryActions(d: Delivery, closed: bool, rstCode: Option<nat>): seq<Action>
  {
    match d
    case Delivered => []
    case Failed(err, reset) =>
      var closed' := closed || reset.Some?;
      var rstCode' := if closed || reset.None? then rstCode else reset;
      ReactionActions(Classify(err, rstCode', closed'))
  }

  /** Delivers the outcome `d` of a `respondWithFile`, running the error handler on failure. */
  method Deliver(stream: Stream, d: Delivery, file: Option<FileDescription>)
    modifies stream
    ensures stream.trace == old(stream.trace) + DeliveryActions(d, old(stream.closed), old(stream.rstCode))
    ensures stream.closed == (old(stream.closed) || (d.Failed? && d.reset.Some?))
    ensures stream.rstCode == if old(stream.closed) || d.Delivered? || d.reset.None? then old(stream.rstCode) else d.reset
  {
    if d.Failed? {
      if d.reset.Some? {
        stream.Close(d.reset.value);
      }
      RespondToStreamError(d.err, stream, file);
    }
  }

  // ---------------------------------------------------------------------------
  // Asset pusher (pushAsset)
  // ---------------------------------------------------------------------------

  /** What `pushAsset` does on a push stream it was given, whose delivery ends as `d`. */
  function PushedStreamActions(file: FileDescription, platform: Platform, d: Delivery): seq<Action>
  {
    [ErrorHandlerAttached,
     FileResponded(platform.resolve(ServerRoot, file.filePath), file.headers, FileOptions(true, false))]
    + DeliveryActions(d, false, None)
  }

  /**
   * `pushAsset(stream, file)`. The parent only receives the push request; the
   * pushed stream, if the transport creates one, gets its error handler and
   * then the file, and a failed delivery is classified on the pushed stream.
   */
  method PushAsset(stream: Stream, file: FileDescription, platform: Platform, outcome: PushOutcome)
    returns (pushed: Stream?)
    modifies stream`trace
    ensures stream.trace == old(stream.trace) + [PushRequested(file.path)]
    ensures pushed == null <==> outcome.CreationFailed?
    ensures pushed != null ==> fresh(pushed) && pushed.trace == PushedStreamActions(file, platform, outcome.delivery)
    ensures pushed != null ==>
      var d := outcome.delivery;
      pushed.closed == (d.Failed? && d.reset.Some?) &&
      pushed.rstCode == (if d.Failed? then d.reset else None)
  {
    var filePath := platform.resolve(ServerRoot, file.filePath);
    var failure := if outcome.CreationFailed? then Some(outcome.err) else None;
    pushed := stream.PushStream(file.path, failure);
    if pushed == null {
      return;
    }
    pushed.OnError();
    pushed.RespondWithFile(filePath, file.headers, FileOptions(true, false));
    Deliver(pushed, outcome.delivery, Some(file));
  }

  /**
   * On a pushed stream the error handler is attached before the file is
   * sent; the file is sent once; nothing is pushed from it; and it ends with
   * exactly one of: the file delivered, a 404, a 500, or nothing more when
   * the peer refused or closed it.
   */
  lemma PushedStreamProtocol(file: FileDescription, platform: Platform, d: Delivery)
    ensures var t := PushedStreamActions(file, platform, d);
      t[0] == ErrorHandlerAttached &&
      t[1] == FileResponded(platform.resolve(ServerRoot, file.filePath), file.headers, FileOptions(true, false)) &&
      Precedes(t, t[0], t[1]) &&
      Count(t, AttachKind) == 1 && Count(t, FileKind) == 1 && Count(t, PushKind) == 0 &&
      Count(t, WriteKind) == 0 && Count(t, RespondKind) == Count(t, EndKind) <= 1 &&
      NothingAfterEnd(t) &&
      (Count(t, RespondKind) == 1 <==> d.Failed? && d.reset.None?) &&
      (d.Failed? && d.reset.None? ==> t[2] == Responded(if d.err.code == Enoent then StatusNotFound else StatusInternalServerError, None))
  {
    var attach := ErrorHandlerAttached;
    var respond := FileResponded(platform.resolve(ServerRoot, file.filePath), file.headers, FileOptions(true, false));
    var rest := DeliveryActions(d, false, None);
    assert PushedStreamActions(file, platform, d) == [attach] + ([respond] + rest);
    forall k: Kind
      ensures Count([attach] + ([respond] + rest), k) ==
        (if k == AttachKind then 1 else 0) + (if k == FileKind then 1 else 0) + Count(rest, k)
    {
      CountCons(attach, [respond] + rest, k);
      CountCons(respond, rest, k);
    }
    if d.Failed? {
      var closed', rstCode' := d.reset.Some?, if d.reset.None? then None else d.reset;
      ReactionCompletes(d.err, rstCode', closed');
      assert d.reset.None? ==> !IsRefusedStream(d.err, rstCode');
    }
    NothingAfterEndAppend([attach, respond], rest);
  }

  // ---------------------------------------------------------------------------
  // Delayed render (appRender)
  // ---------------------------------------------------------------------------

  /** What `appRender` does after its delay: everything when the stream is open, nothing otherwise. */
  function RenderActions(open: bool, jsFile: FileDescription): seq<Action>
  {
    if open then [PushRequested(jsFile.path), Wrote(ScriptFragment), Ended(Some(BodyFragment))]
    else []
  }

  /**
   * `appRender(stream, jsFile)`: wait, then, only if the stream is still
   * open, push the script, write the rest of the head and end with the body.
   */
  method AppRender(stream: Stream, jsFile: FileDescription, platform: Platform,
                   resetDuringDelay: Option<nat>, scriptPush: PushOutcome)
    modifies stream
    ensures stream.closed == (old(stream.closed) || resetDuringDelay.Some?)
    ensures stream.rstCode == if old(stream.closed) || resetDuringDelay.None? then old(stream.rstCode) else resetDuringDelay
    ensures stream.trace == old(stream.trace) + RenderActions(!stream.closed, jsFile)
  {
    stream.Delay(resetDuringDelay);
    if !stream.closed {
      var pushed := PushAsset(stream, jsFile, platform, scriptPush);
      stream.Write(ScriptFragment);
      stream.End(Some(BodyFragment));
    }
  }

  /**
   * After the delay, a closed stream gets nothing; an open one gets one push,
   * then one write, then one end, and nothing after the end.
   */
  lemma RenderProtocol(open: bool, jsFile: FileDescription)
    ensures var t := RenderActions(open, jsFile);
      (!open <==> t == []) &&
      Count(t, EndKind) == Count(t, WriteKind) == Count(t, PushKind) == (if open then 1 else 0) &&
      Count(t, RespondKind) == 0 && Count(t, FileKind) == 0 &&
      PushedPaths(t) == (if open then [jsFile.path] else []) &&
      NothingAfterEnd(t) &&
      (open ==> Precedes(t, PushRequested(jsFile.path), Wrote(ScriptFragment)) &&
                Precedes(t, Wrote(ScriptFragment), Ended(Some(BodyFragment))) &&
                t[|t| - 1] == Ended(Some(BodyFragment)))
  {
    var t := RenderActions(open, jsFile);
    if open {
      var a, b, c := t[0], t[1], t[2];
      assert t == [a] + ([b] + [c]);
      forall k: Kind ensures Count(t, k) == Count([a], k) + Count([b], k) + Count([c], k) {
        CountAppend([a], [b] + [c], k);
        CountAppend([b], [c], k);
      }
      PushedPathsAppend([a], [b] + [c]);
      PushedPathsAppend([b], [c]);
      assert t[0] == PushRequested(jsFile.path) && t[1] == Wrote(ScriptFragment);
    }
  }

  // ---------------------------------------------------------------------------
  // The stream handler (server.on('stream', ...))
  // ---------------------------------------------------------------------------

  /** The actions performed synchronously on the root document, before the delayed render. */
  function RootHeadActions(): seq<Action>
  {
    [Responded(StatusOk, Some(TextHtml))] + PushRequests(EarlyAssets) + [Wrote(HeadFragment)]
  }

  /** All actions on the root document, given whether the stream is open when the delay ends. */
  function RootActions(open: bool): seq<Action>
  {
    RootHeadActions() + RenderActions(open, JsFile)
  }

  /** The actions on a stream for any other path, in state (`closed`, `rstCode`). */
  function StaticActions(path: string, platform: Platform, d: Delivery, closed: bool, rstCode: Option<nat>): seq<Action>
  {
    [FileResponded(platform.resolve(ServerRoot, path), Headers(platform.mimeLookup(path)), FileOptions(false, true))]
    + DeliveryActions(d, closed, rstCode)
  }

  /**
   * The handler for a new stream with request path `path`. The root path
   * answers with the HTML document and pushes the assets; any other path is
   * served from the server root as a file, without a check that it stays
   * inside the root.
   */
  method HandleStream(stream: Stream, path: string, platform: Platform, root: RootEnvironment, delivery: Delivery)
    modifies stream
    ensures path == RootPath ==>
      stream.trace == old(stream.trace) + RootActions(!old(stream.closed) && root.resetDuringRender.None?)
    ensures path != RootPath ==>
      stream.trace == old(stream.trace) + StaticActions(path, platform, delivery, old(stream.closed), old(stream.rstCode))
    ensures var reset := if path == RootPath then root.resetDuringRender
                         else if delivery.Failed? then delivery.reset else None;
      stream.closed == (old(stream.closed) || reset.Some?) &&
      stream.rstCode == if old(stream.closed) || reset.None? then old(stream.rstCode) else reset
  {
    if path == RootPath {
      ghost var t0 := stream.trace;
      stream.Respond(StatusOk, Some(TextHtml));
      var style := PushAsset(stream, CssFile, platform, root.style);
      var style1 := PushAsset(stream, CssFile1, platform, root.style1);
      var script1 := PushAsset(stream, JsFile1, platform, root.script1);
      var script2 := PushAsset(stream, JsFile2, platform, root.script2);
      stream.Write(HeadFragment);
      EarlyPushes();
      assert stream.trace == t0 + RootHeadActions();
      assert stream.closed == old(stream.closed);
      AppRender(stream, JsFile, platform, root.resetDuringRender, root.script);
    } else {
      var contentType := platform.mimeLookup(path);
      stream.RespondWithFile(platform.resolve(ServerRoot, path), Headers(contentType), FileOptions(false, true));
      Deliver(stream, delivery, None);
    }
  }

  lemma StyleDescription()
    ensures GetFileDescription(StyleName) == CssFile
  {
    assert StyleName == "style" + [Dot] + "css";
    DescriptionOfStem("style", "css");
  }

  lemma Style1Description()
    ensures GetFileDescription(Style1Name) == CssFile1
  {
    assert Style1Name == "style1" + [Dot] + "css";
    DescriptionOfStem("style1", "css");
  }

  lemma ScriptDescription()
    ensures GetFileDescription(ScriptName) == JsFile
  {
    assert ScriptName == "script" + [Dot] + "js";
    DescriptionOfStem("script", "js");
  }

  lemma Script1Description()
    ensures GetFileDescription(Script1Name) == JsFile1
  {
    assert Script1Name == "script1" + [Dot] + "js";
    DescriptionOfStem("script1", "js");
  }

  lemma Script2Description()
    ensures GetFileDescription(Script2Name) == JsFile2
  {
    assert Script2Name == "script2" + [Dot] + "js";
    DescriptionOfStem("script2", "js");
  }

  /**
   * The five descriptors are those `getFileDescription` builds: stylesheets
   * get `text/css`, scripts `application/javascript`.
   */
  lemma AssetDescriptors()
    ensures GetFileDescription(StyleName) == CssFile && CssFile.headers.contentType == Some(TextCss)
    ensures GetFileDescription(Style1Name) == CssFile1 && CssFile1.headers.contentType == Some(TextCss)
    ensures GetFileDescription(ScriptName) == JsFile && JsFile.headers.contentType == Some(ApplicationJavascript)
    ensures GetFileDescription(Script1Name) == JsFile1 && JsFile1.headers.contentType == Some(ApplicationJavascript)
    ensures GetFileDescription(Script2Name) == JsFile2 && JsFile2.headers.contentType == Some(ApplicationJavascript)
  {
    StyleDescription();
    Style1Description();
    ScriptDescription();
    Script1Description();
    Script2Description();
  }

  /** The public paths the pushes are announced under. */
  lemma AssetPaths()
    ensures Paths(EarlyAssets) == ["/style.css", "/style1.css", "/script1.js", "/script2.js"]
    ensures JsFile.path == "/script.js"
  {
    assert CssFile.path == "/style.css";
    assert CssFile1.path == "/style1.css";
    assert JsFile1.path == "/script1.js";
    assert JsFile2.path == "/script2.js";
    assert EarlyAssets[1..] == [CssFile1, JsFile1, JsFile2];
    assert EarlyAssets[1..][1..] == [JsFile1, JsFile2];
    assert EarlyAssets[1..][1..][1..] == [JsFile2];
  }

  /** The four early pushes, spelled out. */
  lemma EarlyPushes()
    ensures PushRequests(EarlyAssets) ==
      [PushRequested(CssFile.path), PushRequested(CssFile1.path), PushRequested(JsFile1.path), PushRequested(JsFile2.path)]
  {
    PushRequestsProtocol(EarlyAssets);
    var p := PushRequests(EarlyAssets);
    assert p[0] == PushRequested(CssFile.path) && p[1] == PushRequested(CssFile1.path);
    assert p[2] == PushRequested(JsFile1.path) && p[3] == PushRequested(JsFile2.path);
  }

  /**
   * The synchronous part of the root document: the `respond` first, the
   * write of the head last, and between them one push per early asset, in
   * order.
   */
  lemma RootHeadOrder()
    ensures var h := RootHeadActions();
      |h| == 6 && h[0] == Responded(StatusOk, Some(TextHtml)) && h[5] == Wrote(HeadFragment) &&
      forall i :: 0 <= i < 4 ==> h[i + 1] == PushRequested(EarlyAssets[i].path)
  {
    var r, p, w := [Responded(StatusOk, Some(TextHtml))], PushRequests(EarlyAssets), [Wrote(HeadFragment)];
    PushRequestsProtocol(EarlyAssets);
    forall i | 0 <= i < 4 ensures (r + p + w)[i + 1] == PushRequested(EarlyAssets[i].path) {
      assert (r + p + w)[i + 1] == p[i];
    }
  }

  /**
   * The synchronous part holds one `respond`, one write, the four pushes of
   * the early assets and no `end` and no file response.
   */
  lemma RootHeadCounts()
    ensures var h := RootHeadActions();
      Count(h, RespondKind) == 1 && Count(h, WriteKind) == 1 && Count(h, EndKind) == 0 &&
      Count(h, FileKind) == 0 && Count(h, PushKind) == 4 &&
      PushedPaths(h) == Paths(EarlyAssets)
  {
    HeadCounts(Responded(StatusOk, Some(TextHtml)), EarlyAssets, Wrote(HeadFragment));
  }

  /** Counting over a `respond`, a run of pushes and a write. */
  lemma HeadCounts(first: Action, files: seq<FileDescription>, last: Action)
    requires first.Responded? && last.Wrote?
    ensures var h := [first] + PushRequests(files) + [last];
      Count(h, RespondKind) == 1 && Count(h, WriteKind) == 1 && Count(h, EndKind) == 0 &&
      Count(h, FileKind) == 0 && Count(h, PushKind) == |files| &&
      PushedPaths(h) == Paths(files)
  {
    var p := PushRequests(files);
    PushRequestsProtocol(files);
    CountAround(first, p, last, RespondKind);
    CountAround(first, p, last, WriteKind);
    CountAround(first, p, last, EndKind);
    CountAround(first, p, last, FileKind);
    CountAround(first, p, last, PushKind);
    PushedPathsAround(first, p, last);
  }

  /**
   * The root document holds one `respond` and no file response; it pushes
   * the early assets and, only if the stream is still open after the delay,
   * the script; it writes twice and ends once when open, and writes once and
   * never ends otherwise.
   */
  lemma RootCounts(open: bool)
    ensures var t := RootActions(open);
      Count(t, RespondKind) == 1 && Count(t, FileKind) == 0 &&
      Count(t, WriteKind) == (if open then 2 else 1) &&
      Count(t, EndKind) == (if open then 1 else 0) &&
      PushedPaths(t) == Paths(EarlyAssets) + (if open then [JsFile.path] else [])
  {
    var h, r := RootHeadActions(), RenderActions(open, JsFile);
    RootHeadCounts();
    RenderProtocol(open, JsFile);
    PushedPathsAppend(h, r);
    CountAppend(h, r, RespondKind);
    CountAppend(h, r, FileKind);
    CountAppend(h, r, WriteKind);
    CountAppend(h, r, EndKind);
  }

  /** The paths the root document pushes, spelled out. */
  lemma RootPushedPaths(open: bool)
    ensures PushedPaths(RootActions(open)) ==
      ["/style.css", "/style1.css", "/script1.js", "/script2.js"] + (if open then ["/script.js"] else [])
  {
    RootCounts(open);
    AssetPaths();
  }

  /**
   * The order of the root document: one `respond` with 200 and `text/html`
   * first; the pushes of the two stylesheets and the two early scripts
   * after it and before the head is written; then, if the stream is still
   * open after the delay, the push of `script.js` and, last of all, the
   * `end` with the body.
   */
  lemma RootOrder(open: bool)
    ensures var t := RootActions(open);
      t[0] == Responded(StatusOk, Some(TextHtml)) &&
      (forall i :: 0 <= i < |EarlyAssets| ==>
         Precedes(t, Responded(StatusOk, Some(TextHtml)), PushRequested(EarlyAssets[i].path)) &&
         Precedes(t, PushRequested(EarlyAssets[i].path), Wrote(HeadFragment))) &&
      (open ==> Precedes(t, Wrote(HeadFragment), PushRequested(JsFile.path)) &&
                t[|t| - 1] == Ended(Some(BodyFragment)))
  {
    var h, r := RootHeadActions(), RenderActions(open, JsFile);
    var t := h + r;
    RootHeadOrder();
    forall i | 0 <= i < |EarlyAssets|
      ensures Precedes(t, Responded(StatusOk, Some(TextHtml)), PushRequested(EarlyAssets[i].path))
      ensures Precedes(t, PushRequested(EarlyAssets[i].path), Wrote(HeadFragment))
    {
      assert t[0] == h[0] && t[i + 1] == h[i + 1] && t[5] == h[5];
    }
    if open {
      assert t[5] == Wrote(HeadFragment) && t[6] == PushRequested(JsFile.path);
      assert t[|t| - 1] == r[2];
    }
  }

  /** Nothing follows the `end` of the root document, so nothing is written after it. */
  lemma RootEnd(open: bool)
    ensures NothingAfterEnd(RootActions(open)) && NoWriteAfterEnd(RootActions(open))
  {
    var h, r := RootHeadActions(), RenderActions(open, JsFile);
    RootHeadCounts();
    RenderProtocol(open, JsFile);
    NothingAfterEndAppend(h, r);
    NothingAfterEndNoWrite(h + r);
  }

  /**
   * Any other path: one `respondWithFile` of the resolved request path, with
   * the looked-up content type, on the request stream itself; no push; and a
   * failed delivery answered as the classifier decides, with nothing after
   * the end.
   */
  lemma StaticProtocol(path: string, platform: Platform, d: Delivery, closed: bool, rstCode: Option<nat>)
    ensures var t := StaticActions(path, platform, d, closed, rstCode);
      t[0] == FileResponded(platform.resolve(ServerRoot, path), Headers(platform.mimeLookup(path)), FileOptions(false, true)) &&
      Count(t, PushKind) == 0 && Count(t, FileKind) == 1 && Count(t, WriteKind) == 0 &&
      Count(t, RespondKind) == Count(t, EndKind) <= 1 &&
      (d.Delivered? || closed ==> |t| == 1) &&
      (d.Failed? && !closed && d.reset.None? && d.err.code == Enoent ==>
         t == [t[0], Responded(StatusNotFound, None), Ended(None)]) &&
      NothingAfterEnd(t)
  {
    var f := [FileResponded(platform.resolve(ServerRoot, path), Headers(platform.mimeLookup(path)), FileOptions(false, true))];
    var rest := DeliveryActions(d, closed, rstCode);
    forall k: Kind ensures Count(f + rest, k) == Count(f, k) + Count(rest, k) {
      CountAppend(f, rest, k);
    }
    if d.Failed? {
      var closed' := closed || d.reset.Some?;
      var rstCode' := if closed || d.reset.None? then rstCode else d.reset;
      ReactionCompletes(d.err, rstCode', closed');
    }
    NothingAfterEndAppend(f, rest);
  }
}
