/**
 * The HTTP/2 stream as the server sees it: an object with a `closed` flag,
 * the RST_STREAM code it was closed with, and the trace of the actions the
 * server has performed on it. The transport primitives only record; the
 * bytes on the wire are not modelled.
 */
module Transport {
  import opened Wrappers
  import opened Assets

  /** The markup written to the root document, as opaque tokens in the order they are sent. */
  datatype Fragment =
    | HeadFragment     // doctype, `<head>` with the stylesheet links and the two deferred scripts
    | ScriptFragment   // the `script.js` tag and the closing `</head>`
    | BodyFragment     // the `<body>` with the greeting, sent with `end`

  /** The option object given to `respondWithFile`. */
  datatype FileOptions = FileOptions(statCheck: bool, onError: bool)

  /** An error event: only its `code` property is inspected. */
  datatype StreamError = StreamError(code: string)

  /** One call the server made on a stream. */
  datatype Action =
    | Responded(status: nat, contentType: Option<string>)
    | Wrote(fragment: Fragment)
    | Ended(last: Option<Fragment>)
    | PushRequested(path: string)
    | ErrorHandlerAttached
    | FileResponded(filePath: string, headers: Headers, options: FileOptions)

  class Stream {
    var closed: bool
    var rstCode: Option<nat>
    var trace: seq<Action>

    /** A stream the transport has just opened. */
    constructor ()
      ensures !closed && rstCode == None && trace == []
    {
      closed, rstCode, trace := false, None, [];
    }

    /** `stream.respond(headers)`. */
    method Respond(status: nat, contentType: Option<string>)
      modifies this`trace
      ensures trace == old(trace) + [Responded(status, contentType)]
    {
      trace := trace + [Responded(status, contentType)];
    }

    /** `stream.write(fragment)`. */
    method Write(fragment: Fragment)
      modifies this`trace
      ensures trace == old(trace) + [Wrote(fragment)]
    {
      trace := trace + [Wrote(fragment)];
    }

    /** `stream.end()` or `stream.end(fragment)`. */
    method End(last: Option<Fragment>)
      modifies this`trace
      ensures trace == old(trace) + [Ended(last)]
    {
      trace := trace + [Ended(last)];
    }

    /** `stream.on('error', handler)`. */
    method OnError()
      modifies this`trace
      ensures trace == old(trace) + [ErrorHandlerAttached]
    {
      trace := trace + [ErrorHandlerAttached];
    }

    /** `stream.respondWithFile(filePath, headers, options)`. */
    method RespondWithFile(filePath: string, headers: Headers, options: FileOptions)
      modifies this`trace
      ensures trace == old(trace) + [FileResponded(filePath, headers, options)]
    {
      trace := trace + [FileResponded(filePath, headers, options)];
    }

    /**
     * `stream.pushStream({ ':path': path }, ..., callback)`. Whether the
     * transport creates the push stream is its own decision, given here as
     * `failure`: with an error the callback gets no stream, otherwise it
     * gets a new, open push stream with nothing done on it yet.
     */
    method PushStream(path: string, failure: Option<StreamError>) returns (pushed: Stream?)
      modifies this`trace
      ensures trace == old(trace) + [PushRequested(path)]
      ensures pushed == null <==> failure.Some?
      ensures pushed != null ==> fresh(pushed) && !pushed.closed && pushed.rstCode == None && pushed.trace == []
    {
      trace := trace + [PushRequested(path)];
      if failure.None? {
        pushed := new Stream();
      } else {
        pushed := null;
      }
    }

    /**
     * The transport closes the stream with RST_STREAM `code` (the peer reset
     * it or it was cancelled). A stream closes once; later codes are ignored.
     */
    method Close(code: nat)
      modifies this`closed, this`rstCode
      ensures closed
      ensures rstCode == if old(closed) then old(rstCode) else Some(code)
    {
      if !closed {
        closed, rstCode := true, Some(code);
      }
    }

    /**
     * A point where the server awaits a timer: other events run meanwhile,
     * and the transport may close the stream, with `reset` as its code.
     */
    method Delay(reset: Option<nat>)
      modifies this`closed, this`rstCode
      ensures closed == (old(closed) || reset.Some?)
      ensures rstCode == if old(closed) || reset.None? then old(rstCode) else reset
    {
      if reset.Some? {
        Close(reset.value);
      }
    }
  }
}
