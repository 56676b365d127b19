/** The streamed HTTP response: the runtime's stream object, the auto-stream chunker and the response writer. */
module HttpStream {
  import opened Options

  newtype byte = x: int | 0 <= x < 256
  type Bytes = seq<byte>

  /** An append-only log. */
  datatype Log<+T> = Empty | Snoc(init: Log<T>, last: T)

  datatype Event = Start(statusCode: int) | Chunk(data: Bytes) | End | Other

  /** One call on the http.ResponseWriter. */
  datatype Emit = Header(status: int) | Body(data: Bytes)

  ghost function HeaderCount(out: Log<Emit>): nat
  {
    match out
    case Empty => 0
    case Snoc(init, last) => HeaderCount(init) + if last.Header? then 1 else 0
  }

  /** The statuses of the headers sent, in order. */
  ghost function Statuses(out: Log<Emit>): (s: seq<int>)
    ensures |s| == HeaderCount(out)
  {
    match out
    case Empty => []
    case Snoc(init, last) => Statuses(init) + if last.Header? then [last.status] else []
  }

  /** The body bytes a client receives. */
  ghost function BodyOf(out: Log<Emit>): Bytes
  {
    match out
    case Empty => []
    case Snoc(init, last) => BodyOf(init) + if last.Body? then last.data else []
  }

  /** A header is the first call and no other call is one. */
  ghost predicate HeaderOnceAndFirst(out: Log<Emit>)
  {
    out.Snoc? ==> HeaderOnceAndFirst(out.init) && (out.last.Header? <==> out.init.Empty?)
  }

  // ---------------------------------------------------------------- the response writer

  datatype Writer = Writer(head: bool, started: bool, closed: bool, status: int, out: Log<Emit>)
  {
    ghost predicate Valid()
    {
      && HeaderOnceAndFirst(out)
      && (started <==> out.Snoc?)
      && (closed ==> started)
      && (head ==> BodyOf(out) == [])
    }
  }

  function NewWriter(head: bool): Writer
  {
    Writer(head, false, false, 200, Empty)
  }

  function Begin(w: Writer): Writer
  {
    if w.started then w else w.(out := Snoc(w.out, Header(w.status)), started := true)
  }

  /** httpDirectStreamWriter.HandleEvent. */
  function Handle(w: Writer, e: Event): Writer
  {
    if w.closed then w else
      match e
      case Start(code) =>
        if w.started then w else Begin(w.(status := if code > 0 then code else w.status))
      case Chunk(data) =>
        var b := Begin(w);
        if w.head || data == [] then b else b.(out := Snoc(b.out, Body(data)))
      case End =>
        Begin(w).(closed := true)
      case Other => w
  }

  function HandleAll(w: Writer, es: Log<Event>): Writer
  {
    match es
    case Empty => w
    case Snoc(init, last) => Handle(HandleAll(w, init), last)
  }

  ghost predicate HasEnd(es: Log<Event>)
  {
    es.Snoc? && (es.last.End? || HasEnd(es.init))
  }

  /** Some event opens the response. */
  ghost predicate Opened(es: Log<Event>)
  {
    es.Snoc? && (!es.last.Other? || Opened(es.init))
  }

  /** The chunks that come before the first end. */
  ghost function Streamed(es: Log<Event>): Bytes
  {
    match es
    case Empty => []
    case Snoc(init, last) => Streamed(init) + if last.Chunk? && !HasEnd(init) then last.data else []
  }

  /** What the first opening event asks for: its code when it is a start with a positive one, else 200. */
  ghost function FirstStatus(es: Log<Event>): int
  {
    match es
    case Empty => 200
    case Snoc(init, last) =>
      if Opened(init) then FirstStatus(init) else if last.Start? && last.statusCode > 0 then last.statusCode else 200
  }

  lemma {:induction false} OneHeader(out: Log<Emit>)
    requires HeaderOnceAndFirst(out)
    ensures HeaderCount(out) == if out.Empty? then 0 else 1
  {
    if out.Snoc? {
      OneHeader(out.init);
    }
  }

  /** Whatever the runtime sends, the header is written at most once and before any byte of the body, its status
      is the one the first opening event asks for, and the body is what was streamed before the first end. */
  lemma {:induction false} WriterIsFaithful(head: bool, es: Log<Event>)
    ensures var w := HandleAll(NewWriter(head), es);
            && w.Valid() && w.head == head
            && (w.closed <==> HasEnd(es))
            && (w.started <==> Opened(es))
            && w.status == FirstStatus(es)
            && Statuses(w.out) == (if w.started then [FirstStatus(es)] else [])
            && BodyOf(w.out) == (if head then [] else Streamed(es))
  {
    if es.Snoc? {
      WriterIsFaithful(head, es.init);
    }
    OneHeader(HandleAll(NewWriter(head), es).out);
  }

  // ---------------------------------------------------------------- the runtime's stream object

  datatype StreamCall = DoStart(statusCode: Option<int>) | DoWrite(chunk: Bytes) | DoEnd(rest: Option<Bytes>)

  datatype Stream = Stream(started: bool, ended: bool, events: Log<Event>)
  {
    ghost predicate Valid()
    {
      && (started <==> Opened(events))
      && (events.Snoc? ==> started)
      && (ended <==> HasEnd(events))
    }
  }

  const IDLE: Stream := Stream(false, false, Empty)

  function StartStream(s: Stream, code: Option<int>): Stream
  {
    if s.ended || s.started then s
    else s.(started := true, events := Snoc(s.events, Start(if code.Some? then code.value else 200)))
  }

  function WriteStream(s: Stream, chunk: Bytes): Stream
  {
    var b := StartStream(s, None);
    if b.ended || chunk == [] then b else b.(events := Snoc(b.events, Chunk(chunk)))
  }

  function EndStream(s: Stream, rest: Option<Bytes>): Stream
  {
    if s.ended then s else
      var b := if rest.Some? then WriteStream(s, rest.value) else StartStream(s, None);
      b.(ended := true, events := Snoc(b.events, End))
  }

  /** The state after a call that was awaited; calls on a closed stream that throw leave it as it is. */
  function DoCall(s: Stream, c: StreamCall): Stream
  {
    match c
    case DoStart(code) => StartStream(s, code)
    case DoWrite(chunk) => WriteStream(s, chunk)
    case DoEnd(rest) => EndStream(s, rest)
  }

  function DoCalls(s: Stream, cs: Log<StreamCall>): Stream
  {
    match cs
    case Empty => s
    case Snoc(init, last) => DoCall(DoCalls(s, init), last)
  }

  ghost predicate Ended(cs: Log<StreamCall>)
  {
    cs.Snoc? && (cs.last.DoEnd? || Ended(cs.init))
  }

  /** What the first call asks for: its code when it is a start with a positive one, else 200. */
  ghost function AskedStatus(cs: Log<StreamCall>): int
  {
    if cs.Empty? then 200
    else if cs.init.Snoc? then AskedStatus(cs.init)
    else if cs.last.DoStart? && cs.last.statusCode.Some? && cs.last.statusCode.value > 0 then cs.last.statusCode.value
    else 200
  }

  /** What a handler has asked to send: every write up to and including the data of its first end. */
  ghost function Written(cs: Log<StreamCall>): Bytes
  {
    match cs
    case Empty => []
    case Snoc(init, last) =>
      Written(init) +
      if Ended(init) then []
      else match last
           case DoStart(_) => []
           case DoWrite(chunk) => chunk
           case DoEnd(rest) => if rest.Some? then rest.value else []
  }

  lemma WriteStreamIsFaithful(s: Stream, chunk: Bytes)
    requires s.Valid()
    ensures var r := WriteStream(s, chunk);
            && r.Valid() && r.started && r.ended == s.ended
            && FirstStatus(r.events) == (if s.started then FirstStatus(s.events) else 200)
            && Streamed(r.events) == Streamed(s.events) + if s.ended then [] else chunk
  {
    var b := StartStream(s, None);
    assert b.Valid() && Streamed(b.events) == Streamed(s.events);
  }

  /** However a handler drives the stream, awaiting each call before the next, the events carry exactly what it wrote
      before its first end. */
  lemma {:induction false} StreamIsFaithful(cs: Log<StreamCall>)
    ensures var s := DoCalls(IDLE, cs);
            && s.Valid() && (s.started <==> cs.Snoc?)
            && (s.ended <==> Ended(cs))
            && FirstStatus(s.events) == AskedStatus(cs)
            && Streamed(s.events) == Written(cs)
  {
    if cs.Snoc? {
      StreamIsFaithful(cs.init);
      if cs.last.DoEnd? && cs.last.rest.Some? {
        WriteStreamIsFaithful(DoCalls(IDLE, cs.init), cs.last.rest.value);
      } else if cs.last.DoWrite? {
        WriteStreamIsFaithful(DoCalls(IDLE, cs.init), cs.last.chunk);
      }
    }
  }

  // ---------------------------------------------------------------- auto-streaming and the wrapper's last steps

  const AUTO_STREAM_THRESHOLD: nat := 64 * 1024
  const CHUNK_SIZE: nat := 32 * 1024

  /** What a handler returns, as far as the wrapper looks: a structured result with an integer status and a
      textual body (already decoded to bytes), or anything else. */
  datatype HandlerResult = Structured(statusCode: int, body: Bytes) | Opaque

  predicate AutoStreams(s: Stream, r: HandlerResult)
  {
    !s.started && !s.ended && r.Structured? && |r.body| >= AUTO_STREAM_THRESHOLD
  }

  function WriteFrom(s: Stream, body: Bytes, offset: nat): Stream
    requires offset <= |body|
    decreases |body| - offset
  {
    if offset == |body| then s else
      var end := if offset + CHUNK_SIZE < |body| then offset + CHUNK_SIZE else |body|;
      WriteFrom(WriteStream(s, body[offset..end]), body, end)
  }

  /** The wrapper after the handler has returned: auto-stream a large structured result, then close an open stream. */
  function Finish(s: Stream, r: HandlerResult): (Stream, HandlerResult)
  {
    if AutoStreams(s, r) then
      (EndStream(WriteFrom(StartStream(s, Some(r.statusCode)), r.body, 0), None), r.(body := []))
    else if s.started && !s.ended then (EndStream(s, None), r)
    else (s, r)
  }

  ghost predicate ChunksUpTo(es: Log<Event>, n: nat)
  {
    es.Snoc? ==> ChunksUpTo(es.init, n) && (es.last.Chunk? ==> |es.last.data| <= n)
  }

  /** The chunks put together are the body from `offset` on, and none is larger than 32 KiB. */
  lemma {:induction false} WriteFromIsFaithful(s: Stream, body: Bytes, offset: nat)
    requires s.Valid() && s.started && !s.ended && offset <= |body|
    ensures var r := WriteFrom(s, body, offset);
            && r.Valid() && r.started && !r.ended
            && FirstStatus(r.events) == FirstStatus(s.events)
            && Streamed(r.events) == Streamed(s.events) + body[offset..]
            && (ChunksUpTo(s.events, 32768) ==> ChunksUpTo(r.events, 32768))
    decreases |body| - offset
  {
    if offset < |body| {
      var end := if offset + CHUNK_SIZE < |body| then offset + CHUNK_SIZE else |body|;
      WriteFromIsFaithful(WriteStream(s, body[offset..end]), body, end);
      assert body[offset..] == body[offset..end] + body[end..];
    }
  }

  /** End to end, when every event emitted also arrives: the client sees what the handler streamed, or, if it streamed
      nothing and returned a large structured result, exactly that result. */
  lemma StreamRoundTrip(head: bool, cs: Log<StreamCall>, r: HandlerResult)
    ensures var (s, r') := Finish(DoCalls(IDLE, cs), r);
            var w := HandleAll(NewWriter(head), s.events);
            var auto := cs.Empty? && r.Structured? && |r.body| >= 65536;
            && (w.started <==> auto || cs.Snoc?)
            && (w.started ==> w.closed)
            && Statuses(w.out) == (if auto then [if r.statusCode > 0 then r.statusCode else 200] else if cs.Snoc? then [AskedStatus(cs)] else [])
            && BodyOf(w.out) == (if head then [] else if auto then r.body else Written(cs))
            && (auto ==> ChunksUpTo(s.events, 32768))
            && r' == if auto then r.(body := []) else r
  {
    var s0 := DoCalls(IDLE, cs);
    StreamIsFaithful(cs);
    if AutoStreams(s0, r) {
      WriteFromIsFaithful(StartStream(s0, Some(r.statusCode)), r.body, 0);
      assert r.body[0..] == r.body;
    }
    WriterIsFaithful(head, Finish(s0, r).0.events);
  }

  // ---------------------------------------------------------------- returning the direct result

  /** The function output as decodeHTTPFunctionResult reads it. */
  datatype Decoded = Raw(json: Bytes) | Shaped(status: int, body: Bytes) | Malformed

  /** A direct execution result; `output` is missing when the execution left none. */
  datatype DirectResult = DirectResult(succeeded: bool, output: Option<Decoded>)

  const STREAM_THRESHOLD: nat := 0x1_0000
  const STREAM_CHUNK_SIZE: nat := 0x4_0000

  /** Only body pieces of at most `n` bytes were added. */
  ghost predicate PiecesUpTo(out: Log<Emit>, more: Log<Emit>, n: nat)
  {
    more == out || (more.Snoc? && more.last.Body? && |more.last.data| <= n && PiecesUpTo(out, more.init, n))
  }

  /** writeHTTPResponseBody: one write, or 256 KiB pieces when the writer can flush. */
  method WriteResponseBody(canFlush: bool, out: Log<Emit>, body: Bytes) returns (out': Log<Emit>)
    ensures BodyOf(out') == BodyOf(out) + body && Statuses(out') == Statuses(out) 
    ensures HeaderOnceAndFirst(out) && out.Snoc? ==> HeaderOnceAndFirst(out') && out'.Snoc?
    ensures !canFlush || |body| < 65536 ==> out' == if body == [] then out else Snoc(out, Body(body))
    ensures canFlush && |body| >= 65536 ==> PiecesUpTo(out, out', 262144)
  {
    out' := out;
    if |body| == 0 {
      return;
    }
    if !canFlush || |body| < STREAM_THRESHOLD {
      return Snoc(out, Body(body));
    }
    var offset := 0;
    while offset < |body|
      invariant 0 <= offset <= |body|
      invariant BodyOf(out') == BodyOf(out) + body[..offset] && Statuses(out') == Statuses(out)
      invariant HeaderOnceAndFirst(out) && out.Snoc? ==> HeaderOnceAndFirst(out') && out'.Snoc?
      invariant PiecesUpTo(out, out', 262144)
    {
      var end := if offset + STREAM_CHUNK_SIZE > |body| then |body| else offset + STREAM_CHUNK_SIZE;
      out' := Snoc(out', Body(body[offset..end]));
      assert body[..end] == body[..offset] + body[offset..end];
      offset := end;
    }
  }

  function ClientBody(head: bool, output: Decoded): Bytes
    requires !output.Malformed?
  {
    if head then [] else if output.Raw? then output.json else output.body
  }

  function ClientStatus(output: Decoded): int
    requires !output.Malformed?
  {
    if output.Raw? then 200 else output.status
  }

  class HttpDirectStreamWriter {
    const head: bool
    const canFlush: bool
    var started: bool
    var closed: bool
    var status: int
    /** Every call made on the response writer so far. */
    var response: Log<Emit>

    constructor (head: bool, canFlush: bool)
      ensures View() == NewWriter(head) && this.canFlush == canFlush
    {
      this.head, this.canFlush := head, canFlush;
      started, closed, status, response := false, false, 200, Empty;
    }

    function View(): Writer
      reads this
    {
      Writer(head, started, closed, status, response)
    }

    method HandleEvent(event: Event)
      modifies this
      ensures View() == Handle(old(View()), event)
    {
      if closed {
        return;
      }
      match event
      case Start(code) =>
        if started {
          return;
        }
        if code > 0 {
          status := code;
        }
        response := Snoc(response, Header(status));
        started := true;
      case Chunk(data) =>
        if !started {
          response := Snoc(response, Header(status));
          started := true;
        }
        if !head && |data| > 0 {
          response := Snoc(response, Body(data));
        }
      case End =>
        if !started {
          response := Snoc(response, Header(status));
          started := true;
        }
        closed := true;
      case Other =>
    }

    method Close()
      modifies this`closed
      ensures closed
    {
      closed := true;
    }

    method WriteJSON(code: int, json: Bytes)
      modifies this`response
      ensures response == Snoc(Snoc(old(response), Header(code)), Body(json))
    {
      response := Snoc(Snoc(response, Header(code)), Body(json));
    }

    /** writeHTTPFunctionResult: nothing is written when the output cannot be decoded. */
    method WriteFunctionResult(output: Decoded) returns (ok: bool)
      modifies this`response
      ensures ok <==> !output.Malformed?
      ensures !ok ==> response == old(response)
      ensures ok ==> Statuses(response) == Statuses(old(response)) + [if output.Raw? then 200 else output.status]
      ensures ok ==> BodyOf(response) == BodyOf(old(response)) + ClientBody(head, output)
      ensures ok && old(response).Empty? ==> HeaderOnceAndFirst(response)
    {
      if output.Malformed? {
        return false;
      }
      response := Snoc(response, Header(ClientStatus(output)));
      assert old(response).Empty? ==> HeaderOnceAndFirst(response);
      if !head {
        response := WriteResponseBody(canFlush, response, ClientBody(head, output));
      }
      return true;
    }

    /** returnDirectHTTPResult: exactly one header overall, unless the result is missing after a stream began. */
    method ReturnDirectResult(result: Option<DirectResult>, json: Bytes)
      requires View().Valid()
      modifies this
      ensures HeaderCount(response) == 1 <==> !(result.None? && old(started))
      ensures result.None? ==> Statuses(response) == Statuses(old(response)) + [502] && BodyOf(response) == BodyOf(old(response)) + json
      ensures old(started) && result.Some? ==> response == old(response)
      ensures !old(started) ==> HeaderOnceAndFirst(response) && Answers(head, result, json, response)
    {
      OneHeader(response);
      if result.None? {
        WriteJSON(502, json);
        return;
      }
      if !result.value.succeeded || result.value.output.None? {
        if !started {
          WriteJSON(502, json);
        }
        return;
      }
      if started {
        Close();
        return;
      }
      var ok := WriteFunctionResult(result.value.output.value);
      if !ok {
        WriteJSON(502, json);
      }
    }
  }

  /** The answer when nothing was streamed: the function's own response if it succeeded with a well-formed output, and
      else the status 502 with the given text. */
  ghost predicate Answers(head: bool, result: Option<DirectResult>, text: Bytes, out: Log<Emit>)
  {
    if result.Some? && result.value.succeeded && result.value.output.Some? && !result.value.output.value.Malformed? then
      match result.value.output.value
      case Raw(json) => Statuses(out) == [200] && BodyOf(out) == if head then [] else json
      case Shaped(status, body) => Statuses(out) == [status] && BodyOf(out) == if head then [] else body
    else Statuses(out) == [502] && BodyOf(out) == text
  }

  method Feed(w: HttpDirectStreamWriter, es: Log<Event>)
    modifies w
    ensures w.View() == HandleAll(old(w.View()), es)
    decreases es
  {
    if es.Snoc? {
      Feed(w, es.init);
      w.HandleEvent(es.last);
    }
  }

  /** How a direct execution ends for the handler: with a result, or with an error that it answers with a status of its own.
      The result is never missing when there is no error. */
  datatype Outcome = Returned(result: DirectResult) | Failed(code: int)

  /** A function URL request served directly: the events of the execution, then its result or the reply to its error. The
      error reply does not ask whether a stream has begun, so it is a second header exactly when one has, and its text
      is appended to what was streamed. */
  method ServeDirect(head: bool, canFlush: bool, es: Log<Event>, outcome: Outcome, text: Bytes) returns (out: Log<Emit>)
    ensures HeaderCount(out) == 1 <==> !(outcome.Failed? && Opened(es))
    ensures HeaderCount(out) == 1 ==> HeaderOnceAndFirst(out)
    ensures outcome.Failed? ==>
              && Statuses(out) == (if Opened(es) then [FirstStatus(es)] else []) + [outcome.code]
              && BodyOf(out) == (if head || !Opened(es) then [] else Streamed(es)) + text
    ensures outcome.Returned? && Opened(es) ==>
              Statuses(out) == [FirstStatus(es)] && BodyOf(out) == if head then [] else Streamed(es)
    ensures outcome.Returned? && !Opened(es) ==> Answers(head, Some(outcome.result), text, out)
  {
    var w := new HttpDirectStreamWriter(head, canFlush);
    Feed(w, es);
    WriterIsFaithful(head, es);
    if outcome.Failed? {
      OneHeader(w.response);
      w.WriteJSON(outcome.code, text);
    } else {
      w.ReturnDirectResult(Some(outcome.result), text);
    }
    return w.response;
  }

  // ---------------------------------------------------------------- the stream object of the wrapper

  class HttpStream {
    var started: bool
    var ended: bool
    var emitted: Log<Event>

    constructor ()
      ensures View() == IDLE
    {
      started, ended, emitted := false, false, Empty;
    }

    function View(): Stream
      reads this
    {
      Stream(started, ended, emitted)
    }

    method Start(code: Option<int>) returns (threw: bool)
      modifies this
      ensures View() == StartStream(old(View()), code) && threw == old(ended)
    {
      if ended {
        return true;
      }
      if !started {
        started := true;
        emitted := Snoc(emitted, Event.Start(if code.Some? then code.value else 200));
      }
      return false;
    }

    method Write(chunk: Bytes) returns (threw: bool)
      modifies this
      ensures View() == WriteStream(old(View()), chunk) && threw == old(ended)
    {
      if !started {
        threw := Start(None);
        if threw {
          return;
        }
      }
      if ended {
        return true;
      }
      if |chunk| > 0 {
        emitted := Snoc(emitted, Chunk(chunk));
      }
      return false;
    }

    method End(rest: Option<Bytes>)
      modifies this
      ensures View() == EndStream(old(View()), rest)
    {
      if ended {
        return;
      }
      if rest.Some? {
        var _ := Write(rest.value);
      } else if !started {
        var _ := Start(None);
      }
      emitted := Snoc(emitted, Event.End);
      ended := true;
    }

    /** maybeAutoStreamStructuredHttpResult followed by the wrapper's closing of an open stream. */
    method FinishHandler(result: HandlerResult) returns (returned: HandlerResult)
      modifies this
      ensures (View(), returned) == Finish(old(View()), result)
    {
      if AutoStreams(View(), result) {
        var _ := Start(Some(result.statusCode));
        ghost var begun := View();
        var offset := 0;
        while offset < |result.body|
          invariant 0 <= offset <= |result.body|
          invariant WriteFrom(View(), result.body, offset) == WriteFrom(begun, result.body, 0)
        {
          var end := if offset + CHUNK_SIZE < |result.body| then offset + CHUNK_SIZE else |result.body|;
          var _ := Write(result.body[offset..end]);
          offset := end;
        }
        End(None);
        return result.(body := []);
      }
      if started && !ended {
        End(None);
      }
      return result;
    }
  }
}
