/** How a QGIS response becomes reply messages: the buffered `Response` on the worker, and the
  * `RequestHandler` below it that frames what the response flushes. */
module Framing {
  import opened Wire

  datatype HeaderValue = Text(text: string) | Number(number: nat)

  type Headers = map<string, HeaderValue>

  /** A header message carries the first part of the body; status 206 announces chunks. */
  datatype Frame =
    | Header(status: int, headers: Headers, body: Bytes)
    | Chunk(body: Bytes, more: bool)

  /** The calls that can reach a response while a request is served.  `Crash` is the worker loop
    * answering for a handler that raised. */
  datatype Call =
    | Write(data: Bytes)
    | SetStatusCode(code: int)
    | SetHeader(key: string, value: string)
    | SetExtraHeader(key: string, value: string)
    | RemoveHeader(key: string)
    | Flush
    | Finish
    | SendError(code: int, message: Bytes)
    | Truncate
    | Clear
    | Crash

  const CONTENT_LENGTH := "Content-Length"

  /** b"Worker internal error" */
  const INTERNAL_ERROR: Bytes :=
    [87, 111, 114, 107, 101, 114, 32, 105, 110, 116, 101, 114, 110, 97, 108, 32, 101, 114, 114, 111, 114]

  datatype State = State(
    headers: Headers,
    extra: Headers,
    status: int,
    written: bool,
    buffer: Bytes,
    finished: bool,
    out: seq<Frame>)

  const Fresh := State(map[], map[], 200, false, [], false, [])

  function AfterSend(s: State, data: Bytes, more: bool): State {
    if !s.written then
      var status := if more && s.status == 200 then 206 else s.status;
      s.(status := status, written := true, out := s.out + [Header(status, s.headers, data)])
    else if s.status == 206 then
      s.(status := if more then 206 else 200, out := s.out + [Chunk(data, more)])
    else s
  }

  function AfterFlush(s: State): State {
    var sized :=
      if s.finished && s.buffer != [] then s.(headers := s.headers[CONTENT_LENGTH := Number(|s.buffer|)]) else s;
    var more := !s.finished || s.written;
    var sent := AfterSend(sized, s.buffer, more).(buffer := []);
    if more && s.finished then AfterSend(sent, [], false) else sent
  }

  function Apply(s: State, c: Call): State {
    match c
    case Write(data) => s.(buffer := s.buffer + data)
    case SetStatusCode(code) => if s.written then s else s.(status := code)
    case SetHeader(k, v) => if s.written then s else s.(headers := s.headers[k := Text(v)])
    case SetExtraHeader(k, v) =>
      var t := s.(extra := s.extra[k := Text(v)]);
      if s.written then t else t.(headers := t.headers[k := Text(v)])
    case RemoveHeader(k) => s.(headers := s.headers - {k})
    case Flush => AfterFlush(s)
    case Finish => AfterFlush(s.(finished := true))
    case SendError(code, message) =>
      if s.written then s else AfterSend(s.(status := code), message, false).(finished := true)
    case Truncate => s.(buffer := [])
    case Clear => s.(headers := s.extra, buffer := [])
    case Crash => if s.written then s else AfterSend(s.(status := 500), INTERNAL_ERROR, false)
  }

  function Run(s: State, calls: seq<Call>): State
    decreases |calls|
  {
    if calls == [] then s else Run(Apply(s, calls[0]), calls[1..])
  }

  lemma {:induction false} RunConcat(s: State, a: seq<Call>, b: seq<Call>)
    ensures Run(s, a + b) == Run(Run(s, a), b)
    decreases |a|
  {
    if a == [] {
      assert a + b == b;
    } else {
      assert (a + b)[1..] == a[1..] + b;
      RunConcat(Apply(s, a[0]), a[1..], b);
    }
  }

  lemma RunSnoc(calls: seq<Call>, c: Call)
    ensures Run(Fresh, calls + [c]) == Apply(Run(Fresh, calls), c)
  {
    RunConcat(Fresh, calls, [c]);
    assert Run(Run(Fresh, calls), [c]) == Run(Apply(Run(Fresh, calls), c), []);
  }

  // ---------------------------------------------------------------- the shape of a reply

  /** One header first; chunks only behind a 206 header; a chunk without successor is empty and last. */
  ghost predicate WellFramed(out: seq<Frame>) {
    out != [] ==>
      && out[0].Header?
      && (out[0].status != 206 ==> |out| == 1)
      && forall i :: 1 <= i < |out| ==>
           out[i].Chunk? && (!out[i].more ==> i == |out| - 1 && out[i].body == [])
  }

  /** The reply tells its reader where it ends. */
  predicate Closed(out: seq<Frame>) {
    && out != []
    && out[0].Header?
    && (out[0].status != 206 || (out[|out| - 1].Chunk? && !out[|out| - 1].more))
  }

  ghost predicate Framed(s: State) {
    && WellFramed(s.out)
    && (s.written <==> s.out != [])
    && (s.written ==> (s.status == 206 <==> !Closed(s.out)))
  }

  lemma FramedSend(s: State, data: Bytes, more: bool)
    requires Framed(s)
    requires s.written && s.status == 206 && !more ==> data == []
    ensures Framed(AfterSend(s, data, more))
  {
    var t := AfterSend(s, data, more);
    if s.written && s.status == 206 {
      assert t.out[0] == s.out[0];
    }
  }

  lemma FramedStep(s: State, c: Call)
    requires Framed(s)
    ensures Framed(Apply(s, c))
  {
    if c.Flush? || c.Finish? {
      var f := s.finished || c.Finish?;
      var headers :=
        if f && s.buffer != [] then s.headers[CONTENT_LENGTH := Number(|s.buffer|)] else s.headers;
      var sized := s.(finished := f, headers := headers);
      FramedSend(sized, s.buffer, !f || s.written);
      FramedSend(AfterSend(sized, s.buffer, !f || s.written).(buffer := []), [], false);
    } else if c.SendError? {
      FramedSend(s.(status := if s.written then s.status else c.code), if s.written then [] else c.message, false);
    } else if c.Crash? {
      FramedSend(s.(status := if s.written then s.status else 500), if s.written then [] else INTERNAL_ERROR, false);
    }
  }

  /** Whatever the calls, the messages sent so far are one well-formed reply or the start of one. */
  lemma {:induction false} AlwaysWellFramed(s: State, calls: seq<Call>)
    requires Framed(s)
    ensures Framed(Run(s, calls))
    decreases |calls|
  {
    if calls != [] {
      FramedStep(s, calls[0]);
      AlwaysWellFramed(Apply(s, calls[0]), calls[1..]);
    }
  }

  /** Nothing follows the end of a reply, even if the response is flushed or finished again. */
  lemma {:induction false} ClosedIsFinal(s: State, calls: seq<Call>)
    requires Framed(s) && Closed(s.out)
    ensures Run(s, calls).out == s.out
    decreases |calls|
  {
    if calls != [] {
      FramedStep(s, calls[0]);
      assert Apply(s, calls[0]).out == s.out;
      ClosedIsFinal(Apply(s, calls[0]), calls[1..]);
    }
  }

  /** `finish` ends the reply, unless it is the first to send and the handler set status 206 itself:
    * the header then announces chunks that never come. */
  lemma FinishCloses(calls: seq<Call>)
    ensures var s := Run(Fresh, calls);
            Closed(Apply(s, Finish).out) <==> s.written || s.status != 206
  {
    AlwaysWellFramed(Fresh, calls);
    FramedStep(Run(Fresh, calls), Finish);
  }

  lemma ExplicitPartialStatusNeverCloses(data: Bytes)
    ensures var out := Run(Fresh, [SetStatusCode(206), Write(data), Finish]).out;
            |out| == 1 && out[0].Header? && out[0].status == 206 && !Closed(out)
  {
    var s1 := Apply(Fresh, SetStatusCode(206));
    var s2 := Apply(s1, Write(data));
    assert Run(Fresh, [SetStatusCode(206), Write(data), Finish]) ==
           Run(s1, [Write(data), Finish]) == Run(s2, [Finish]) == Run(Apply(s2, Finish), []);
  }

  /** A handler that raises leaves a reply that ends exactly if it had sent nothing yet or everything. */
  lemma CrashCloses(calls: seq<Call>)
    ensures var s := Run(Fresh, calls);
            Closed(Apply(s, Crash).out) <==> s.out == [] || Closed(s.out)
  {
    AlwaysWellFramed(Fresh, calls);
    FramedStep(Run(Fresh, calls), Crash);
  }

  // ---------------------------------------------------------------- the messages of a reply

  /** The messages that make up the reply, told from the calls alone.  Until something is sent the status,
    * the headers, those kept for `clear` and the pending bytes are those of the calls so far; the first
    * sending call puts them into the header message, and no later one can change it. */
  function Messages(calls: seq<Call>, status: int, headers: Headers, extra: Headers, pending: Bytes): seq<Frame> {
    if calls == [] then []
    else
      var rest := calls[1..];
      match calls[0]
      case Write(data) => Messages(rest, status, headers, extra, pending + data)
      case SetStatusCode(code) => Messages(rest, code, headers, extra, pending)
      case SetHeader(k, v) => Messages(rest, status, headers[k := Text(v)], extra, pending)
      case SetExtraHeader(k, v) => Messages(rest, status, headers[k := Text(v)], extra[k := Text(v)], pending)
      case RemoveHeader(k) => Messages(rest, status, headers - {k}, extra, pending)
      case Truncate => Messages(rest, status, headers, extra, [])
      case Clear => Messages(rest, status, extra, extra, [])
      case Flush =>
        if status == 200 || status == 206 then [Header(206, headers, pending)] + Chunks(rest, [], false)
        else [Header(status, headers, pending)]
      case Finish =>
        var sized := if pending == [] then headers else headers[CONTENT_LENGTH := Number(|pending|)];
        [Header(status, sized, pending)] + if status == 206 then Chunks(rest, [], true) else []
      case SendError(code, message) =>
        [Header(code, headers, message)] + if code == 206 then Chunks(rest, pending, true) else []
      case Crash => [Header(500, headers, INTERNAL_ERROR)]
  }

  /** The messages behind a 206 header: one for each flush, and the end mark of the first flush after the
    * end was requested. */
  function Chunks(calls: seq<Call>, pending: Bytes, finished: bool): seq<Frame> {
    if calls == [] then []
    else
      var rest := calls[1..];
      match calls[0]
      case Write(data) => Chunks(rest, pending + data, finished)
      case Truncate => Chunks(rest, [], finished)
      case Clear => Chunks(rest, [], finished)
      case Flush =>
        [Chunk(pending, true)] + if finished then [Chunk([], false)] else Chunks(rest, [], false)
      case Finish => [Chunk(pending, true), Chunk([], false)]
      case _ => Chunks(rest, pending, finished)
  }

  lemma {:induction false} ShutSendsNothing(s: State, calls: seq<Call>)
    requires s.written && s.status != 206
    ensures Run(s, calls).out == s.out
    decreases |calls|
  {
    if calls != [] {
      ShutSendsNothing(Apply(s, calls[0]), calls[1..]);
    }
  }

  lemma ChunkedCall(s: State, c: Call)
    requires s.written && s.status == 206
    ensures var t := Apply(s, c);
            && t.written
            && (if c.Finish? || (c.Flush? && s.finished) then
                  t.status == 200 && t.out == s.out + [Chunk(s.buffer, true), Chunk([], false)]
                else
                  && t.status == 206 && t.finished == s.finished
                  && t.out == s.out + (if c.Flush? then [Chunk(s.buffer, true)] else [])
                  && t.buffer == if c.Write? then s.buffer + c.data
                                 else if c.Truncate? || c.Clear? || c.Flush? then [] else s.buffer)
  {
  }

  lemma {:induction false} ChunksAreSent(s: State, calls: seq<Call>)
    requires s.written && s.status == 206
    ensures Run(s, calls).out == s.out + Chunks(calls, s.buffer, s.finished)
    decreases |calls|
  {
    hide Apply;
    if calls != [] {
      var c, t, rest := calls[0], Apply(s, calls[0]), calls[1..];
      ChunkedCall(s, c);
      if t.status == 206 {
        ChunksAreSent(t, rest);
        assert t.out + Chunks(rest, t.buffer, t.finished) == s.out + Chunks(calls, s.buffer, s.finished);
      } else {
        ShutSendsNothing(t, rest);
      }
    }
  }

  predicate Sends(c: Call) {
    c.Flush? || c.Finish? || c.SendError? || c.Crash?
  }

  lemma QuietCall(s: State, calls: seq<Call>)
    requires !s.written && calls != [] && !Sends(calls[0])
    ensures var t := Apply(s, calls[0]);
            && t.out == s.out && !t.written && t.finished == s.finished
            && Messages(calls, s.status, s.headers, s.extra, s.buffer) ==
               Messages(calls[1..], t.status, t.headers, t.extra, t.buffer)
  {
  }

  lemma SendingCall(s: State, calls: seq<Call>)
    requires !s.written && s.out == [] && !s.finished && calls != [] && Sends(calls[0])
    ensures var t := Apply(s, calls[0]);
            && t.written
            && Messages(calls, s.status, s.headers, s.extra, s.buffer) ==
               t.out + if t.status == 206 then Chunks(calls[1..], t.buffer, t.finished) else []
  {
  }

  lemma {:induction false} ReplyIsSent(s: State, calls: seq<Call>)
    requires !s.written && s.out == [] && !s.finished
    ensures Run(s, calls).out == Messages(calls, s.status, s.headers, s.extra, s.buffer)
    decreases |calls|
  {
    hide Apply, Messages, Chunks;
    if calls == [] {
      NothingIsSent(s);
    } else {
      var t := Apply(s, calls[0]);
      if Sends(calls[0]) {
        SendingCall(s, calls);
        if t.status == 206 {
          ChunksAreSent(t, calls[1..]);
        } else {
          ShutSendsNothing(t, calls[1..]);
        }
      } else {
        QuietCall(s, calls);
        ReplyIsSent(t, calls[1..]);
      }
    }
  }

  lemma NothingIsSent(s: State)
    ensures Messages([], s.status, s.headers, s.extra, s.buffer) == []
  {
  }

  /** The messages of the reply to one request. */
  function Told(calls: seq<Call>): seq<Frame> {
    Messages(calls, 200, map[], map[], [])
  }

  /** Over every call sequence the messages sent are exactly those of `Messages`: status and headers as the
    * calls before the first send left them, and one message for each flush of a streamed answer. */
  lemma ReplyExact(calls: seq<Call>)
    ensures Run(Fresh, calls).out == Told(calls)
  {
    ReplyIsSent(Fresh, calls);
  }

  // ---------------------------------------------------------------- the bytes of a reply

  function Payload(out: seq<Frame>): Bytes {
    if out == [] then [] else Payload(out[..|out| - 1]) + out[|out| - 1].body
  }

  /** The bytes that a reader of the reply is owed, told from the calls alone.  Before the header, the
    * first sending call settles the reply: only a flush at status 200 (or an explicit 206) lets
    * anything written later through. */
  function Owed(calls: seq<Call>, status: int, pending: Bytes): Bytes {
    if calls == [] then []
    else
      var rest := calls[1..];
      match calls[0]
      case Write(data) => Owed(rest, status, pending + data)
      case SetStatusCode(code) => Owed(rest, code, pending)
      case Truncate => Owed(rest, status, [])
      case Clear => Owed(rest, status, [])
      case Flush => pending + if status == 200 || status == 206 then OwedMore(rest, [], false) else []
      case Finish => pending + if status == 206 then OwedMore(rest, [], true) else []
      case SendError(code, message) => message + if code == 206 then OwedMore(rest, pending, true) else []
      case Crash => INTERNAL_ERROR
      case _ => Owed(rest, status, pending)
  }

  /** The same once a 206 header is out: each flush lets the pending bytes through, and the first
    * flush after the end was requested is the last. */
  function OwedMore(calls: seq<Call>, pending: Bytes, finished: bool): Bytes {
    if calls == [] then []
    else
      var rest := calls[1..];
      match calls[0]
      case Write(data) => OwedMore(rest, pending + data, finished)
      case Truncate => OwedMore(rest, [], finished)
      case Clear => OwedMore(rest, [], finished)
      case Flush => pending + if finished then [] else OwedMore(rest, [], false)
      case Finish => pending
      case _ => OwedMore(rest, pending, finished)
  }

  lemma PayloadSnoc(out: seq<Frame>, f: Frame)
    ensures Payload(out + [f]) == Payload(out) + f.body
  {
    assert (out + [f])[..|out|] == out;
  }

  lemma PayloadSingle(f: Frame)
    ensures Payload([f]) == f.body
  {
    PayloadSnoc([], f);
    assert [] + [f] == [f];
  }

  lemma SentBytes(s: State, data: Bytes, more: bool)
    requires !s.written || s.status == 206
    ensures Payload(AfterSend(s, data, more).out) == Payload(s.out) + data
  {
    var t := AfterSend(s, data, more);
    PayloadSnoc(s.out, t.out[|s.out|]);
  }

  /** A flush on an open 206 reply sends the buffer, and closes the reply if the end was requested. */
  lemma FlushedBytes(s: State)
    requires s.written && s.status == 206
    ensures var t := AfterFlush(s);
            && Payload(t.out) == Payload(s.out) + s.buffer
            && t.written && t.buffer == [] && t.finished == s.finished
            && t.status == if s.finished then 200 else 206
  {
    SentBytes(s, s.buffer, true);
    SentBytes(AfterSend(s, s.buffer, true), [], false);
  }

  /** The first flush sends the header with the buffer; only status 206 leaves the reply open. */
  lemma FirstFlush(s: State)
    requires !s.written && s.out == []
    ensures var t := AfterFlush(s);
            && Payload(t.out) == s.buffer
            && t.written && t.buffer == [] && t.finished == s.finished
            && t.status == if !s.finished && s.status == 200 then 206 else s.status
  {
    SentBytes(s, s.buffer, !s.finished);
  }

  lemma {:induction false} PayloadConcat(a: seq<Frame>, b: seq<Frame>)
    ensures Payload(a + b) == Payload(a) + Payload(b)
  {
    if b == [] {
      assert a + b == a;
    } else {
      assert (a + b)[..|a + b| - 1] == a + b[..|b| - 1];
      PayloadConcat(a, b[..|b| - 1]);
    }
  }

  lemma PayloadHead(f: Frame, rest: seq<Frame>)
    ensures Payload([f] + rest) == f.body + Payload(rest)
  {
    PayloadSingle(f);
    PayloadConcat([f], rest);
  }

  lemma {:induction false} ChunksCarry(calls: seq<Call>, pending: Bytes, finished: bool)
    ensures Payload(Chunks(calls, pending, finished)) == OwedMore(calls, pending, finished)
  {
    if calls != [] {
      var c, rest := calls[0], calls[1..];
      PayloadSingle(Chunk([], false));
      PayloadHead(Chunk(pending, true), [Chunk([], false)]);
      assert [Chunk(pending, true)] + [Chunk([], false)] == [Chunk(pending, true), Chunk([], false)];
      PayloadHead(Chunk(pending, true), Chunks(rest, [], false));
      var left :=
        if c.Write? then pending + c.data else if c.Truncate? || c.Clear? || c.Flush? then [] else pending;
      ChunksCarry(rest, left, finished);
      if c.Flush? && !finished {
        ChunksCarry(rest, [], false);
      }
    }
  }

  lemma {:induction false} MessagesCarry(
      calls: seq<Call>, status: int, headers: Headers, extra: Headers, pending: Bytes)
    ensures Payload(Messages(calls, status, headers, extra, pending)) == Owed(calls, status, pending)
    decreases |calls|
  {
    if calls != [] {
      var c, rest := calls[0], calls[1..];
      match c {
        case Write(data) => MessagesCarry(rest, status, headers, extra, pending + data);
        case SetStatusCode(code) => MessagesCarry(rest, code, headers, extra, pending);
        case SetHeader(k, v) => MessagesCarry(rest, status, headers[k := Text(v)], extra, pending);
        case SetExtraHeader(k, v) =>
          MessagesCarry(rest, status, headers[k := Text(v)], extra[k := Text(v)], pending);
        case RemoveHeader(k) => MessagesCarry(rest, status, headers - {k}, extra, pending);
        case Truncate => MessagesCarry(rest, status, headers, extra, []);
        case Clear => MessagesCarry(rest, status, extra, extra, []);
        case _ => FirstMessageCarries(calls, status, headers, extra, pending);
      }
    }
  }

  lemma FirstMessageCarries(calls: seq<Call>, status: int, headers: Headers, extra: Headers, pending: Bytes)
    requires calls != [] && Sends(calls[0])
    ensures Payload(Messages(calls, status, headers, extra, pending)) == Owed(calls, status, pending)
  {
    hide Payload, Chunks, OwedMore;
    var rest, out := calls[1..], Messages(calls, status, headers, extra, pending);
    var behind := out[1..];
    assert out == [out[0]] + behind;
    PayloadHead(out[0], behind);
    PayloadOfNothing();
    ChunksCarry(rest, [], false);
    ChunksCarry(rest, [], true);
    ChunksCarry(rest, pending, true);
  }

  lemma PayloadOfNothing()
    ensures Payload([]) == []
  {
  }

  lemma OwedMoreIsSent(s: State, calls: seq<Call>)
    requires s.written && s.status == 206
    ensures Payload(Run(s, calls).out) == Payload(s.out) + OwedMore(calls, s.buffer, s.finished)
  {
    ChunksAreSent(s, calls);
    PayloadConcat(s.out, Chunks(calls, s.buffer, s.finished));
    ChunksCarry(calls, s.buffer, s.finished);
  }

  /** Over every call sequence the reply carries exactly the bytes it owes: after the first send with
    * another status than 200 or 206 no later byte goes out. */
  lemma PayloadExact(calls: seq<Call>)
    ensures Payload(Run(Fresh, calls).out) == Owed(calls, 200, [])
  {
    ReplyExact(calls);
    MessagesCarry(calls, 200, map[], map[], []);
  }

  lemma FinishedReply(calls: seq<Call>)
    ensures var out := Run(Fresh, calls + [Finish]).out;
            && out != [] && WellFramed(out)
            && (Closed(out) <==> Run(Fresh, calls).written || Run(Fresh, calls).status != 206)
            && Payload(out) == Owed(calls + [Finish], 200, [])
  {
    RunSnoc(calls, Finish);
    AlwaysWellFramed(Fresh, calls);
    AlwaysWellFramed(Fresh, calls + [Finish]);
    FinishCloses(calls);
    PayloadExact(calls + [Finish]);
  }

  function Written(calls: seq<Call>): Bytes {
    if calls == [] then []
    else (if calls[0].Write? then calls[0].data else []) + Written(calls[1..])
  }

  /** Calls of a plain successful answer: writes, flushes and header changes. */
  predicate Streams(calls: seq<Call>) {
    forall c :: c in calls ==> c.Write? || c.Flush? || c.SetHeader? || c.SetExtraHeader? || c.RemoveHeader?
  }

  predicate Streaming(s: State) {
    !s.finished && if s.written then s.status == 206 else s.status == 200 && s.out == []
  }

  /** Everything written so far, sent or still buffered. */
  function Produced(s: State): Bytes {
    Payload(s.out) + s.buffer
  }

  lemma StreamingCall(s: State, c: Call)
    requires Streaming(s) && Streams([c])
    ensures Streaming(Apply(s, c))
    ensures Produced(Apply(s, c)) == Produced(s) + Written([c])
  {
    assert c in [c];
    if c.Flush? {
      SentBytes(s, s.buffer, true);
    }
  }

  lemma {:induction false} StreamingKeepsBytes(s: State, calls: seq<Call>)
    requires Streaming(s) && Streams(calls)
    ensures Streaming(Run(s, calls))
    ensures Produced(Run(s, calls)) == Produced(s) + Written(calls)
    decreases |calls|
  {
    if calls != [] {
      var first, rest := [calls[0]], calls[1..];
      assert calls == first + rest;
      StreamingCall(s, calls[0]);
      StreamingKeepsBytes(Apply(s, calls[0]), rest);
      assert Written(calls) == Written(first) + Written(rest);
    }
  }

  /** A plain answer is sent whole and closed, whatever is called after `finish`. */
  lemma StreamIsLossless(calls: seq<Call>, later: seq<Call>)
    requires Streams(calls)
    ensures var out := Run(Fresh, calls + [Finish] + later).out;
            WellFramed(out) && Closed(out) && Payload(out) == Written(calls)
  {
    var s := Run(Fresh, calls);
    AlwaysWellFramed(Fresh, calls);
    StreamingKeepsBytes(Fresh, calls);
    FinishCloses(calls);
    if s.written {
      FlushedBytes(s.(finished := true));
    } else {
      FirstFlush(s.(finished := true));
    }
    RunSnoc(calls, Finish);
    RunConcat(Fresh, calls + [Finish], later);
    FramedStep(s, Finish);
    ClosedIsFinal(Apply(s, Finish), later);
  }

  /** The header of the reply announces the length of all its bytes. */
  ghost predicate LengthAnnounced(out: seq<Frame>) {
    && out != []
    && out[0].Header?
    && CONTENT_LENGTH in out[0].headers
    && out[0].headers[CONTENT_LENGTH] == Number(|Payload(out)|)
  }

  lemma FinishSizes(s: State)
    requires Framed(s) && !s.written && s.buffer != []
    ensures var t := Apply(s, Finish);
            && Framed(t) && t.written && t.finished && t.buffer == [] && t.status == s.status
            && t.out == [Header(s.status, s.headers[CONTENT_LENGTH := Number(|s.buffer|)], s.buffer)]
            && Payload(t.out) == s.buffer
  {
    FramedStep(s, Finish);
    PayloadSingle(Header(s.status, s.headers[CONTENT_LENGTH := Number(|s.buffer|)], s.buffer));
  }

  lemma {:induction false} GrowsOnly(s: State, calls: seq<Call>)
    ensures s.out <= Run(s, calls).out
    decreases |calls|
  {
    if calls != [] {
      OneCallGrows(s, calls[0]);
      GrowsOnly(Apply(s, calls[0]), calls[1..]);
    }
  }

  lemma OneCallGrows(s: State, c: Call)
    ensures s.out <= Apply(s, c).out
  {
  }

  /** An open reply whose end was already requested still takes one more byte. */
  lemma OpenReplyGrows(t: State)
    requires Framed(t) && t.written && t.status == 206 && t.finished && t.buffer == []
    ensures |Payload(Run(t, [Write([0]), Finish]).out)| == |Payload(t.out)| + 1
    ensures t.out <= Run(t, [Write([0]), Finish]).out
  {
    var calls := [Write([0]), Finish];
    OwedMoreIsSent(t, calls);
    GrowsOnly(t, calls);
    assert calls[1..] == [Finish];
    assert OwedMore(calls, [], true) == OwedMore([Finish], [] + [0], true) == [0];
  }

  /** The Content-Length that `flush` puts on a finishing reply is the length of the whole body
    * (section 8.6 of RFC 9110), unless the status was explicitly 206: the reply stays open then and
    * may grow. */
  lemma ContentLengthExact(s: State)
    requires Framed(s) && !s.written && s.buffer != []
    ensures (forall calls :: LengthAnnounced(Run(Apply(s, Finish), calls).out)) <==> s.status != 206
  {
    var t := Apply(s, Finish);
    FinishSizes(s);
    if s.status != 206 {
      forall calls ensures LengthAnnounced(Run(t, calls).out) {
        ClosedIsFinal(t, calls);
      }
    } else {
      OpenReplyGrows(t);
      assert !LengthAnnounced(Run(t, [Write([0]), Finish]).out);
    }
  }

  /** What is called too late is ignored: once the header message is out, no status, header or error can be
    * set, and an extra header is only kept for a later `clear`. */
  lemma LateCallsAreIgnored(calls: seq<Call>, c: Call)
    requires Run(Fresh, calls).out != []
    requires c.SetStatusCode? || c.SetHeader? || c.SetExtraHeader? || c.SendError? || c.Crash?
    ensures var s := Run(Fresh, calls);
            Run(Fresh, calls + [c]) == if c.SetExtraHeader? then s.(extra := s.extra[c.key := Text(c.value)]) else s
  {
    AlwaysWellFramed(Fresh, calls);
    RunSnoc(calls, c);
  }

  // ---------------------------------------------------------------- the objects

  class RequestHandler {
    var headers: Headers
    var statusCode: int
    var headerWritten: bool
    var sent: seq<Frame>

    constructor ()
      ensures headers == map[] && statusCode == 200 && !headerWritten && sent == []
    {
      headers, statusCode, headerWritten, sent := map[], 200, false, [];
    }

    /** The messages go to the socket in call order; `sent` stands for what the socket took. */
    method Send(data: Bytes, more: bool)
      modifies this
      ensures headers == old(headers)
      ensures forall extra, buffer, finished :: View(extra, buffer, finished) ==
                AfterSend(old(View(extra, buffer, finished)), data, more)
    {
      if !headerWritten {
        if more && statusCode == 200 {
          statusCode := 206;
        }
        sent := sent + [Header(statusCode, headers, data)];
        headerWritten := true;
      } else if statusCode == 206 {
        sent := sent + [Chunk(data, more)];
        if !more {
          statusCode := 200;
        }
      }
    }

    ghost function View(extra: Headers, buffer: Bytes, finished: bool): State
      reads this
    {
      State(headers, extra, statusCode, headerWritten, buffer, finished, sent)
    }
  }

  class Response {
    const handler: RequestHandler
    var buffer: Bytes
    var isFinished: bool
    var extraHeaders: Headers

    ghost function View(): State
      reads this, handler
    {
      handler.View(extraHeaders, buffer, isFinished)
    }

    constructor (handler: RequestHandler)
      ensures this.handler == handler
      ensures View() == handler.View(map[], [], false)
    {
      this.handler := handler;
      buffer, isFinished, extraHeaders := [], false, map[];
    }

    method Write(data: Bytes)
      modifies this`buffer
      ensures View() == Apply(old(View()), Call.Write(data))
    {
      buffer := buffer + data;
    }

    method SetStatusCode(code: int)
      modifies handler`statusCode
      ensures View() == Apply(old(View()), Call.SetStatusCode(code))
    {
      if !handler.headerWritten {
        handler.statusCode := code;
      }
    }

    method SetHeader(key: string, value: string)
      modifies handler`headers
      ensures View() == Apply(old(View()), Call.SetHeader(key, value))
    {
      if !handler.headerWritten {
        handler.headers := handler.headers[key := Text(value)];
      }
    }

    method SetExtraHeader(key: string, value: string)
      modifies this`extraHeaders, handler`headers
      ensures View() == Apply(old(View()), Call.SetExtraHeader(key, value))
    {
      extraHeaders := extraHeaders[key := Text(value)];
      SetHeader(key, value);
    }

    method RemoveHeader(key: string)
      modifies handler`headers
      ensures View() == Apply(old(View()), Call.RemoveHeader(key))
    {
      handler.headers := handler.headers - {key};
    }

    method Flush()
      modifies this`buffer, handler
      ensures View() == Apply(old(View()), Call.Flush)
    {
      if isFinished && |buffer| > 0 {
        handler.headers := handler.headers[CONTENT_LENGTH := Number(|buffer|)];
      }
      var sendMore := !isFinished || handler.headerWritten;
      if |buffer| > 0 {
        handler.Send(buffer, sendMore);
        buffer := [];
      } else {
        handler.Send([], sendMore);
      }
      if sendMore && isFinished {
        handler.Send([], false);
      }
    }

    method Finish()
      modifies this`buffer, this`isFinished, handler
      ensures View() == Apply(old(View()), Call.Finish)
    {
      isFinished := true;
      Flush();
    }

    method SendError(code: int, message: Bytes)
      modifies this`isFinished, handler
      ensures View() == Apply(old(View()), Call.SendError(code, message))
    {
      if !handler.headerWritten {
        handler.statusCode := code;
        handler.Send(message, false);
        isFinished := true;
      }
    }

    method Truncate()
      modifies this`buffer
      ensures View() == Apply(old(View()), Call.Truncate)
    {
      buffer := [];
    }

    method Clear()
      modifies this`buffer, handler`headers
      ensures View() == Apply(old(View()), Call.Clear)
    {
      handler.headers := extraHeaders;
      Truncate();
    }

    /** What the worker loop does for a handler that raised. */
    method Crash()
      modifies handler
      ensures View() == Apply(old(View()), Call.Crash)
    {
      if !handler.headerWritten {
        handler.statusCode := 500;
        handler.Send(INTERNAL_ERROR, false);
      }
    }
  }
}
