/** The balancer between the two ends: many workers answer through it at once, and what reaches the
  * client under one correlation id is still one reply, from one worker, in order. */
module Network {
  import opened Wire
  import opened Framing
  import Broker
  import Client
  import EndToEnd
  import Supervisor

  type Request = Broker.Request
  type Label = Broker.Label

  /** The code that the balancer sends when its queue is full: b"509". */
  const QUEUE_FULL: Bytes := [53, 48, 57]

  /** How messages are written and read: reading gives back what was written. */
  ghost predicate Inverse(encode: Frame -> Bytes, decode: Bytes -> Frame) {
    forall f :: decode(encode(f)) == f
  }

  predicate Same(r: Request, q: Request) {
    r.client == q.client && r.msgid == q.msgid
  }

  // ---------------------------------------------------------------- the workers

  /** The messages that carry a reply, each under the client and the id of its request. */
  function Addressed(r: Request, out: seq<Frame>, encode: Frame -> Bytes): seq<Request> {
    if out == [] then []
    else Addressed(r, out[..|out| - 1], encode) + [Broker.Request(r.client, r.msgid, encode(out[|out| - 1]))]
  }

  /** What a worker sends that answers one request after the other. */
  function Answers(rs: seq<Request>, answer: Request -> seq<Frame>, encode: Frame -> Bytes): seq<Request> {
    if rs == [] then []
    else
      var r := rs[|rs| - 1];
      Answers(rs[..|rs| - 1], answer, encode) + Addressed(r, answer(r), encode)
  }

  /** The requests sent to `w`, in order. */
  function Given(trace: seq<Label>, w: Bytes): seq<Request> {
    if trace == [] then []
    else
      var before, l := Given(trace[..|trace| - 1], w), trace[|trace| - 1];
      if l.Send? && l.to == w then before + [l.sent.request] else before
  }

  /** The reply messages received from `w`, in order. */
  function Said(trace: seq<Label>, w: Bytes): seq<Request> {
    if trace == [] then []
    else
      var before, l := Said(trace[..|trace| - 1], w), trace[|trace| - 1];
      if l.Relay? && l.worker == w then before + [l.reply] else before
  }

  /** Each worker handles its requests one after the other, and its messages arrive in order. */
  ghost predicate Sequential(trace: seq<Label>, answer: Request -> seq<Frame>, encode: Frame -> Bytes) {
    forall w :: Said(trace, w) <= Answers(Given(trace, w), answer, encode)
  }

  // ---------------------------------------------------------------- the client's side

  /** What the balancer sends to the client of `r` under the id of `r`. */
  function Outgoing(trace: seq<Label>, r: Request, decode: Bytes -> Frame): seq<Client.Packet> {
    if trace == [] then []
    else
      var before, l := Outgoing(trace[..|trace| - 1], r, decode), trace[|trace| - 1];
      if l.Relay? && l.delivered && Same(l.reply, r) then before + [Client.Part(decode(l.reply.data))]
      else if l.Reject? && Same(l.request, r) then before + [Client.Refusal(QUEUE_FULL)]
      else before
  }

  /** The client gives each request an id of its own, and is there to receive the replies. */
  ghost predicate Sole(trace: seq<Label>, r: Request) {
    forall l :: l in trace ==>
      && (l.Accept? && Same(l.accepted.request, r) ==> l.accepted.request == r)
      && (l.Reject? && Same(l.request, r) ==> l.request == r)
      && (l.Relay? && Same(l.reply, r) ==> l.delivered)
  }

  function Parts(out: seq<Frame>): seq<Client.Packet> {
    if out == [] then [] else Parts(out[..|out| - 1]) + [Client.Part(out[|out| - 1])]
  }

  /** The messages among `ms` that answer `r`, as the client reads them. */
  function Mine(ms: seq<Request>, r: Request, decode: Bytes -> Frame): seq<Client.Packet> {
    if ms == [] then []
    else
      var m := ms[|ms| - 1];
      Mine(ms[..|ms| - 1], r, decode) + if Same(m, r) then [Client.Part(decode(m.data))] else []
  }

  function Times(rs: seq<Request>, r: Request): nat {
    if rs == [] then 0 else Times(rs[..|rs| - 1], r) + if rs[|rs| - 1] == r then 1 else 0
  }

  // ---------------------------------------------------------------- one worker, one reply

  lemma {:induction false} MineConcat(a: seq<Request>, b: seq<Request>, r: Request, decode: Bytes -> Frame)
    ensures Mine(a + b, r, decode) == Mine(a, r, decode) + Mine(b, r, decode)
  {
    if b == [] {
      assert a + b == a;
    } else {
      assert (a + b)[..|a + b| - 1] == a + b[..|b| - 1];
      MineConcat(a, b[..|b| - 1], r, decode);
    }
  }

  lemma MineOfPrefix(a: seq<Request>, b: seq<Request>, r: Request, decode: Bytes -> Frame)
    requires a <= b
    ensures Mine(a, r, decode) <= Mine(b, r, decode)
  {
    assert b == a + b[|a|..];
    MineConcat(a, b[|a|..], r, decode);
  }

  lemma {:induction false} MineOfReply(
      q: Request, out: seq<Frame>, r: Request, encode: Frame -> Bytes, decode: Bytes -> Frame)
    requires Inverse(encode, decode)
    ensures Mine(Addressed(q, out, encode), r, decode) == if Same(q, r) then Parts(out) else []
  {
    if out != [] {
      MineOfReply(q, out[..|out| - 1], r, encode, decode);
      var ms := Addressed(q, out, encode);
      assert ms[..|ms| - 1] == Addressed(q, out[..|out| - 1], encode);
    }
  }

  /** A worker that was given `r` at most once answers it with the one reply, and says nothing else
    * under its id. */
  lemma {:induction false} MineOfAnswers(
      rs: seq<Request>, r: Request, answer: Request -> seq<Frame>, encode: Frame -> Bytes, decode: Bytes -> Frame)
    requires Inverse(encode, decode)
    requires forall q :: q in rs && Same(q, r) ==> q == r
    requires Times(rs, r) <= 1
    ensures Mine(Answers(rs, answer, encode), r, decode) == if Times(rs, r) == 1 then Parts(answer(r)) else []
  {
    if rs != [] {
      var before, q := rs[..|rs| - 1], rs[|rs| - 1];
      assert q in rs;
      MineOfAnswers(before, r, answer, encode, decode);
      MineConcat(Answers(before, answer, encode), Addressed(q, answer(q), encode), r, decode);
      MineOfReply(q, answer(q), r, encode, decode);
    }
  }

  lemma {:induction false} GivenOnce(trace: seq<Label>, r: Request, w: Bytes, v: Bytes)
    ensures Times(Given(trace, w), r) <= Broker.Count(trace, Broker.Dispatched, r)
    ensures v != w ==>
              Times(Given(trace, w), r) + Times(Given(trace, v), r) <= Broker.Count(trace, Broker.Dispatched, r)
  {
    if trace != [] {
      var before, l := trace[..|trace| - 1], trace[|trace| - 1];
      GivenOnce(before, r, w, v);
      if l.Send? {
        TimesSnoc(Given(before, l.to), l.sent.request, r);
      }
    }
  }

  lemma TimesSnoc(rs: seq<Request>, q: Request, r: Request)
    ensures Times(rs + [q], r) == Times(rs, r) + if q == r then 1 else 0
  {
    assert (rs + [q])[..|rs|] == rs;
  }

  lemma {:induction false} GivenIsDispatched(trace: seq<Label>, w: Bytes, q: Request)
    requires q in Given(trace, w)
    ensures Broker.Count(trace, Broker.Dispatched, q) >= 1
  {
    var before, l := trace[..|trace| - 1], trace[|trace| - 1];
    if q in Given(before, w) {
      GivenIsDispatched(before, w, q);
    }
  }

  lemma {:induction false} ReceivedFrom(trace: seq<Label>, q: Request) returns (l: Label)
    requires Broker.Count(trace, Broker.Received, q) >= 1
    ensures l in trace && Broker.HasFate(l, Broker.Received, q)
  {
    l := trace[|trace| - 1];
    if !Broker.HasFate(l, Broker.Received, q) {
      l := ReceivedFrom(trace[..|trace| - 1], q);
    }
  }

  /** A worker is only given requests that were received, so none but `r` under the id of `r`. */
  lemma GivenIsSole(config: Broker.Config, trace: seq<Label>, r: Request, w: Bytes)
    requires Broker.Legal(config, trace) && Sole(trace, r)
    ensures forall q :: q in Given(trace, w) && Same(q, r) ==> q == r
  {
    forall q | q in Given(trace, w) && Same(q, r) ensures q == r {
      GivenIsDispatched(trace, w, q);
      Broker.Conservation(config, trace, q);
      var l := ReceivedFrom(trace, q);
    }
  }

  ghost predicate OnlyFrom(trace: seq<Label>, r: Request, w: Bytes, decode: Bytes -> Frame) {
    forall v :: v != w ==> Mine(Said(trace, v), r, decode) == []
  }

  lemma OnlyFromBefore(trace: seq<Label>, r: Request, w: Bytes, decode: Bytes -> Frame)
    requires trace != [] && OnlyFrom(trace, r, w, decode)
    ensures var before, l := trace[..|trace| - 1], trace[|trace| - 1];
            && OnlyFrom(before, r, w, decode)
            && (l.Relay? && Same(l.reply, r) ==> l.worker == w)
  {
    var before, l := trace[..|trace| - 1], trace[|trace| - 1];
    if l.Relay? {
      MineSnoc(Said(before, l.worker), l.reply, r, decode);
      assert Said(trace, l.worker) == Said(before, l.worker) + [l.reply];
      assert l.worker != w ==> Mine(Said(trace, l.worker), r, decode) == [];
    }
    forall v | v != w ensures Mine(Said(before, v), r, decode) == [] {
      assert Mine(Said(trace, v), r, decode) == [];
    }
  }

  lemma MineSnoc(ms: seq<Request>, m: Request, r: Request, decode: Bytes -> Frame)
    ensures Mine(ms + [m], r, decode) ==
            Mine(ms, r, decode) + if Same(m, r) then [Client.Part(decode(m.data))] else []
  {
    assert (ms + [m])[..|ms|] == ms;
  }

  lemma SoleBefore(trace: seq<Label>, r: Request)
    requires trace != [] && Sole(trace, r)
    ensures Sole(trace[..|trace| - 1], r)
    ensures var l := trace[|trace| - 1];
            && (l.Reject? && Same(l.request, r) ==> l.request == r)
            && (l.Relay? && Same(l.reply, r) ==> l.delivered)
  {
    assert trace[|trace| - 1] in trace;
  }

  /** When one worker speaks under an id, what goes out is what it says, in its order. */
  lemma {:induction false} OutgoingIsSaid(trace: seq<Label>, r: Request, w: Bytes, decode: Bytes -> Frame)
    requires Sole(trace, r) && OnlyFrom(trace, r, w, decode)
    requires Broker.Count(trace, Broker.Rejected, r) == 0
    ensures Outgoing(trace, r, decode) == Mine(Said(trace, w), r, decode)
  {
    hide Sole, OnlyFrom;
    if trace != [] {
      var before, l := trace[..|trace| - 1], trace[|trace| - 1];
      SoleBefore(trace, r);
      OnlyFromBefore(trace, r, w, decode);
      OutgoingIsSaid(before, r, w, decode);
      if l.Relay? {
        MineSnoc(Said(before, w), l.reply, r, decode);
      }
    }
  }

  /** When none does, what goes out are the refusals. */
  lemma {:induction false} OutgoingIsRefusal(trace: seq<Label>, r: Request, decode: Bytes -> Frame)
    requires Sole(trace, r) && forall w :: Mine(Said(trace, w), r, decode) == []
    requires Broker.Count(trace, Broker.Rejected, r) <= 1
    ensures Outgoing(trace, r, decode) ==
            if Broker.Count(trace, Broker.Rejected, r) == 1 then [Client.Refusal(QUEUE_FULL)] else []
  {
    hide Sole;
    if trace != [] {
      var before, l := trace[..|trace| - 1], trace[|trace| - 1];
      SoleBefore(trace, r);
      if l.Relay? {
        MineSnoc(Said(before, l.worker), l.reply, r, decode);
        assert Said(trace, l.worker) == Said(before, l.worker) + [l.reply];
        assert Mine(Said(trace, l.worker), r, decode) == [];
      }
      forall w ensures Mine(Said(before, w), r, decode) == [] {
        assert Mine(Said(trace, w), r, decode) == [];
      }
      OutgoingIsRefusal(before, r, decode);
    }
  }

  /** What one worker says under the id of `r`: the start of the reply if it was given `r`, and nothing
    * if it was not. */
  lemma SaidIsReply(
      config: Broker.Config, trace: seq<Label>, r: Request, w: Bytes,
      answer: Request -> seq<Frame>, encode: Frame -> Bytes, decode: Bytes -> Frame)
    requires Broker.Legal(config, trace) && Sole(trace, r)
    requires Sequential(trace, answer, encode) && Inverse(encode, decode)
    requires Broker.Count(trace, Broker.Received, r) == 1
    ensures Times(Given(trace, w), r) <= 1
    ensures Mine(Said(trace, w), r, decode) <= if Times(Given(trace, w), r) == 1 then Parts(answer(r)) else []
  {
    hide Sole, Inverse, Mine, Answers, Times, Given, Said, Broker.Count, Broker.Legal;
    Broker.AtMostOnce(config, trace, r);
    GivenOnce(trace, r, w, w);
    GivenIsSole(config, trace, r, w);
    MineOfAnswers(Given(trace, w), r, answer, encode, decode);
    MineOfPrefix(Said(trace, w), Answers(Given(trace, w), answer, encode), r, decode);
  }

  /** However many workers and requests share the balancer: what goes out to a client under the id of
    * its request is the start of the one reply to that request, in order and from one worker, or else
    * the one refusal. */
  lemma OneReplyInOrder(
      config: Broker.Config, trace: seq<Label>, r: Request,
      answer: Request -> seq<Frame>, encode: Frame -> Bytes, decode: Bytes -> Frame)
    requires Broker.Legal(config, trace) && Sole(trace, r)
    requires Sequential(trace, answer, encode) && Inverse(encode, decode)
    requires Broker.Count(trace, Broker.Received, r) == 1
    ensures Broker.Count(trace, Broker.Rejected, r) == 0 ==> Outgoing(trace, r, decode) <= Parts(answer(r))
    ensures Broker.Count(trace, Broker.Rejected, r) > 0 ==>
              Outgoing(trace, r, decode) == [Client.Refusal(QUEUE_FULL)]
  {
    hide Sole, Inverse, Sequential;
    Broker.AtMostOnce(config, trace, r);
    if w :| Times(Given(trace, w), r) == 1 {
      GivenOnce(trace, r, w, w);
      forall v | v != w ensures Mine(Said(trace, v), r, decode) == [] {
        GivenOnce(trace, r, w, v);
        SaidIsReply(config, trace, r, v, answer, encode, decode);
      }
      SaidIsReply(config, trace, r, w, answer, encode, decode);
      OutgoingIsSaid(trace, r, w, decode);
    } else {
      forall w ensures Mine(Said(trace, w), r, decode) == [] {
        SaidIsReply(config, trace, r, w, answer, encode, decode);
      }
      OutgoingIsRefusal(trace, r, decode);
    }
  }

  // ---------------------------------------------------------------- from the worker's calls to the consumer

  lemma {:induction false} PartsAre(out: seq<Frame>)
    ensures |Parts(out)| == |out| && forall i :: 0 <= i < |out| ==> Parts(out)[i] == Client.Part(out[i])
  {
    if out != [] {
      PartsAre(out[..|out| - 1]);
    }
  }

  /** The client's run receives, under the id of `r`, the first of the messages that went out for it, and
    * no wait for it times out. */
  ghost predicate Connected(
      trace: seq<Label>, r: Request, decode: Bytes -> Frame, events: seq<Client.Event>)
  {
    var mine := Client.Project(events, r.msgid);
    && EndToEnd.Patient(mine) && mine != [] && mine[0].Fetch?
    && EndToEnd.Arrived(mine) <= Outgoing(trace, r, decode)
  }

  lemma Carried(
      config: Broker.Config, trace: seq<Label>, r: Request, events: seq<Client.Event>,
      answer: Request -> seq<Frame>, encode: Frame -> Bytes, decode: Bytes -> Frame)
    requires Broker.Legal(config, trace) && Sole(trace, r)
    requires Sequential(trace, answer, encode) && Inverse(encode, decode)
    requires Broker.Count(trace, Broker.Received, r) == 1 && Broker.Count(trace, Broker.Rejected, r) == 0
    requires Client.Legal(events) && Connected(trace, r, decode, events)
    ensures EndToEnd.Carries(Client.Project(events, r.msgid), answer(r))
  {
    hide Sole, Inverse, Sequential, Outgoing, Parts;
    OneReplyInOrder(config, trace, r, answer, encode, decode);
    Client.Demultiplexed(events, r.msgid);
    PartsAre(answer(r));
  }

  /** The whole way of a request: sent to some worker by a balancer that serves many, answered there by
    * any writes, flushes and header changes and a finish, and read by a client that has other requests
    * under way.  Its consumer stops on its step for the last message, with exactly the bytes that the
    * worker wrote, and is never kept from that step once the reply has arrived. */
  lemma RoundTrip(
      config: Broker.Config, trace: seq<Label>, r: Request, events: seq<Client.Event>,
      calls: seq<Call>, later: seq<Call>,
      answer: Request -> seq<Frame>, encode: Frame -> Bytes, decode: Bytes -> Frame)
    requires Broker.Legal(config, trace) && Sole(trace, r)
    requires Sequential(trace, answer, encode) && Inverse(encode, decode)
    requires Broker.Count(trace, Broker.Received, r) == 1 && Broker.Count(trace, Broker.Rejected, r) == 0
    requires Streams(calls) && answer(r) == Run(Fresh, calls + [Finish] + later).out
    requires Client.Legal(events) && Connected(trace, r, decode, events)
    ensures var s, mine := Client.Run(events), Client.Project(events, r.msgid);
            && r.msgid in s.sessions
            && var session := s.sessions[r.msgid];
               && session.taken <= Written(calls)
               && (session.ended ==> session.taken == Written(calls))
               && (session.fetched ==>
                    var told := Told(calls + [Finish] + later);
                    told != [] && EndToEnd.Announces(session.reply, told[0]))
               && (session.ended <==> EndToEnd.Steps(mine) == |answer(r)|)
               && (|EndToEnd.Arrived(mine)| == |answer(r)| ==>
                    && r.msgid !in Client.Handlers(s)
                    && (session.ended || Client.Enabled(s, Client.Return(r.msgid)) ||
                        Client.Enabled(s, Client.Next(r.msgid))))
  {
    hide *;
    Carried(config, trace, r, events, answer, encode, decode);
    EndToEnd.StreamingRoundTrip(events, r.msgid, calls, later);
  }

  /** The session of a request that is refused once. */
  predicate RefusedIs(s: Client.Session, arrived: bool) {
    && s.taken == [] && !s.fetched && !s.expired
    && (if arrived then !s.registered && s.reply.future == Client.Raised(QUEUE_FULL)
        else s == Client.NewSession)
  }

  lemma {:induction false} RefusedLocally(mine: seq<Client.Event>)
    requires Client.LocallyLegal(mine) && EndToEnd.Patient(mine) && mine != [] && mine[0].Fetch?
    requires EndToEnd.Arrived(mine) <= [Client.Refusal(QUEUE_FULL)]
    ensures Client.LocalRun(mine).Some? && RefusedIs(Client.LocalRun(mine).value, EndToEnd.Arrived(mine) != [])
  {
    var before, e := mine[..|mine| - 1], mine[|mine| - 1];
    if before == [] {
      assert Client.LocalRun(mine) == Some(Client.NewSession);
    } else {
      assert e in mine;
      assert EndToEnd.Arrived(before) <= EndToEnd.Arrived(mine);
      RefusedLocally(before);
    }
  }

  /** The way of a request that finds the queue full: its consumer gets no byte, and once the refusal has
    * arrived the request is forgotten and the consumer raises or has raised. */
  lemma Refused(
      config: Broker.Config, trace: seq<Label>, r: Request, events: seq<Client.Event>,
      answer: Request -> seq<Frame>, encode: Frame -> Bytes, decode: Bytes -> Frame)
    requires Broker.Legal(config, trace) && Sole(trace, r)
    requires Sequential(trace, answer, encode) && Inverse(encode, decode)
    requires Broker.Count(trace, Broker.Received, r) == 1 && Broker.Count(trace, Broker.Rejected, r) > 0
    requires Client.Legal(events) && Connected(trace, r, decode, events)
    ensures var s, mine := Client.Run(events), Client.Project(events, r.msgid);
            && r.msgid in s.sessions
            && s.sessions[r.msgid].taken == []
            && (EndToEnd.Arrived(mine) != [] ==>
                 && r.msgid !in Client.Handlers(s)
                 && s.sessions[r.msgid].reply.future == Client.Raised(QUEUE_FULL)
                 && (s.sessions[r.msgid].ended || Client.Enabled(s, Client.Return(r.msgid))))
  {
    hide Sole, Inverse, Sequential, Outgoing;
    OneReplyInOrder(config, trace, r, answer, encode, decode);
    Client.Demultiplexed(events, r.msgid);
    RefusedLocally(Client.Project(events, r.msgid));
    assert Client.Local(Client.Run(events), r.msgid) == Client.LocalRun(Client.Project(events, r.msgid));
  }

  // ---------------------------------------------------------------- what a worker is asked to do

  lemma {:induction false} ReadysAreTurns(turns: seq<(Supervisor.Turn, Supervisor.Broadcast)>)
    ensures Supervisor.Readys(turns) <= |turns|
  {
    if turns != [] {
      ReadysAreTurns(turns[1..]);
    }
  }

  /** A worker announces itself once a turn, so the balancer never tries to send it more requests than
    * the turns of its own loop, and one fewer while it is still in the ready set. */
  lemma AttemptsWithinTurns(
      config: Broker.Config, trace: seq<Label>, w: Bytes,
      turns: seq<(Supervisor.Turn, Supervisor.Broadcast)>)
    requires Broker.Legal(config, trace)
    requires Broker.Readys(trace, w) <= Supervisor.Readys(turns)
    ensures Broker.Attempts(trace, w) + (if w in Broker.Replay(trace).workers then 1 else 0) <= |turns|
    ensures |Given(trace, w)| <= Broker.Attempts(trace, w)
  {
    Broker.ReadyCredits(config, trace, w);
    ReadysAreTurns(turns);
    GivenIsAttempted(trace, w);
  }

  lemma {:induction false} GivenIsAttempted(trace: seq<Label>, w: Bytes)
    ensures |Given(trace, w)| <= Broker.Attempts(trace, w)
  {
    if trace != [] {
      GivenIsAttempted(trace[..|trace| - 1], w);
    }
  }
}
