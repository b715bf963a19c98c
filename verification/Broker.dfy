/** The load balancer between HTTP clients and QGIS workers.
  *
  * Every externally visible move of the loop is a label.  The state of the balancer is the replay
  * of its labels, so a property of all legal traces is a property of all runs, whatever workers the
  * unordered set hands out and whatever sends fail.
  */
module Broker {
  import opened Wire

  datatype Request = Request(client: Bytes, msgid: Bytes, data: Bytes)

  datatype Pending = Pending(arrived: real, request: Request)

  datatype Config = Config(maxqueue: int, timeout: real)

  datatype Label =
    | Ready(worker: Bytes)
    | Relay(worker: Bytes, reply: Request, delivered: bool)
    | Accept(accepted: Pending)
    | Reject(request: Request)
    | Drop(now: real, dropped: Pending)
    | Send(now: real, to: Bytes, sent: Pending)
    | Fail(now: real, to: Bytes, kept: Pending)

  /** `waiting` lists the deque from its right end, where requests leave, to its left end, where
    * they enter: index 0 is the oldest request. */
  datatype State = State(workers: set<Bytes>, waiting: seq<Pending>)

  predicate Expired(config: Config, now: real, p: Pending) {
    now - p.arrived > config.timeout
  }

  predicate Enabled(config: Config, s: State, l: Label) {
    match l
    case Ready(_) => true
    case Relay(_, _, _) => true
    case Accept(_) => |s.waiting| < config.maxqueue
    case Reject(_) => |s.waiting| >= config.maxqueue
    case Drop(now, p) => s.workers != {} && s.waiting != [] && p == s.waiting[0] && Expired(config, now, p)
    case Send(now, w, p) => w in s.workers && s.waiting != [] && p == s.waiting[0] && !Expired(config, now, p)
    case Fail(now, w, p) => w in s.workers && s.waiting != [] && p == s.waiting[0] && !Expired(config, now, p)
  }

  function Apply(s: State, l: Label): State {
    match l
    case Ready(w) => s.(workers := s.workers + {w})
    case Accept(p) => s.(waiting := s.waiting + [p])
    case Drop(_, _) => if s.waiting == [] then s else s.(waiting := s.waiting[1..])
    case Send(_, w, _) => if s.waiting == [] then s else State(s.workers - {w}, s.waiting[1..])
    case Fail(_, w, _) => s.(workers := s.workers - {w})
    case _ => s
  }

  function Replay(trace: seq<Label>): State {
    if trace == [] then State({}, [])
    else Apply(Replay(trace[..|trace| - 1]), trace[|trace| - 1])
  }

  predicate Legal(config: Config, trace: seq<Label>) {
    trace == [] ||
    (Legal(config, trace[..|trace| - 1]) &&
     Enabled(config, Replay(trace[..|trace| - 1]), trace[|trace| - 1]))
  }

  // ---------------------------------------------------------------- reading a trace

  function Accepted(trace: seq<Label>): seq<Pending> {
    if trace == [] then []
    else
      var l := trace[|trace| - 1];
      Accepted(trace[..|trace| - 1]) + if l.Accept? then [l.accepted] else []
  }

  /** The requests that left the queue, dispatched or dropped, in the order in which they left. */
  function Settled(trace: seq<Label>): seq<Pending> {
    if trace == [] then []
    else
      var l := trace[|trace| - 1];
      Settled(trace[..|trace| - 1]) +
      if l.Send? then [l.sent] else if l.Drop? then [l.dropped] else []
  }

  datatype Fate = Received | Rejected | Dispatched | Dropped

  predicate HasFate(l: Label, fate: Fate, r: Request) {
    match fate
    case Received => (l.Accept? && l.accepted.request == r) || (l.Reject? && l.request == r)
    case Rejected => l.Reject? && l.request == r
    case Dispatched => l.Send? && l.sent.request == r
    case Dropped => l.Drop? && l.dropped.request == r
  }

  function Count(trace: seq<Label>, fate: Fate, r: Request): nat {
    if trace == [] then 0
    else Count(trace[..|trace| - 1], fate, r) + if HasFate(trace[|trace| - 1], fate, r) then 1 else 0
  }

  function Queued(waiting: seq<Pending>, r: Request): nat {
    if waiting == [] then 0
    else Queued(waiting[..|waiting| - 1], r) + if waiting[|waiting| - 1].request == r then 1 else 0
  }

  function Readys(trace: seq<Label>, w: Bytes): nat {
    if trace == [] then 0
    else
      Readys(trace[..|trace| - 1], w) + if trace[|trace| - 1] == Ready(w) then 1 else 0
  }

  /** Sends to `w`, successful or not. */
  function Attempts(trace: seq<Label>, w: Bytes): nat {
    if trace == [] then 0
    else
      var l := trace[|trace| - 1];
      Attempts(trace[..|trace| - 1], w) + if Attempt(l, w) then 1 else 0
  }

  predicate Attempt(l: Label, w: Bytes) {
    (l.Send? || l.Fail?) && l.to == w
  }

  predicate Timed(l: Label) {
    l.Accept? || l.Drop? || l.Send? || l.Fail?
  }

  function At(l: Label): real
    requires Timed(l)
  {
    if l.Accept? then l.accepted.arrived else l.now
  }

  ghost predicate ClockNeverGoesBack(trace: seq<Label>) {
    forall i, j :: 0 <= i < j < |trace| && Timed(trace[i]) && Timed(trace[j]) ==> At(trace[i]) <= At(trace[j])
  }

  ghost predicate SortedByArrival(ps: seq<Pending>) {
    forall i, j :: 0 <= i < j < |ps| ==> ps[i].arrived <= ps[j].arrived
  }

  lemma Extend(config: Config, trace: seq<Label>, l: Label)
    ensures Replay(trace + [l]) == Apply(Replay(trace), l)
    ensures Legal(config, trace + [l]) <==> Legal(config, trace) && Enabled(config, Replay(trace), l)
  {
    assert (trace + [l])[..|trace|] == trace;
  }

  lemma {:induction false} LegalPrefix(config: Config, trace: seq<Label>, n: nat)
    requires Legal(config, trace) && n <= |trace|
    ensures Legal(config, trace[..n])
  {
    if n == |trace| {
      assert trace[..n] == trace;
    } else {
      LegalPrefix(config, trace[..|trace| - 1], n);
      assert trace[..|trace| - 1][..n] == trace[..n];
    }
  }

  lemma LegalStep(config: Config, trace: seq<Label>, i: nat)
    requires Legal(config, trace) && i < |trace|
    ensures Legal(config, trace[..i]) && Enabled(config, Replay(trace[..i]), trace[i])
  {
    LegalPrefix(config, trace, i + 1);
    assert trace[..i + 1][..i] == trace[..i];
  }

  // ---------------------------------------------------------------- no overtaking

  /** Requests leave in the order in which they were accepted, push-backs included: what left is a
    * prefix of what was accepted and the queue is the rest. */
  lemma {:induction false} NoOvertaking(config: Config, trace: seq<Label>)
    requires Legal(config, trace)
    ensures Accepted(trace) == Settled(trace) + Replay(trace).waiting
  {
    if trace != [] {
      NoOvertaking(config, trace[..|trace| - 1]);
    }
  }

  // ---------------------------------------------------------------- conservation

  lemma {:induction false} QueuedHead(p: Pending, rest: seq<Pending>, r: Request)
    ensures Queued([p] + rest, r) == Queued(rest, r) + if p.request == r then 1 else 0
  {
    if rest == [] {
      assert [p] + rest == [p];
    } else {
      assert ([p] + rest)[..|rest|] == [p] + rest[..|rest| - 1];
      QueuedHead(p, rest[..|rest| - 1], r);
    }
  }

  /** Every received request is in exactly one place, as often as it was received. */
  lemma {:induction false} Conservation(config: Config, trace: seq<Label>, r: Request)
    requires Legal(config, trace)
    ensures Count(trace, Received, r) ==
            Count(trace, Rejected, r) + Count(trace, Dispatched, r) + Count(trace, Dropped, r) +
            Queued(Replay(trace).waiting, r)
  {
    if trace != [] {
      var before, l := trace[..|trace| - 1], trace[|trace| - 1];
      Conservation(config, before, r);
      var waiting := Replay(before).waiting;
      if l.Accept? {
        assert (waiting + [l.accepted])[..|waiting|] == waiting;
      } else if l.Drop? || l.Send? {
        assert waiting == [waiting[0]] + waiting[1..];
        QueuedHead(waiting[0], waiting[1..], r);
      }
    }
  }

  /** A request received once is never dispatched twice, nor both dispatched and dropped. */
  lemma AtMostOnce(config: Config, trace: seq<Label>, r: Request)
    requires Legal(config, trace)
    requires Count(trace, Received, r) == 1
    ensures Count(trace, Rejected, r) <= 1 && Count(trace, Dispatched, r) <= 1
    ensures Count(trace, Dispatched, r) == 1 ==>
              Count(trace, Dropped, r) == 0 && Count(trace, Rejected, r) == 0 &&
              Queued(Replay(trace).waiting, r) == 0
    ensures Queued(Replay(trace).waiting, r) == 0 ==>
              Count(trace, Rejected, r) + Count(trace, Dispatched, r) + Count(trace, Dropped, r) == 1
  {
    Conservation(config, trace, r);
  }

  // ---------------------------------------------------------------- expiry

  lemma {:induction false} AcceptedFrom(trace: seq<Label>, k: nat)
    requires k < |Accepted(trace)|
    ensures Accept(Accepted(trace)[k]) in trace
  {
    var before := trace[..|trace| - 1];
    if k < |Accepted(before)| {
      AcceptedFrom(before, k);
    }
  }

  lemma {:induction false} AcceptedSorted(trace: seq<Label>)
    requires ClockNeverGoesBack(trace)
    ensures SortedByArrival(Accepted(trace))
  {
    if trace != [] {
      var before, l := trace[..|trace| - 1], trace[|trace| - 1];
      AcceptedSorted(before);
      if l.Accept? {
        forall k | 0 <= k < |Accepted(before)|
          ensures Accepted(before)[k].arrived <= l.accepted.arrived
        {
          AcceptedFrom(before, k);
          var i :| 0 <= i < |before| && before[i] == Accept(Accepted(before)[k]);
          assert trace[i] == before[i] && Timed(trace[i]) && Timed(trace[|trace| - 1]);
        }
      }
    }
  }

  lemma {:induction false} SettledBy(trace: seq<Label>, i: nat)
    requires i < |trace| && trace[i].Send?
    ensures trace[i].sent in Settled(trace)
  {
    if i < |trace| - 1 {
      SettledBy(trace[..|trace| - 1], i);
    }
  }

  /** While the clock does not go back, the queue stays sorted by arrival and no request is sent
    * with an age above the timeout. */
  lemma Expiry(config: Config, trace: seq<Label>)
    requires Legal(config, trace) && ClockNeverGoesBack(trace)
    ensures SortedByArrival(Replay(trace).waiting)
    ensures forall i :: 0 <= i < |trace| && trace[i].Send? ==>
              trace[i].now - trace[i].sent.arrived <= config.timeout
  {
    AcceptedSorted(trace);
    NoOvertaking(config, trace);
    var waiting, gone := Replay(trace).waiting, |Settled(trace)|;
    forall i, j | 0 <= i < j < |waiting| ensures waiting[i].arrived <= waiting[j].arrived {
      assert waiting[i] == Accepted(trace)[gone + i] && waiting[j] == Accepted(trace)[gone + j];
    }
    forall i | 0 <= i < |trace| && trace[i].Send?
      ensures trace[i].now - trace[i].sent.arrived <= config.timeout
    {
      LegalStep(config, trace, i);
    }
  }

  /** No request is dropped before its time is up, however the clock moves. */
  lemma DropsAreLate(config: Config, trace: seq<Label>)
    requires Legal(config, trace)
    ensures forall i :: 0 <= i < |trace| && trace[i].Drop? ==>
              trace[i].now - trace[i].dropped.arrived > config.timeout
  {
    forall i | 0 <= i < |trace| && trace[i].Drop?
      ensures trace[i].now - trace[i].dropped.arrived > config.timeout
    {
      LegalStep(config, trace, i);
    }
  }

  /** What becomes of the oldest request when a worker is ready depends on its age alone: above the
    * timeout it is dropped, up to the timeout it is offered. */
  lemma HeadIsDecidedByAge(config: Config, trace: seq<Label>, now: real, w: Bytes)
    requires Legal(config, trace) && w in Replay(trace).workers && |Accepted(trace)| > |Settled(trace)|
    ensures var p := Accepted(trace)[|Settled(trace)|];
            && (Legal(config, trace + [Drop(now, p)]) <==> now - p.arrived > config.timeout)
            && (Legal(config, trace + [Send(now, w, p)]) <==> now - p.arrived <= config.timeout)
            && (Legal(config, trace + [Fail(now, w, p)]) <==> now - p.arrived <= config.timeout)
  {
    NoOvertaking(config, trace);
    var p := Accepted(trace)[|Settled(trace)|];
    Extend(config, trace, Drop(now, p));
    Extend(config, trace, Send(now, w, p));
    Extend(config, trace, Fail(now, w, p));
  }

  /** While no worker is ready nothing leaves the queue, not even what is too old. */
  lemma NothingMovesUnready(config: Config, trace: seq<Label>, l: Label)
    requires Legal(config, trace + [l]) && forall w :: !ReadySince(trace, w)
    ensures Settled(trace + [l]) == Settled(trace) && Replay(trace).waiting <= Replay(trace + [l]).waiting
  {
    Extend(config, trace, l);
    forall w ensures w !in Replay(trace).workers {
      ReadySetIs(config, trace, w);
    }
    assert (trace + [l])[..|trace|] == trace;
  }

  /** A request is refused exactly when `maxqueue` of those accepted have not left yet. */
  lemma RefusedIff(config: Config, trace: seq<Label>, r: Request, t: real)
    requires Legal(config, trace)
    ensures Legal(config, trace + [Reject(r)]) <==> |Accepted(trace)| - |Settled(trace)| >= config.maxqueue
    ensures Legal(config, trace + [Accept(Pending(t, r))]) <==>
            |Accepted(trace)| - |Settled(trace)| < config.maxqueue
  {
    NoOvertaking(config, trace);
    Extend(config, trace, Reject(r));
    Extend(config, trace, Accept(Pending(t, r)));
  }

  /** A request dropped after another was dispatched was judged by a strictly later clock reading:
    * within one dispatch pass, which reads the clock once, drops come before dispatches. */
  lemma DropsComeFirst(config: Config, trace: seq<Label>, i: nat, j: nat)
    requires Legal(config, trace) && ClockNeverGoesBack(trace)
    requires i < j < |trace| && trace[i].Send? && trace[j].Drop?
    ensures trace[i].now < trace[j].now
  {
    LegalStep(config, trace, i);
    LegalStep(config, trace, j);
    var upto := trace[..j];
    NoOvertaking(config, upto);
    AcceptedSorted(upto);
    SettledBy(upto, i);
    var gone := Settled(upto);
    var k :| 0 <= k < |gone| && gone[k] == trace[i].sent;
    assert Accepted(upto)[k] == trace[i].sent && Accepted(upto)[|gone|] == trace[j].dropped;
  }

  // ---------------------------------------------------------------- READY credits

  /** Each attempt to send to a worker spends one READY received from it, and a worker in the ready
    * set still has one unspent. */
  lemma {:induction false} ReadyCredits(config: Config, trace: seq<Label>, w: Bytes)
    requires Legal(config, trace)
    ensures Attempts(trace, w) + (if w in Replay(trace).workers then 1 else 0) <= Readys(trace, w)
  {
    if trace != [] {
      ReadyCredits(config, trace[..|trace| - 1], w);
    }
  }

  /** The credit bound is not "one request at a time": an idle worker repeats READY, and a repeat
    * that crosses a dispatch earns a second request before any reply. */
  lemma TwoRequestsInFlight(w: Bytes, p: Pending, q: Pending, now: real)
    requires p.arrived == q.arrived == now
    ensures var config := Config(100, 3.0);
            var trace := [Ready(w), Accept(p), Send(now, w, p), Ready(w), Accept(q), Send(now, w, q)];
            && Legal(config, trace)
            && Attempts(trace, w) == 2
            && forall i :: 0 <= i < |trace| ==> !trace[i].Relay?
  {
    var config := Config(100, 3.0);
    var t1 := [Ready(w)];
    var t2 := t1 + [Accept(p)];
    var t3 := t2 + [Send(now, w, p)];
    var t4 := t3 + [Ready(w)];
    var t5 := t4 + [Accept(q)];
    var t6 := t5 + [Send(now, w, q)];
    assert [] + [Ready(w)] == t1;
    Extend(config, [], Ready(w));
    Extend(config, t1, Accept(p));
    Extend(config, t2, Send(now, w, p));
    Extend(config, t3, Ready(w));
    Extend(config, t4, Accept(q));
    Extend(config, t5, Send(now, w, q));
    assert t6[..5] == t5 && t5[..4] == t4 && t4[..3] == t3 && t3[..2] == t2 && t2[..1] == t1;
    assert Attempts(t1, w) == 0;
    assert Attempts(t2, w) == 0;
    assert Attempts(t3, w) == 1;
    assert Attempts(t4, w) == 1;
    assert t6 == [Ready(w), Accept(p), Send(now, w, p), Ready(w), Accept(q), Send(now, w, q)];
  }

  /** READY came from `w` after the last attempt to send to it. */
  ghost predicate ReadySince(trace: seq<Label>, w: Bytes) {
    exists i :: 0 <= i < |trace| && trace[i] == Ready(w) && forall j :: i < j < |trace| ==> !Attempt(trace[j], w)
  }

  /** The ready set, read off the trace. */
  lemma {:induction false} ReadySetIs(config: Config, trace: seq<Label>, w: Bytes)
    requires Legal(config, trace)
    ensures w in Replay(trace).workers <==> ReadySince(trace, w)
  {
    if trace != [] {
      var before, l := trace[..|trace| - 1], trace[|trace| - 1];
      ReadySetIs(config, before, w);
      if l == Ready(w) {
        assert trace[|trace| - 1] == Ready(w);
      } else if !Attempt(l, w) {
        if ReadySince(before, w) {
          var i :| 0 <= i < |before| && before[i] == Ready(w) &&
                   forall j :: i < j < |before| ==> !Attempt(before[j], w);
          assert trace[i] == Ready(w);
        }
        if ReadySince(trace, w) {
          var i :| 0 <= i < |trace| && trace[i] == Ready(w) &&
                   forall j :: i < j < |trace| ==> !Attempt(trace[j], w);
          assert before[i] == Ready(w);
        }
      }
    }
  }

  /** A continuation of the run at clock reading `now` in which `w` stays silent. */
  ghost predicate SilentExtension(config: Config, trace: seq<Label>, w: Bytes, now: real, more: seq<Label>) {
    && Legal(config, trace + more)
    && forall l :: l in more ==>
         l != Ready(w) && !(l.Relay? && l.worker == w) && (Timed(l) ==> At(l) == now)
  }

  ghost predicate SendsTo(more: seq<Label>, w: Bytes) {
    exists i :: 0 <= i < |more| && more[i].Send? && more[i].to == w
  }

  /** A silent worker can still be sent a request. */
  ghost predicate CanBeSent(config: Config, trace: seq<Label>, w: Bytes, now: real) {
    exists more :: SilentExtension(config, trace, w, now, more) && SendsTo(more, w)
  }

  lemma {:induction false} SilentStaysOut(config: Config, trace: seq<Label>, w: Bytes, now: real, more: seq<Label>)
    requires SilentExtension(config, trace, w, now, more) && w !in Replay(trace).workers
    ensures w !in Replay(trace + more).workers && !SendsTo(more, w)
  {
    if more == [] {
      assert trace + more == trace;
    } else {
      var before, l := more[..|more| - 1], more[|more| - 1];
      assert trace + more == (trace + before) + [l];
      Extend(config, trace + before, l);
      SilentStaysOut(config, trace, w, now, before);
      assert l in more;
      forall i | 0 <= i < |more| ensures !(more[i].Send? && more[i].to == w) {
        assert i < |before| ==> more[i] == before[i];
      }
    }
  }

  lemma NewCanBeSent(config: Config, trace: seq<Label>, w: Bytes, now: real) returns (more: seq<Label>)
    requires config.maxqueue >= 1 && config.timeout >= 0.0
    requires Legal(config, trace) && w in Replay(trace).workers && Replay(trace).waiting == []
    ensures SilentExtension(config, trace, w, now, more) && SendsTo(more, w)
  {
    var p := Pending(now, Request([], [], []));
    Extend(config, trace, Accept(p));
    Extend(config, trace + [Accept(p)], Send(now, w, p));
    more := [Accept(p), Send(now, w, p)];
    assert trace + more == trace + [Accept(p)] + [Send(now, w, p)];
    assert more[1].Send?;
  }

  lemma DropFirst(config: Config, trace: seq<Label>, w: Bytes, now: real, drop: Label, rest: seq<Label>)
    requires drop.Drop? && drop.now == now
    requires SilentExtension(config, trace + [drop], w, now, rest) && SendsTo(rest, w)
    ensures SilentExtension(config, trace, w, now, [drop] + rest) && SendsTo([drop] + rest, w)
  {
    hide Legal;
    var more := [drop] + rest;
    assert trace + more == trace + [drop] + rest;
    var i :| 0 <= i < |rest| && rest[i].Send? && rest[i].to == w;
    assert more[i + 1] == rest[i];
  }

  /** A ready worker can be sent to: the expired requests are dropped, and the next one, or a new one,
    * goes to it. */
  lemma {:induction false} ReadyCanBeSent(config: Config, trace: seq<Label>, w: Bytes, now: real)
      returns (more: seq<Label>)
    requires config.maxqueue >= 1 && config.timeout >= 0.0
    requires Legal(config, trace) && w in Replay(trace).workers
    ensures SilentExtension(config, trace, w, now, more) && SendsTo(more, w)
    decreases |Replay(trace).waiting|
  {
    var waiting := Replay(trace).waiting;
    if waiting == [] {
      more := NewCanBeSent(config, trace, w, now);
    } else if Expired(config, now, waiting[0]) {
      var drop := Drop(now, waiting[0]);
      Extend(config, trace, drop);
      var rest := ReadyCanBeSent(config, trace + [drop], w, now);
      DropFirst(config, trace, w, now, drop, rest);
      more := [drop] + rest;
    } else {
      more := [Send(now, w, waiting[0])];
      Extend(config, trace, more[0]);
    }
  }

  /** Exactly when the balancer may send a further request to a worker that says nothing more, at
    * whatever time: when READY came from it after the last attempt to send to it.  Replies do not
    * enter into it. */
  lemma CanBeSentIff(config: Config, trace: seq<Label>, w: Bytes, now: real)
    requires config.maxqueue >= 1 && config.timeout >= 0.0
    requires Legal(config, trace)
    ensures CanBeSent(config, trace, w, now) <==> ReadySince(trace, w)
  {
    ReadySetIs(config, trace, w);
    if w in Replay(trace).workers {
      var more := ReadyCanBeSent(config, trace, w, now);
    } else {
      forall more | SilentExtension(config, trace, w, now, more) ensures !SendsTo(more, w) {
        SilentStaysOut(config, trace, w, now, more);
      }
    }
  }

  /** Request `i` was sent to `w`, and no reply message has come back since. */
  ghost predicate Unanswered(trace: seq<Label>, w: Bytes, i: nat) {
    && i < |trace| && trace[i].Send? && trace[i].to == w
    && forall j :: i < j < |trace| ==> !(trace[j].Relay? && trace[j].worker == w)
  }

  /** A worker with an unanswered request can be sent another before it answers if and only if it sent
    * READY after that request was sent to it, and after any later attempt to send to it. */
  lemma SecondRequestIff(config: Config, trace: seq<Label>, w: Bytes, now: real, i: nat)
    requires config.maxqueue >= 1 && config.timeout >= 0.0
    requires Legal(config, trace) && Unanswered(trace, w, i)
    ensures CanBeSent(config, trace, w, now) <==> ReadySince(trace[i + 1..], w)
  {
    CanBeSentIff(config, trace, w, now);
    var later := trace[i + 1..];
    if ReadySince(trace, w) {
      var k :| 0 <= k < |trace| && trace[k] == Ready(w) && forall j :: k < j < |trace| ==> !Attempt(trace[j], w);
      assert Attempt(trace[i], w);
      assert later[k - (i + 1)] == Ready(w);
    }
    if ReadySince(later, w) {
      var k :| 0 <= k < |later| && later[k] == Ready(w) && forall j :: k < j < |later| ==> !Attempt(later[j], w);
      assert trace[i + 1 + k] == Ready(w);
      forall j | i + 1 + k < j < |trace| ensures !Attempt(trace[j], w) {
        assert trace[j] == later[j - (i + 1)];
      }
    }
  }

  /** Between two requests sent to a worker there is always a reply message from it. */
  ghost predicate OneAtATime(trace: seq<Label>, w: Bytes) {
    forall i, j :: 0 <= i < j < |trace| && trace[i].Send? && trace[i].to == w && trace[j].Send? && trace[j].to == w ==>
      Answered(trace, w, i, j)
  }

  ghost predicate Answered(trace: seq<Label>, w: Bytes, i: int, j: int) {
    exists k :: 0 <= i < k < j <= |trace| && trace[k].Relay? && trace[k].worker == w
  }

  /** No READY comes from `w` between a request sent to it and its first reply message. */
  ghost predicate ReadyOnlyWhenIdle(trace: seq<Label>, w: Bytes) {
    forall i, j :: 0 <= i < j < |trace| && trace[i].Send? && trace[i].to == w && trace[j] == Ready(w) ==>
      Answered(trace, w, i, j)
  }

  /** Every second request answers a READY sent between. */
  lemma ReadyBetween(config: Config, trace: seq<Label>, w: Bytes, i: nat, j: nat) returns (k: nat)
    requires Legal(config, trace)
    requires i < j < |trace| && trace[i].Send? && trace[i].to == w && trace[j].Send? && trace[j].to == w
    ensures i < k < j && trace[k] == Ready(w)
  {
    LegalStep(config, trace, j);
    ReadySetIs(config, trace[..j], w);
    assert Attempt(trace[..j][i], w);
    k :| 0 <= k < j && trace[..j][k] == Ready(w) && forall n :: k < n < j ==> !Attempt(trace[..j][n], w);
  }

  /** A worker handles one request at a time if no READY of it overtakes a reply. */
  lemma OneAtATimeIf(config: Config, trace: seq<Label>, w: Bytes)
    requires Legal(config, trace) && ReadyOnlyWhenIdle(trace, w)
    ensures OneAtATime(trace, w)
  {
    forall i, j | 0 <= i < j < |trace| && trace[i].Send? && trace[i].to == w && trace[j].Send? && trace[j].to == w
      ensures Answered(trace, w, i, j)
    {
      var k := ReadyBetween(config, trace, w, i, j);
      assert Answered(trace, w, i, k);
      var n :| i < n < k && trace[n].Relay? && trace[n].worker == w;
    }
  }

  // ---------------------------------------------------------------- bound

  lemma {:induction false} QueueBounded(config: Config, trace: seq<Label>)
    requires Legal(config, trace)
    ensures |Replay(trace).waiting| <= if config.maxqueue < 0 then 0 else config.maxqueue
  {
    if trace != [] {
      QueueBounded(config, trace[..|trace| - 1]);
    }
  }

  // ---------------------------------------------------------------- the loop body

  /** What one message from the backend adds to the trace: a READY, a relayed reply, or nothing when
    * the message does not unpack. */
  ghost predicate BackendMoves(frames: Option<seq<Bytes>>, labels: seq<Label>) {
    if frames.None? || |frames.value| < 2 then labels == []
    else
      var f := frames.value;
      if f[1] == WORKER_READY then labels == [Ready(f[0])]
      else if |f| == 4 then
        |labels| == 1 && labels[0].Relay? && labels[0].worker == f[0] &&
        labels[0].reply == Request(f[1], f[2], f[3])
      else labels == []
  }

  /** What one message from the frontend adds: it is accepted at time `t`, or refused when the
    * queue already holds `maxqueue` requests. */
  ghost predicate FrontendMoves(config: Config, queued: nat, frames: Option<seq<Bytes>>, t: real, labels: seq<Label>) {
    if frames.None? || |frames.value| != 3 then labels == []
    else
      var r := Request(frames.value[0], frames.value[1], frames.value[2]);
      labels == [if queued >= config.maxqueue then Reject(r) else Accept(Pending(t, r))]
  }

  /** The labels of one dispatch pass, all stamped with the clock reading taken at its start. */
  ghost predicate DispatchMoves(now: real, labels: seq<Label>) {
    forall l :: l in labels ==> (l.Drop? || l.Send? || l.Fail?) && l.now == now
  }

  /** What the sockets deliver in one turn of the loop, and its two clock readings. */
  datatype Turn = Turn(backend: Option<seq<Bytes>>, frontend: Option<seq<Bytes>>, t: real, now: real)

  /** What a message means to the balancer. */
  datatype Incoming = Free(worker: Bytes) | Reply(worker: Bytes, reply: Request) | Asked(request: Request)

  /** The messages of a turn that the balancer has to act on: READY by its two frames or more, a reply by
    * its four, a request by its three. */
  function Delivered(turn: Turn): seq<Incoming> {
    (match turn.backend
     case None => []
     case Some(f) =>
       if |f| >= 2 && f[1] == WORKER_READY then [Free(f[0])]
       else if |f| == 4 then [Reply(f[0], Request(f[1], f[2], f[3]))]
       else []) +
    (match turn.frontend
     case None => []
     case Some(f) => if |f| == 3 then [Asked(Request(f[0], f[1], f[2]))] else [])
  }

  function AllDelivered(turns: seq<Turn>): seq<Incoming> {
    if turns == [] then [] else AllDelivered(turns[..|turns| - 1]) + Delivered(turns[|turns| - 1])
  }

  /** What was acted on, told from the trace. */
  function ActedOn(trace: seq<Label>): seq<Incoming> {
    if trace == [] then [] else ActedOn(trace[..|trace| - 1]) + Acts(trace[|trace| - 1])
  }

  function Acts(l: Label): seq<Incoming> {
    match l
    case Ready(w) => [Free(w)]
    case Relay(w, reply, _) => [Reply(w, reply)]
    case Accept(p) => [Asked(p.request)]
    case Reject(r) => [Asked(r)]
    case _ => []
  }

  /** The clock readings of the turns do not go back. */
  ghost predicate TurnsInOrder(turns: seq<Turn>) {
    && (forall i :: 0 <= i < |turns| ==> turns[i].t <= turns[i].now)
    && forall i, j :: 0 <= i < j < |turns| ==> turns[i].now <= turns[j].t
  }

  lemma {:induction false} ActedOnConcat(a: seq<Label>, b: seq<Label>)
    ensures ActedOn(a + b) == ActedOn(a) + ActedOn(b)
  {
    if b == [] {
      assert a + b == a;
    } else {
      assert (a + b)[..|a + b| - 1] == a + b[..|b| - 1];
      ActedOnConcat(a, b[..|b| - 1]);
    }
  }

  lemma {:induction false} DispatchActsOnNothing(now: real, d: seq<Label>)
    requires DispatchMoves(now, d)
    ensures ActedOn(d) == []
  {
    if d != [] {
      assert d[|d| - 1] in d;
      DispatchActsOnNothing(now, d[..|d| - 1]);
    }
  }

  lemma ActsOnOne(l: Label)
    ensures ActedOn([l]) == Acts(l)
  {
    assert [l][..0] == [];
  }

  /** One turn acts on what it is delivered, each message once, and on nothing else. */
  lemma TurnActsOn(config: Config, queued: nat, turn: Turn, b: seq<Label>, f: seq<Label>, d: seq<Label>)
    requires BackendMoves(turn.backend, b) && FrontendMoves(config, queued, turn.frontend, turn.t, f)
    requires DispatchMoves(turn.now, d)
    ensures ActedOn(b + f + d) == Delivered(turn)
  {
    ActedOnConcat(b + f, d);
    ActedOnConcat(b, f);
    DispatchActsOnNothing(turn.now, d);
    if b != [] {
      ActsOnOne(b[0]);
      assert b == [b[0]];
    }
    if f != [] {
      ActsOnOne(f[0]);
      assert f == [f[0]];
    }
  }

  /** Its labels carry its own clock readings: arrivals the first, all that leaves the second. */
  lemma TurnStamps(config: Config, queued: nat, turn: Turn, b: seq<Label>, f: seq<Label>, d: seq<Label>)
    requires BackendMoves(turn.backend, b) && FrontendMoves(config, queued, turn.frontend, turn.t, f)
    requires DispatchMoves(turn.now, d)
    ensures forall l :: l in b + f + d ==>
              && (l.Accept? ==> l.accepted.arrived == turn.t)
              && (l.Drop? || l.Send? || l.Fail? ==> l.now == turn.now)
    ensures turn.t <= turn.now ==> Stamped(b + f + d, turn)
  {
    var all := b + f + d;
    forall i, j | 0 <= i < j < |all| && Timed(all[i]) && Timed(all[j]) && turn.t <= turn.now
      ensures At(all[i]) <= At(all[j])
    {
      assert i >= |b| && j >= |b| + |f|;
      assert all[j] in d;
      assert i < |b| + |f| ==> all[i] in f;
      assert i >= |b| + |f| ==> all[i] in d;
    }
  }

  /** The labels of one turn, between its two readings. */
  ghost predicate Stamped(labels: seq<Label>, turn: Turn) {
    && ClockNeverGoesBack(labels)
    && forall l :: l in labels && Timed(l) ==> turn.t <= At(l) <= turn.now
  }

  ghost predicate ClockUpTo(trace: seq<Label>, turns: seq<Turn>) {
    && ClockNeverGoesBack(trace)
    && forall l :: l in trace && Timed(l) ==> turns != [] && At(l) <= turns[|turns| - 1].now
  }

  lemma ClockSnoc(a: seq<Label>, b: seq<Label>, turns: seq<Turn>, turn: Turn)
    requires ClockUpTo(a, turns) && Stamped(b, turn)
    requires turns != [] ==> turns[|turns| - 1].now <= turn.t
    requires turn.t <= turn.now
    ensures ClockUpTo(a + b, turns + [turn])
  {
    var all := a + b;
    forall i, j | 0 <= i < j < |all| && Timed(all[i]) && Timed(all[j]) ensures At(all[i]) <= At(all[j]) {
      if j < |a| {
        assert all[i] == a[i] && all[j] == a[j];
      } else if i < |a| {
        assert all[i] in a && all[j] in b;
      } else {
        assert all[i] == b[i - |a|] && all[j] == b[j - |a|];
      }
    }
  }

  lemma TurnsSnoc(turns: seq<Turn>, i: nat)
    requires i < |turns|
    ensures turns[..i + 1] == turns[..i] + [turns[i]]
    ensures AllDelivered(turns[..i + 1]) == AllDelivered(turns[..i]) + Delivered(turns[i])
    ensures TurnsInOrder(turns) ==>
              turns[i].t <= turns[i].now && (i > 0 ==> turns[..i][i - 1].now <= turns[i].t)
  {
    assert turns[..i + 1][..i] == turns[..i];
  }

  class LoadBalancer {
    const config: Config
    var workers: set<Bytes>
    var waiting: seq<Pending>
    ghost var trace: seq<Label>

    ghost predicate Consistent()
      reads this
    {
      Legal(config, trace) && Replay(trace) == State(workers, waiting)
    }

    /** Holds between iterations: no ready worker is left beside a waiting request. */
    ghost predicate Valid()
      reads this
    {
      Consistent() && (workers == {} || waiting == [])
    }

    constructor (config: Config)
      ensures Valid() && this.config == config && trace == []
    {
      this.config := config;
      workers, waiting, trace := {}, [], [];
    }

    ghost method Record(l: Label)
      requires Legal(config, trace) && Enabled(config, Replay(trace), l)
      modifies this`trace
      ensures trace == old(trace) + [l]
      ensures Legal(config, trace) && Replay(trace) == Apply(old(Replay(trace)), l)
    {
      Extend(config, trace, l);
      trace := trace + [l];
    }

    method HandleBackend(frames: Option<seq<Bytes>>)
      requires Consistent()
      modifies this`workers, this`trace
      ensures Consistent()
      ensures old(trace) <= trace && BackendMoves(frames, trace[|old(trace)|..])
    {
      if frames.Some? && |frames.value| >= 2 {
        var f := frames.value;
        if f[1] == WORKER_READY {
          if f[0] !in workers {
            workers := workers + {f[0]};
          }
          Record(Ready(f[0]));
        } else if |f| == 4 {
          var delivered: bool := *;
          Record(Relay(f[0], Request(f[1], f[2], f[3]), delivered));
        }
      }
    }

    method HandleFrontend(frames: Option<seq<Bytes>>, t: real)
      requires Consistent()
      modifies this`waiting, this`trace
      ensures Consistent()
      ensures old(trace) <= trace
      ensures FrontendMoves(config, old(|waiting|), frames, t, trace[|old(trace)|..])
    {
      if frames.Some? && |frames.value| == 3 {
        var r := Request(frames.value[0], frames.value[1], frames.value[2]);
        if |waiting| >= config.maxqueue {
          Record(Reject(r));
        } else {
          waiting := waiting + [Pending(t, r)];
          Record(Accept(Pending(t, r)));
        }
      }
    }

    /** The inner loop: offer one request to ready workers until a send succeeds.  A request that no
      * worker took goes back where it came from. */
    method Offer(now: real, head: Pending)
      requires workers != {} && !Expired(config, now, head)
      requires Legal(config, trace) && Replay(trace) == State(workers, [head] + waiting)
      modifies this`workers, this`waiting, this`trace
      ensures Consistent()
      ensures |workers| < old(|workers|)
      ensures waiting == old(waiting) || (workers == {} && waiting == [head] + old(waiting))
      ensures old(trace) <= trace && DispatchMoves(now, trace[|old(trace)|..])
    {
      while workers != {}
        invariant Legal(config, trace)
        invariant Replay(trace) == State(workers, [head] + old(waiting))
        invariant waiting == if workers == {} then [head] + old(waiting) else old(waiting)
        invariant |workers| <= old(|workers|)
        invariant workers == {} ==> |workers| < old(|workers|)
        invariant old(trace) <= trace && DispatchMoves(now, trace[|old(trace)|..])
        decreases |workers|
      {
        var worker :| worker in workers;
        workers := workers - {worker};
        var sent: bool := *;
        if sent {
          Record(Send(now, worker, head));
          break;
        }
        Record(Fail(now, worker, head));
        if workers == {} {
          waiting := [head] + waiting;
        }
      }
    }

    /** The outer loop over waiting requests.  It terminates, and it stops only when the workers or
      * the requests have run out. */
    method Dispatch(now: real)
      requires Consistent()
      modifies this`workers, this`waiting, this`trace
      ensures Valid()
      ensures old(trace) <= trace && DispatchMoves(now, trace[|old(trace)|..])
      ensures old(workers == {} || waiting == []) ==> trace == old(trace)
    {
      while workers != {} && waiting != []
        invariant Consistent()
        invariant old(trace) <= trace && DispatchMoves(now, trace[|old(trace)|..])
        invariant old(workers == {} || waiting == []) ==>
                    trace == old(trace) && workers == old(workers) && waiting == old(waiting)
        decreases |workers| + |waiting|
      {
        var head := waiting[0];
        assert waiting == [head] + waiting[1..];
        waiting := waiting[1..];
        if Expired(config, now, head) {
          Record(Drop(now, head));
        } else {
          Offer(now, head);
        }
      }
    }

    /** One turn of the broker loop.  `t` and `now` are the clock readings of this turn.  A request
      * is refused for lack of room only if no worker was known to be ready when the turn began. */
    method Iterate(backend: Option<seq<Bytes>>, frontend: Option<seq<Bytes>>, t: real, now: real)
        returns (ghost b: seq<Label>, ghost f: seq<Label>, ghost d: seq<Label>)
      requires Valid()
      modifies this`workers, this`waiting, this`trace
      ensures Valid()
      ensures trace == old(trace) + b + f + d
      ensures BackendMoves(backend, b)
      ensures FrontendMoves(config, old(|waiting|), frontend, t, f)
      ensures DispatchMoves(now, d)
      ensures config.maxqueue >= 1 && |f| == 1 && f[0].Reject? ==> old(workers) == {}
    {
      HandleBackend(backend);
      b := trace[|old(trace)|..];
      ghost var t1 := trace;
      HandleFrontend(frontend, t);
      f := trace[|t1|..];
      ghost var t2 := trace;
      Dispatch(now);
      d := trace[|t2|..];
    }

    /** The broker loop over any deliveries.  Every READY, reply and request is acted on once and in order,
      * and if the clock does not go back from turn to turn, the trace shows a clock that does not. */
    method Serve(turns: seq<Turn>)
      requires Valid() && trace == []
      modifies this`workers, this`waiting, this`trace
      ensures Valid()
      ensures ActedOn(trace) == AllDelivered(turns)
      ensures TurnsInOrder(turns) ==> ClockNeverGoesBack(trace)
    {
      hide Legal, Replay, TurnsInOrder, ClockUpTo, Delivered, AllDelivered, ActedOn;
      NoLabels();
      for i := 0 to |turns|
        invariant Valid()
        invariant ActedOn(trace) == AllDelivered(turns[..i])
        invariant TurnsInOrder(turns) ==> ClockUpTo(trace, turns[..i])
      {
        ghost var was := trace;
        ghost var labels := ServeTurn(turns[i]);
        TurnsSnoc(turns, i);
        if TurnsInOrder(turns) {
          ClockSnoc(was, labels, turns[..i], turns[i]);
        }
      }
      assert turns[..|turns|] == turns;
      ClockIs(trace, turns);
    }

    method ServeTurn(turn: Turn) returns (ghost labels: seq<Label>)
      requires Valid()
      modifies this`workers, this`waiting, this`trace
      ensures Valid()
      ensures trace == old(trace) + labels
      ensures ActedOn(trace) == old(ActedOn(trace)) + Delivered(turn)
      ensures turn.t <= turn.now ==> Stamped(labels, turn)
    {
      hide Legal, Replay, BackendMoves, FrontendMoves, DispatchMoves, Stamped, Delivered, ActedOn;
      ghost var was, queued := trace, |waiting|;
      ghost var b, f, d := Iterate(turn.backend, turn.frontend, turn.t, turn.now);
      labels := b + f + d;
      assert trace == was + labels;
      TurnActsOn(config, queued, turn, b, f, d);
      TurnStamps(config, queued, turn, b, f, d);
      ActedOnConcat(was, labels);
    }
  }

  lemma NoLabels()
    ensures ActedOn([]) == [] && AllDelivered([]) == [] && ClockUpTo([], [])
  {
  }

  lemma ClockIs(trace: seq<Label>, turns: seq<Turn>)
    ensures ClockUpTo(trace, turns) ==> ClockNeverGoesBack(trace)
  {
  }
}
