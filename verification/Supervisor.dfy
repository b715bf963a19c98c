/** Killing stalled workers: the loop of a worker tells when it is busy and when it is done, and the
  * supervisor kills a worker that stays busy for too long. */
module Supervisor {
  datatype Message = Busy | Done | Report

  // ---------------------------------------------------------------- the worker

  /** What can happen between a READY and the end of a turn of the worker loop. */
  datatype Turn =
    | Idle
    | ReceiveFailed
    | Served
    | SocketFailed
    | Raised(headerWritten: bool)
    | Interrupted(busy: bool)

  datatype Broadcast = Silence | Restart | AskReport

  /** A handler that raises before any answer gives up the process, and so do an interrupt and a
    * restart order. */
  predicate Stops(t: Turn, b: Broadcast) {
    match t
    case Raised(headerWritten) => !headerWritten || b.Restart?
    case Interrupted(_) => true
    case _ => b.Restart?
  }

  function TurnMessages(t: Turn): seq<Message> {
    match t
    case Idle => []
    case ReceiveFailed => []
    case Interrupted(busy) => if busy then [Busy, Done] else []
    case _ => [Busy, Done]
  }

  /** The broadcast is looked at only by a loop that goes on. */
  function Answer(t: Turn, b: Broadcast): seq<Message> {
    if b.AskReport? && !Stops(t, b) then [Report] else []
  }

  function LoopMessages(turns: seq<(Turn, Broadcast)>): seq<Message> {
    if turns == [] then []
    else
      TurnMessages(turns[0].0) + Answer(turns[0].0, turns[0].1) +
      if Stops(turns[0].0, turns[0].1) then [] else LoopMessages(turns[1..])
  }

  function Readys(turns: seq<(Turn, Broadcast)>): nat {
    if turns == [] then 0
    else 1 + if Stops(turns[0].0, turns[0].1) then 0 else Readys(turns[1..])
  }

  function Control(ms: seq<Message>): seq<Message> {
    if ms == [] then []
    else Control(ms[..|ms| - 1]) + if ms[|ms| - 1].Report? then [] else [ms[|ms| - 1]]
  }

  /** A prefix of BUSY, DONE, BUSY, DONE, ... */
  ghost predicate Alternates(ms: seq<Message>) {
    forall i :: 0 <= i < |ms| ==> ms[i] == if i % 2 == 0 then Busy else Done
  }

  lemma {:induction false} ControlConcat(a: seq<Message>, b: seq<Message>)
    ensures Control(a + b) == Control(a) + Control(b)
  {
    if b == [] {
      assert a + b == a;
    } else {
      assert (a + b)[..|a + b| - 1] == a + b[..|b| - 1];
      ControlConcat(a, b[..|b| - 1]);
    }
  }

  lemma ControlOfTurn(t: Turn, b: Broadcast)
    ensures Control(TurnMessages(t) + Answer(t, b)) == TurnMessages(t)
  {
    ControlConcat(TurnMessages(t), Answer(t, b));
    assert [Busy, Done][..1] == [Busy];
    assert Control([Busy, Done]) == Control([Busy]) + [Done];
    assert [Report][..0] == [];
    assert [Busy][..0] == [];
  }

  lemma NothingAlternates()
    ensures Control([]) == [] && Alternates([])
  {
  }

  lemma AlternatesConcat(a: seq<Message>, b: seq<Message>)
    requires Alternates(a) && |a| % 2 == 0 && Alternates(b)
    ensures Alternates(a + b)
  {
  }

  /** Whatever path each turn takes, the control messages of a worker alternate and none is left
    * open at the end of a turn. */
  lemma {:induction false} LoopAlternates(turns: seq<(Turn, Broadcast)>)
    ensures Alternates(Control(LoopMessages(turns)))
    ensures |Control(LoopMessages(turns))| % 2 == 0
  {
    hide Control, Alternates;
    assert Control([]) == [] && Alternates([]) by {
      NothingAlternates();
    }
    if turns != [] {
      var (t, b) := turns[0];
      var first := TurnMessages(t) + Answer(t, b);
      var rest := if Stops(t, b) then [] else LoopMessages(turns[1..]);
      ControlConcat(first, rest);
      ControlOfTurn(t, b);
      LoopAlternates(turns[1..]);
      assert LoopMessages(turns) == first + rest;
      assert Alternates(Control(rest)) && |Control(rest)| % 2 == 0;
      AlternatesConcat(TurnMessages(t), Control(rest));
    }
  }

  predicate Serves(t: Turn) {
    t == Served || t == SocketFailed || t.Raised? || t == Interrupted(true)
  }

  function Tally(ms: seq<Message>, m: Message): nat {
    if ms == [] then 0 else (if ms[0] == m then 1 else 0) + Tally(ms[1..], m)
  }

  function Requests(turns: seq<(Turn, Broadcast)>): nat {
    if turns == [] then 0 else (if Serves(turns[0].0) then 1 else 0) + Requests(turns[1..])
  }

  /** What ends the loop: an interrupt, a handler that raised before it answered, or a restart order. */
  predicate EndsLoop(turn: (Turn, Broadcast)) {
    turn.0.Interrupted? || turn.0 == Raised(false) || turn.1 == Restart
  }

  function Asked(turns: seq<(Turn, Broadcast)>): nat {
    if turns == [] then 0 else (if turns[0].1 == AskReport && !EndsLoop(turns[0]) then 1 else 0) + Asked(turns[1..])
  }

  lemma {:induction false} TallyConcat(a: seq<Message>, b: seq<Message>, m: Message)
    ensures Tally(a + b, m) == Tally(a, m) + Tally(b, m)
  {
    if a == [] {
      assert a + b == b;
    } else {
      assert (a + b)[1..] == a[1..] + b;
      TallyConcat(a[1..], b, m);
    }
  }

  lemma TurnTells(t: Turn, b: Broadcast, m: Message)
    ensures Tally(TurnMessages(t) + Answer(t, b), m) ==
            if m.Report? then (if b == AskReport && !EndsLoop((t, b)) then 1 else 0) else if Serves(t) then 1 else 0
    ensures Stops(t, b) <==> EndsLoop((t, b))
  {
    TallyConcat(TurnMessages(t), Answer(t, b), m);
    assert [Busy, Done][1..] == [Done] && [Done][1..] == [] && [Report][1..] == [];
  }

  /** The loop takes its turns up to the first that ends it, with one READY each; every request served is
    * announced by one BUSY and closed by one DONE, and every report asked for is given. */
  lemma {:induction false} LoopTells(turns: seq<(Turn, Broadcast)>)
    ensures var n := Readys(turns);
            && n <= |turns|
            && (n < |turns| ==> n > 0 && EndsLoop(turns[n - 1]))
            && (forall i :: 0 <= i < n - 1 ==> !EndsLoop(turns[i]))
            && Tally(LoopMessages(turns), Busy) == Tally(LoopMessages(turns), Done) == Requests(turns[..n])
            && Tally(LoopMessages(turns), Report) == Asked(turns[..n])
  {
    hide TurnMessages, Answer, Stops;
    if turns != [] {
      var (t, b) := turns[0];
      var n := Readys(turns);
      var first := TurnMessages(t) + Answer(t, b);
      var rest := if Stops(t, b) then [] else LoopMessages(turns[1..]);
      assert LoopMessages(turns) == first + rest;
      TurnTells(t, b, Busy);
      TurnTells(t, b, Done);
      TurnTells(t, b, Report);
      TallyConcat(first, rest, Busy);
      TallyConcat(first, rest, Done);
      TallyConcat(first, rest, Report);
      LoopTells(turns[1..]);
      assert turns[..n][0] == turns[0] && turns[..n][1..] == turns[1..][..n - 1];
      assert Requests(turns[1..][..0]) == 0 && Asked(turns[1..][..0]) == 0;
    }
  }

  lemma NoTurns()
    ensures LoopMessages([]) == [] && Readys([]) == 0
  {
  }

  lemma TurnUnfolds(before: seq<Message>, turns: seq<(Turn, Broadcast)>)
    requires turns != []
    ensures var (t, b) := turns[0];
            && before + LoopMessages(turns) ==
               (before + (TurnMessages(t) + Answer(t, b))) + (if Stops(t, b) then [] else LoopMessages(turns[1..]))
            && Readys(turns) == 1 + if Stops(t, b) then 0 else Readys(turns[1..])
  {
  }

  class Client {
    var busy: bool
    var sent: seq<Message>

    constructor ()
      ensures !busy && sent == []
    {
      busy, sent := false, [];
    }

    method NotifyBusy()
      modifies this
      ensures busy && sent == old(sent) + if old(busy) then [] else [Busy]
    {
      if !busy {
        busy := true;
        sent := sent + [Busy];
      }
    }

    method NotifyDone()
      modifies this
      ensures !busy && sent == old(sent) + if old(busy) then [Done] else []
    {
      if busy {
        busy := false;
        sent := sent + [Done];
      }
    }

    method SendReport()
      modifies this`sent
      ensures sent == old(sent) + [Report]
    {
      sent := sent + [Report];
    }

    /** One turn of the worker loop after its READY; `stop` leaves the loop. */
    method RunTurn(t: Turn, b: Broadcast) returns (stop: bool)
      requires !busy
      modifies this
      ensures !busy && stop == Stops(t, b)
      ensures sent == old(sent) + (TurnMessages(t) + Answer(t, b))
    {
      if !t.Idle? && !t.ReceiveFailed? && !(t.Interrupted? && !t.busy) {
        NotifyBusy();
      }
      NotifyDone();
      assert sent == old(sent) + TurnMessages(t);
      if t.Interrupted? || (t.Raised? && !t.headerWritten) {
        return true;
      }
      if b.Restart? {
        return true;
      }
      if b.AskReport? {
        SendReport();
      }
      stop := false;
    }

    /** The worker loop, fed with what happens in each turn.  `readys` counts the READY messages. */
    method RunWorker(turns: seq<(Turn, Broadcast)>) returns (readys: nat)
      requires !busy
      modifies this
      ensures !busy && sent == old(sent) + LoopMessages(turns)
      ensures readys == Readys(turns)
    {
      hide LoopMessages, TurnMessages, Answer, Stops, Readys;
      readys := 0;
      var i := 0;
      assert LoopMessages([]) == [] && Readys([]) == 0 by {
        NoTurns();
      }
      while i < |turns|
        invariant 0 <= i <= |turns| && !busy
        invariant sent + LoopMessages(turns[i..]) == old(sent) + LoopMessages(turns)
        invariant readys + Readys(turns[i..]) == Readys(turns)
      {
        var (t, b) := turns[i];
        readys := readys + 1;
        TurnUnfolds(sent, turns[i..]);
        assert turns[i..][1..] == turns[i + 1..];
        var stop := RunTurn(t, b);
        if stop {
          return;
        }
        i := i + 1;
      }
    }
  }

  // ---------------------------------------------------------------- the supervisor

  /** A timer armed for a worker, due at `deadline`. */
  datatype Timer = Timer(pid: int, deadline: real)

  datatype Event =
    | Receive(now: real, pid: int, message: Message)
    | Expire(now: real, timer: nat)

  /** `timers` are those that may still fire, `busy` the handles kept by worker.  `lost` counts
    * callbacks that found no handle to delete. */
  datatype State = State(
    timers: map<nat, Timer>,
    busy: map<int, nat>,
    next: nat,
    killed: seq<int>,
    lost: nat)

  const Init := State(map[], map[], 0, [], 0)

  predicate Enabled(s: State, e: Event) {
    e.Expire? ==> e.timer in s.timers && s.timers[e.timer].deadline <= e.now
  }

  function Apply(timeout: real, s: State, e: Event): State {
    match e
    case Receive(now, pid, Busy) =>
      State(s.timers[s.next := Timer(pid, now + timeout)], s.busy[pid := s.next], s.next + 1, s.killed, s.lost)
    case Receive(_, pid, Done) =>
      if pid in s.busy then s.(timers := s.timers - {s.busy[pid]}, busy := s.busy - {pid}) else s
    case Receive(_, _, Report) => s
    case Expire(_, timer) =>
      if timer !in s.timers then s
      else
        var pid := s.timers[timer].pid;
        var t := s.(timers := s.timers - {timer});
        if pid in s.busy then t.(busy := s.busy - {pid}, killed := s.killed + [pid]) else t.(lost := s.lost + 1)
  }

  function Run(timeout: real, events: seq<Event>): State {
    if events == [] then Init
    else Apply(timeout, Run(timeout, events[..|events| - 1]), events[|events| - 1])
  }

  predicate Legal(timeout: real, events: seq<Event>) {
    events == [] ||
    (Legal(timeout, events[..|events| - 1]) &&
     Enabled(Run(timeout, events[..|events| - 1]), events[|events| - 1]))
  }

  lemma RunSnoc(timeout: real, events: seq<Event>, e: Event)
    ensures Run(timeout, events + [e]) == Apply(timeout, Run(timeout, events), e)
    ensures Legal(timeout, events + [e]) <==> Legal(timeout, events) && Enabled(Run(timeout, events), e)
  {
    assert (events + [e])[..|events|] == events;
  }

  /** Live timers and kept handles are the same thing. */
  ghost predicate Agree(s: State) {
    && (forall t :: t in s.timers ==> t < s.next && s.timers[t].pid in s.busy && s.busy[s.timers[t].pid] == t)
    && (forall pid :: pid in s.busy ==> s.busy[pid] in s.timers && s.timers[s.busy[pid]].pid == pid)
  }

  /** A step breaks the agreement in exactly one case: BUSY from a worker whose last BUSY is still
    * pending, whose timer then can no longer be cancelled. */
  lemma AgreeIff(timeout: real, s: State, e: Event)
    requires Agree(s) && Enabled(s, e)
    ensures Agree(Apply(timeout, s, e)) <==> !(e.Receive? && e.message.Busy? && e.pid in s.busy)
    ensures Apply(timeout, s, e).lost == s.lost
  {
    if e.Receive? && e.message.Busy? {
      var t := Apply(timeout, s, e);
      assert t.busy[e.pid] == s.next;
      if e.pid in s.busy {
        var earlier := s.busy[e.pid];
        assert earlier in t.timers && t.timers[earlier].pid == e.pid && earlier < s.next;
      }
    }
  }

  ghost predicate RepeatsBusy(timeout: real, events: seq<Event>, i: nat) {
    && i < |events|
    && events[i].Receive? && events[i].message.Busy?
    && events[i].pid in Run(timeout, events[..i]).busy
  }

  lemma {:induction false} LegalStep(timeout: real, events: seq<Event>, i: nat)
    requires Legal(timeout, events) && i < |events|
    ensures Legal(timeout, events[..i]) && Enabled(Run(timeout, events[..i]), events[i])
    ensures Run(timeout, events[..i + 1]) == Apply(timeout, Run(timeout, events[..i]), events[i])
  {
    var before := events[..|events| - 1];
    if i < |events| - 1 {
      LegalStep(timeout, before, i);
      assert before[..i] == events[..i] && before[..i + 1] == events[..i + 1];
    } else {
      assert events[..i + 1] == events;
    }
  }

  lemma {:induction false} AgreesUntil(timeout: real, events: seq<Event>, n: nat)
    requires Legal(timeout, events) && n <= |events|
    requires forall i :: 0 <= i < n ==> !RepeatsBusy(timeout, events, i)
    ensures Agree(Run(timeout, events[..n])) && Run(timeout, events[..n]).lost == 0
  {
    if n > 0 {
      AgreesUntil(timeout, events, n - 1);
      LegalStep(timeout, events, n - 1);
      assert !RepeatsBusy(timeout, events, n - 1);
      AgreeIff(timeout, Run(timeout, events[..n - 1]), events[n - 1]);
    }
  }

  /** Timers and handles agree all through a run if and only if no BUSY in it comes from a worker whose
    * handle is still kept. */
  lemma AgreesThroughoutIff(timeout: real, events: seq<Event>)
    requires Legal(timeout, events)
    ensures (forall n :: 0 <= n <= |events| ==> Agree(Run(timeout, events[..n]))) <==>
            (forall i :: 0 <= i < |events| ==> !RepeatsBusy(timeout, events, i))
  {
    if forall i :: 0 <= i < |events| ==> !RepeatsBusy(timeout, events, i) {
      forall n | 0 <= n <= |events| ensures Agree(Run(timeout, events[..n])) {
        AgreesUntil(timeout, events, n);
      }
    }
    forall i | 0 <= i < |events| && RepeatsBusy(timeout, events, i)
      ensures !(forall n :: 0 <= n <= |events| ==> Agree(Run(timeout, events[..n])))
    {
      LegalStep(timeout, events, i);
      if Agree(Run(timeout, events[..i])) {
        AgreeIff(timeout, Run(timeout, events[..i]), events[i]);
        assert !Agree(Run(timeout, events[..i + 1]));
      }
    }
  }

  function Received(events: seq<Event>, pid: int): seq<Message> {
    if events == [] then []
    else
      var e := events[|events| - 1];
      Received(events[..|events| - 1], pid) + if e.Receive? && e.pid == pid then [e.message] else []
  }

  ghost predicate Paired(events: seq<Event>) {
    forall pid :: Alternates(Control(Received(events, pid)))
  }

  predicate OpenBusy(ms: seq<Message>) {
    ms != [] && ms[|ms| - 1].Busy?
  }

  lemma ControlSnoc(ms: seq<Message>, m: Message)
    ensures Control(ms + [m]) == Control(ms) + if m.Report? then [] else [m]
  {
    assert (ms + [m])[..|ms|] == ms;
  }

  lemma AlternatesPrefix(a: seq<Message>, b: seq<Message>)
    requires a <= b && Alternates(b)
    ensures Alternates(a)
  {
  }

  lemma AlternatesBefore(events: seq<Event>, pid: int)
    requires events != [] && Alternates(Control(Received(events, pid)))
    ensures var before, e := events[..|events| - 1], events[|events| - 1];
            && Alternates(Control(Received(before, pid)))
            && (e == Receive(e.now, pid, Busy) ==> !OpenBusy(Control(Received(before, pid))))
            && Received(events, pid) == if e.Receive? && e.pid == pid then Received(before, pid) + [e.message]
                                        else Received(before, pid)
  {
    hide Alternates, Control, OpenBusy;
    var before, e := events[..|events| - 1], events[|events| - 1];
    if e.Receive? && e.pid == pid {
      ControlSnoc(Received(before, pid), e.message);
      AlternatesPrefix(Control(Received(before, pid)), Control(Received(events, pid)));
      if e.message.Busy? {
        BusyFollowsDone(Control(Received(before, pid)));
      }
    } else {
      assert Received(events, pid) == Received(before, pid);
    }
  }

  lemma BusyFollowsDone(ms: seq<Message>)
    requires Alternates(ms + [Busy])
    ensures !OpenBusy(ms)
  {
    assert (ms + [Busy])[|ms|] == Busy;
    if ms != [] {
      assert (ms + [Busy])[|ms| - 1] == ms[|ms| - 1];
    }
  }

  /** While the control messages of each worker arrive alternating, handles and timers agree, a
    * handle is only kept for a worker whose last control message heard was BUSY, and no kill is lost. */
  lemma {:induction false} AlwaysAgree(timeout: real, events: seq<Event>)
    requires Legal(timeout, events) && Paired(events)
    ensures var s := Run(timeout, events);
            && Agree(s) && s.lost == 0
            && forall pid :: pid in s.busy ==> OpenBusy(Control(Received(events, pid)))
  {
    hide Alternates, Control, OpenBusy, Received;
    if events != [] {
      var before, e := events[..|events| - 1], events[|events| - 1];
      forall pid ensures Alternates(Control(Received(before, pid))) {
        AlternatesBefore(events, pid);
      }
      AlwaysAgree(timeout, before);
      if e.Receive? {
        AlternatesBefore(events, e.pid);
      }
      var s, t := Run(timeout, before), Run(timeout, events);
      AgreeIff(timeout, s, e);
      forall pid | pid in t.busy ensures OpenBusy(Control(Received(events, pid))) {
        PairedHasOneTimer(timeout, events, pid);
      }
    }
  }

  // ---------------------------------------------------------------- what the supervisor has heard

  /** BUSY from `pid` at event `i`, due at `deadline`, and no control message heard from it since. */
  ghost predicate HeardBusySince(timeout: real, events: seq<Event>, pid: int, deadline: real, i: nat) {
    && i < |events|
    && events[i] == Receive(deadline - timeout, pid, Busy)
    && forall j :: i < j < |events| ==> !IsControl(events[j], pid)
  }

  predicate IsControl(e: Event, pid: int) {
    e.Receive? && e.pid == pid && !e.message.Report?
  }

  lemma HeardBusyLonger(timeout: real, events: seq<Event>, e: Event, pid: int, deadline: real, i: nat)
    requires HeardBusySince(timeout, events, pid, deadline, i) && !IsControl(e, pid)
    ensures HeardBusySince(timeout, events + [e], pid, deadline, i)
  {
  }

  lemma HeardBusyOnce(timeout: real, events: seq<Event>, pid: int, d: real, i: nat, e: real, j: nat)
    requires HeardBusySince(timeout, events, pid, d, i) && HeardBusySince(timeout, events, pid, e, j)
    ensures i == j && d == e
  {
    assert IsControl(events[i], pid) && IsControl(events[j], pid);
  }

  /** What no run can break: each kept handle is that of a live timer of its own worker. */
  ghost predicate HandlesLive(s: State) {
    && (forall t :: t in s.timers ==> t < s.next)
    && (forall pid :: pid in s.busy ==> s.busy[pid] in s.timers && s.timers[s.busy[pid]].pid == pid)
  }

  lemma HandleKept(timeout: real, s: State, e: Event, pid: int)
    requires HandlesLive(s) && pid in Apply(timeout, s, e).busy && !IsControl(e, pid)
    ensures pid in s.busy
    ensures var t := Apply(timeout, s, e);
            t.busy[pid] == s.busy[pid] && s.busy[pid] in t.timers && t.timers[s.busy[pid]] == s.timers[s.busy[pid]]
  {
  }

  lemma {:induction false} HandlesAlwaysLive(timeout: real, events: seq<Event>)
    ensures HandlesLive(Run(timeout, events))
  {
    if events != [] {
      HandlesAlwaysLive(timeout, events[..|events| - 1]);
    }
  }

  /** Whatever messages were lost, the timer of a kept handle is that of the last BUSY heard, with no
    * control message heard since. */
  lemma {:induction false} HandlesAreHeard(timeout: real, events: seq<Event>, pid: int) returns (i: nat)
    requires pid in Run(timeout, events).busy
    ensures var s := Run(timeout, events);
            s.busy[pid] in s.timers && HeardBusySince(timeout, events, pid, s.timers[s.busy[pid]].deadline, i)
  {
    var before, e := events[..|events| - 1], events[|events| - 1];
    var s := Run(timeout, before);
    HandlesAlwaysLive(timeout, before);
    if IsControl(e, pid) {
      i := |events| - 1;
    } else {
      HandleKept(timeout, s, e, pid);
      i := HandlesAreHeard(timeout, before, pid);
      assert events == before + [e];
      HeardBusyLonger(timeout, before, e, pid, s.timers[s.busy[pid]].deadline, i);
    }
  }

  /** The worker that an event is about, if any: the sender, or the one whose timer fires. */
  function About(s: State, e: Event): set<int> {
    if e.Receive? then {e.pid} else if e.timer in s.timers then {s.timers[e.timer].pid} else {}
  }

  /** A worker's timers and its handle are the same in both states. */
  ghost predicate SameFor(s: State, t: State, pid: int) {
    && (forall n :: n in s.timers && s.timers[n].pid == pid ==> n in t.timers && t.timers[n] == s.timers[n])
    && (forall n :: n in t.timers && t.timers[n].pid == pid ==> n in s.timers)
    && (pid in s.busy <==> pid in t.busy)
    && (pid in s.busy ==> t.busy[pid] == s.busy[pid])
  }

  /** An event about one worker changes no timer and no handle of another, and kills no other. */
  lemma OthersUntouched(timeout: real, events: seq<Event>, e: Event, pid: int)
    requires pid !in About(Run(timeout, events), e)
    ensures SameFor(Run(timeout, events), Run(timeout, events + [e]), pid)
    ensures Run(timeout, events + [e]).killed == Run(timeout, events).killed
            || exists q :: q != pid && Run(timeout, events + [e]).killed == Run(timeout, events).killed + [q]
  {
    RunSnoc(timeout, events, e);
    HandlesAlwaysLive(timeout, events);
    if e.Expire? && e.timer in Run(timeout, events).timers {
      assert Run(timeout, events).timers[e.timer].pid != pid;
    }
  }

  /** At event `j` a timer of `pid` fires. */
  ghost predicate Fires(timeout: real, events: seq<Event>, pid: int, j: nat) {
    && j < |events| && events[j].Expire?
    && pid in About(Run(timeout, events[..j]), events[j])
  }

  /** The last control message heard from `pid` is the BUSY at `i`, due at `deadline`, and no timer of the
    * worker has fired since. */
  ghost predicate Pending(timeout: real, events: seq<Event>, pid: int, deadline: real, i: nat) {
    && HeardBusySince(timeout, events, pid, deadline, i)
    && forall j :: i < j < |events| ==> !Fires(timeout, events, pid, j)
  }

  lemma PendingSnoc(timeout: real, before: seq<Event>, e: Event, pid: int, deadline: real, i: nat)
    requires i < |before|
    ensures Pending(timeout, before + [e], pid, deadline, i) <==>
            && Pending(timeout, before, pid, deadline, i) && !IsControl(e, pid)
            && !(e.Expire? && pid in About(Run(timeout, before), e))
  {
    var all := before + [e];
    assert all[..|before|] == before && all[|before|] == e;
    forall j: nat | j < |before| ensures Fires(timeout, all, pid, j) == Fires(timeout, before, pid, j) {
      assert all[..j] == before[..j] && all[j] == before[j];
    }
    assert Fires(timeout, all, pid, |before|) <==> e.Expire? && pid in About(Run(timeout, before), e);
    if Pending(timeout, all, pid, deadline, i) {
      assert forall j :: i < j < |before| ==> all[j] == before[j];
      assert !Fires(timeout, all, pid, |before|) && !IsControl(all[|before|], pid);
    }
  }

  /** A worker that is not done is not forgotten: while it is pending its handle is kept, and the timer
    * of the handle is live and due a full timeout after its BUSY. */
  lemma {:induction false} PendingIsKept(timeout: real, events: seq<Event>, pid: int, deadline: real, i: nat)
    requires Pending(timeout, events, pid, deadline, i)
    ensures var s := Run(timeout, events);
            && pid in s.busy && s.busy[pid] in s.timers
            && s.timers[s.busy[pid]] == Timer(pid, deadline)
    decreases |events|
  {
    var before, e := events[..|events| - 1], events[|events| - 1];
    assert events == before + [e];
    RunSnoc(timeout, before, e);
    if i < |events| - 1 {
      PendingSnoc(timeout, before, e, pid, deadline, i);
      PendingIsKept(timeout, before, pid, deadline, i);
      HandlesAlwaysLive(timeout, before);
      if pid !in About(Run(timeout, before), e) {
        OthersUntouched(timeout, before, e, pid);
      }
    }
  }

  /** The converse: a kept handle is that of a pending worker. */
  lemma {:induction false} KeptIsPending(timeout: real, events: seq<Event>, pid: int) returns (deadline: real, i: nat)
    requires pid in Run(timeout, events).busy
    ensures Pending(timeout, events, pid, deadline, i)
    decreases |events|
  {
    var before, e := events[..|events| - 1], events[|events| - 1];
    assert events == before + [e];
    RunSnoc(timeout, before, e);
    HandlesAlwaysLive(timeout, before);
    if IsControl(e, pid) {
      deadline, i := e.now + timeout, |events| - 1;
    } else {
      HandleKept(timeout, Run(timeout, before), e, pid);
      deadline, i := KeptIsPending(timeout, before, pid);
      PendingSnoc(timeout, before, e, pid, deadline, i);
    }
  }

  /** Every stalled worker is killed: in every run, a handle is kept for a worker if and only if its last
    * control message heard is a BUSY and none of its timers has fired since; and from the time at which
    * that BUSY is a full timeout old, the timer can fire, and kills. */
  lemma StalledIsKilled(timeout: real, events: seq<Event>, pid: int, now: real)
    ensures pid in Run(timeout, events).busy <==>
            exists i: nat, deadline :: Pending(timeout, events, pid, deadline, i)
    ensures forall i: nat, deadline :: Pending(timeout, events, pid, deadline, i) && deadline <= now ==>
              var s := Run(timeout, events);
              && pid in s.busy
              && Enabled(s, Expire(now, s.busy[pid]))
              && Run(timeout, events + [Expire(now, s.busy[pid])]).killed == s.killed + [pid]
  {
    if pid in Run(timeout, events).busy {
      var d, i := KeptIsPending(timeout, events, pid);
    }
    forall i: nat, deadline | Pending(timeout, events, pid, deadline, i)
      ensures pid in Run(timeout, events).busy
      ensures var s := Run(timeout, events);
              deadline <= now ==>
                && Enabled(s, Expire(now, s.busy[pid]))
                && Run(timeout, events + [Expire(now, s.busy[pid])]).killed == s.killed + [pid]
    {
      PendingIsKept(timeout, events, pid, deadline, i);
      RunSnoc(timeout, events, Expire(now, Run(timeout, events).busy[pid]));
    }
  }

  /** To the supervisor `pid` seems to have been busy for a full timeout by `now`. */
  ghost predicate SeemsStalled(timeout: real, events: seq<Event>, now: real, pid: int) {
    exists i: nat, deadline :: HeardBusySince(timeout, events, pid, deadline, i) && deadline <= now
  }

  /** In every run: a timer that fires kills if and only if a handle is kept for its worker, and the
    * worker seems stalled if and only if the timer of the kept handle, which need not be the one that
    * fired, is due as well. */
  lemma KillAsHeardIff(timeout: real, events: seq<Event>, now: real, t: nat) returns (i: nat)
    requires Enabled(Run(timeout, events), Expire(now, t))
    ensures var s := Run(timeout, events);
            var pid := s.timers[t].pid;
            && Apply(timeout, s, Expire(now, t)).killed == s.killed + (if pid in s.busy then [pid] else [])
            && Apply(timeout, s, Expire(now, t)).lost == s.lost + (if pid in s.busy then 0 else 1)
            && (pid in s.busy ==>
                 && s.busy[pid] in s.timers
                 && HeardBusySince(timeout, events, pid, s.timers[s.busy[pid]].deadline, i)
                 && (SeemsStalled(timeout, events, now, pid) <==> s.timers[s.busy[pid]].deadline <= now))
  {
    var s := Run(timeout, events);
    var pid := s.timers[t].pid;
    i := 0;
    if pid in s.busy {
      i := HandlesAreHeard(timeout, events, pid);
      var due := s.timers[s.busy[pid]].deadline;
      if SeemsStalled(timeout, events, now, pid) {
        var j: nat, d :| HeardBusySince(timeout, events, pid, d, j) && d <= now;
        HeardBusyOnce(timeout, events, pid, due, i, d, j);
      }
    }
  }

  /** The one live timer of `pid`, if any, is that of its kept handle. */
  ghost predicate OneTimer(s: State, pid: int) {
    forall t :: t in s.timers && s.timers[t].pid == pid ==> pid in s.busy && s.busy[pid] == t
  }

  lemma OneTimerStep(timeout: real, s: State, e: Event, pid: int)
    requires HandlesLive(s) && OneTimer(s, pid)
    requires e == Receive(e.now, pid, Busy) ==> pid !in s.busy
    ensures OneTimer(Apply(timeout, s, e), pid)
  {
  }

  lemma {:induction false} OneTimerUntilRepeat(timeout: real, events: seq<Event>, pid: int)
    requires forall i: nat :: RepeatsBusy(timeout, events, i) ==> events[i].pid != pid
    ensures OneTimer(Run(timeout, events), pid)
  {
    if events != [] {
      var before, e := events[..|events| - 1], events[|events| - 1];
      var last: nat := |events| - 1;
      forall i: nat | RepeatsBusy(timeout, before, i) ensures before[i].pid != pid {
        assert before[..i] == events[..i];
        assert RepeatsBusy(timeout, events, i);
      }
      OneTimerUntilRepeat(timeout, before, pid);
      HandlesAlwaysLive(timeout, before);
      assert RepeatsBusy(timeout, events, last) <==>
          e.Receive? && e.message.Busy? && e.pid in Run(timeout, before).busy;
      OneTimerStep(timeout, Run(timeout, before), e, pid);
    }
  }

  /** One worker whose control messages are heard alternating has one timer at most, whatever is heard
    * of the others. */
  lemma {:induction false} PairedHasOneTimer(timeout: real, events: seq<Event>, pid: int)
    requires Alternates(Control(Received(events, pid)))
    ensures OneTimer(Run(timeout, events), pid)
    ensures pid in Run(timeout, events).busy ==> OpenBusy(Control(Received(events, pid)))
  {
    hide Alternates, Control, OpenBusy;
    if events != [] {
      var before, e := events[..|events| - 1], events[|events| - 1];
      AlternatesBefore(events, pid);
      PairedHasOneTimer(timeout, before, pid);
      HandlesAlwaysLive(timeout, before);
      OneTimerStep(timeout, Run(timeout, before), e, pid);
      if IsControl(e, pid) {
        ControlSnoc(Received(before, pid), e.message);
        EndsOpen(Control(Received(before, pid)), e.message);
      } else if pid in Run(timeout, events).busy {
        HandleKept(timeout, Run(timeout, before), e, pid);
        if e.Receive? && e.pid == pid {
          ControlSnoc(Received(before, pid), Report);
          assert Control(Received(before, pid)) + [] == Control(Received(before, pid));
        }
      }
    }
  }

  lemma EndsOpen(ms: seq<Message>, m: Message)
    ensures OpenBusy(ms + [m]) <==> m.Busy?
  {
  }

  /** When the timer of a worker heard alternating fires, a BUSY was heard from it at least a full timeout
    * earlier and neither DONE nor BUSY since, and its handle is there to delete. */
  lemma KillsOnlyStalled(timeout: real, events: seq<Event>, now: real, t: nat) returns (i: nat)
    requires Enabled(Run(timeout, events), Expire(now, t))
    requires Alternates(Control(Received(events, Run(timeout, events).timers[t].pid)))
    ensures var s := Run(timeout, events);
            var pid := s.timers[t].pid;
            && HeardBusySince(timeout, events, pid, s.timers[t].deadline, i)
            && events[i].now + timeout <= now
            && SeemsStalled(timeout, events, now, pid)
            && Apply(timeout, s, Expire(now, t)).killed == s.killed + [pid]
            && Apply(timeout, s, Expire(now, t)).lost == s.lost
  {
    PairedHasOneTimer(timeout, events, Run(timeout, events).timers[t].pid);
    i := KillAsHeardIff(timeout, events, now, t);
  }

  // ---------------------------------------------------------------- what the workers have told

  /** Both sides: a worker tells a message; the supervisor hears, later or at once, the one told at
    * position `told`; or a timer fires.  A message that is dropped is never heard. */
  datatype Happening =
    | Tell(now: real, pid: int, message: Message)
    | Hear(now: real, pid: int, message: Message, told: nat)
    | Fire(now: real, timer: nat)

  /** What is heard was told before, and the messages of one worker do not overtake each other. */
  ghost predicate Carried(hs: seq<Happening>) {
    && (forall k :: 0 <= k < |hs| && hs[k].Hear? ==> HeardFrom(hs, k))
    && (forall k, l :: 0 <= k < l < |hs| && hs[k].Hear? && hs[l].Hear? && hs[k].pid == hs[l].pid ==>
          hs[k].told < hs[l].told)
  }

  predicate HeardFrom(hs: seq<Happening>, k: nat)
    requires k < |hs| && hs[k].Hear?
  {
    var i := hs[k].told;
    i < k && hs[i] == Tell(hs[i].now, hs[k].pid, hs[k].message) && hs[i].now <= hs[k].now
  }

  /** The supervisor's part of what happens. */
  function Arrivals(hs: seq<Happening>): seq<Event> {
    if hs == [] then [] else Arrivals(hs[..|hs| - 1]) + Arrival(hs[|hs| - 1])
  }

  function Arrival(h: Happening): seq<Event> {
    match h
    case Tell(_, _, _) => []
    case Hear(now, pid, message, _) => [Receive(now, pid, message)]
    case Fire(now, timer) => [Expire(now, timer)]
  }

  lemma ArrivalsSnoc(hs: seq<Happening>, h: Happening)
    ensures Arrivals(hs + [h]) == Arrivals(hs) + Arrival(h)
  {
    assert (hs + [h])[..|hs|] == hs;
  }

  function Told(hs: seq<Happening>, pid: int): seq<Message> {
    if hs == [] then []
    else
      var before, h := Told(hs[..|hs| - 1], pid), hs[|hs| - 1];
      if h.Tell? && h.pid == pid then before + [h.message] else before
  }

  predicate Tells(h: Happening, pid: int) {
    h.Tell? && h.pid == pid && !h.message.Report?
  }

  predicate Hears(h: Happening, pid: int) {
    h.Hear? && h.pid == pid && !h.message.Report?
  }

  /** The worker is busy, and has been since position `i`. */
  ghost predicate BusySince(hs: seq<Happening>, pid: int, i: nat) {
    && i < |hs| && Tells(hs[i], pid) && hs[i].message.Busy?
    && forall j :: i < j < |hs| ==> !Tells(hs[j], pid)
  }

  /** The worker has really been busy for a full timeout by `now`. */
  ghost predicate Deserved(timeout: real, hs: seq<Happening>, now: real, pid: int) {
    exists i: nat :: BusySince(hs, pid, i) && hs[i].now + timeout <= now
  }

  /** No control message told at `i` or later has been heard. */
  ghost predicate NoneHeardFrom(hs: seq<Happening>, pid: int, i: nat) {
    forall k :: 0 <= k < |hs| && Hears(hs[k], pid) ==> hs[k].told < i
  }

  /** A control message was told after the last one heard: it was dropped, or is still on its way. */
  ghost predicate Unheard(hs: seq<Happening>, pid: int) {
    exists i: nat :: i < |hs| && Tells(hs[i], pid) && NoneHeardFrom(hs, pid, i)
  }

  /** The BUSY for which the worker has been busy for a full timeout was not heard itself. */
  ghost predicate UnheardStall(timeout: real, hs: seq<Happening>, now: real, pid: int) {
    exists i: nat :: BusySince(hs, pid, i) && NoneHeardFrom(hs, pid, i) && hs[i].now + timeout <= now
  }

  lemma NothingKept(timeout: real, hs: seq<Happening>, pid: int)
    requires pid in Run(timeout, Arrivals(hs)).busy
    ensures hs != []
  {
  }

  lemma BusyArms(timeout: real, s: State, now: real, pid: int, message: Message)
    requires !message.Report? && pid in Apply(timeout, s, Receive(now, pid, message)).busy
    ensures var t := Apply(timeout, s, Receive(now, pid, message));
            && message.Busy? && t.busy[pid] in t.timers
            && t.timers[t.busy[pid]].deadline == now + timeout
  {
  }

  lemma {:induction false} HandleIsHeard(timeout: real, hs: seq<Happening>, pid: int) returns (k: nat)
    requires pid in Run(timeout, Arrivals(hs)).busy
    ensures var s := Run(timeout, Arrivals(hs));
            && s.busy[pid] in s.timers
            && k < |hs| && Hears(hs[k], pid) && hs[k].message.Busy?
            && hs[k].now + timeout == s.timers[s.busy[pid]].deadline
            && forall l :: k < l < |hs| ==> !Hears(hs[l], pid)
  {
    hide Apply, HandlesLive, Run, Arrivals;
    NothingKept(timeout, hs, pid);
    var before, h := hs[..|hs| - 1], hs[|hs| - 1];
    assert hs == before + [h];
    ArrivalsSnoc(before, h);
    if h.Tell? {
      assert Arrivals(hs) == Arrivals(before);
      k := HandleIsHeard(timeout, before, pid);
    } else {
      var e := Arrival(h)[0];
      assert Arrival(h) == [e];
      RunSnoc(timeout, Arrivals(before), e);
      HandlesAlwaysLive(timeout, Arrivals(before));
      if Hears(h, pid) {
        BusyArms(timeout, Run(timeout, Arrivals(before)), h.now, pid, h.message);
        k := |hs| - 1;
      } else {
        HandleKept(timeout, Run(timeout, Arrivals(before)), e, pid);
        k := HandleIsHeard(timeout, before, pid);
      }
    }
  }

  lemma HeardLastIff(hs: seq<Happening>, pid: int, k: nat)
    requires Carried(hs)
    requires k < |hs| && Hears(hs[k], pid) && hs[k].message.Busy?
    requires forall l :: k < l < |hs| ==> !Hears(hs[l], pid)
    ensures HeardFrom(hs, k)
    ensures NoneHeardFrom(hs, pid, hs[k].told + 1)
    ensures BusySince(hs, pid, hs[k].told) <==> !Unheard(hs, pid)
  {
    var i := hs[k].told;
    if !BusySince(hs, pid, i) {
      var j: nat :| i < j < |hs| && Tells(hs[j], pid);
      assert NoneHeardFrom(hs, pid, j);
    }
  }

  lemma DeservedAsHeard(timeout: real, hs: seq<Happening>, now: real, pid: int, i: nat)
    requires i < |hs| && Tells(hs[i], pid) && NoneHeardFrom(hs, pid, i + 1)
    requires BusySince(hs, pid, i) <==> !Unheard(hs, pid)
    ensures Deserved(timeout, hs, now, pid) <==>
              if Unheard(hs, pid) then UnheardStall(timeout, hs, now, pid) else hs[i].now + timeout <= now
  {
    if Deserved(timeout, hs, now, pid) {
      var j: nat :| BusySince(hs, pid, j) && hs[j].now + timeout <= now;
      assert j >= i;
      assert j > i ==> NoneHeardFrom(hs, pid, j);
    }
  }

  /** Exactly when a kill is deserved, whatever messages are dropped, late or repeated.  A timer that
    * fires kills if and only if a handle is kept for its worker; the handle was armed by hearing, at
    * `k`, a BUSY told at `i`.  If nothing told since is unheard, the kill is deserved if and only if that
    * BUSY is a full timeout old, for which it is enough that the timer of the kept handle, which need not
    * be the one that fired, is due.  Otherwise the worker is not busy with what the handle stands for,
    * and the kill is deserved only by a later BUSY that the supervisor has not heard. */
  lemma KillDeservedIff(timeout: real, hs: seq<Happening>, now: real, t: nat) returns (i: nat, k: nat)
    requires Carried(hs) && Enabled(Run(timeout, Arrivals(hs)), Expire(now, t))
    ensures var s := Run(timeout, Arrivals(hs));
            var pid := s.timers[t].pid;
            && Apply(timeout, s, Expire(now, t)).killed == s.killed + (if pid in s.busy then [pid] else [])
            && (pid in s.busy ==>
                 && s.busy[pid] in s.timers
                 && i < k < |hs|
                 && hs[k] == Hear(s.timers[s.busy[pid]].deadline - timeout, pid, Busy, i)
                 && hs[i] == Tell(hs[i].now, pid, Busy) && hs[i].now <= hs[k].now
                 && (BusySince(hs, pid, i) <==> !Unheard(hs, pid))
                 && (Deserved(timeout, hs, now, pid) <==>
                       if Unheard(hs, pid) then UnheardStall(timeout, hs, now, pid)
                       else hs[i].now + timeout <= now))
  {
    var s := Run(timeout, Arrivals(hs));
    var pid := s.timers[t].pid;
    hide Run, Arrivals, Carried, BusySince, NoneHeardFrom, Unheard, UnheardStall, Deserved;
    i, k := 0, 0;
    if pid in s.busy {
      k := HandleIsHeard(timeout, hs, pid);
      HeardLastIff(hs, pid, k);
      i := hs[k].told;
      DeservedAsHeard(timeout, hs, now, pid, i);
    }
  }

  /** A kill that is not deserved takes a control message of that worker that was not heard, dropped or on
    * its way, after the last one heard; or else, earlier in the run, a BUSY heard from it while its handle
    * was still kept. */
  lemma WrongKillMeansLoss(timeout: real, hs: seq<Happening>, now: real, t: nat)
    requires Carried(hs) && Enabled(Run(timeout, Arrivals(hs)), Expire(now, t))
    requires !Deserved(timeout, hs, now, Run(timeout, Arrivals(hs)).timers[t].pid)
    ensures var pid := Run(timeout, Arrivals(hs)).timers[t].pid;
            || pid !in Run(timeout, Arrivals(hs)).busy
            || Unheard(hs, pid)
            || exists n: nat :: RepeatsBusy(timeout, Arrivals(hs), n) && Arrivals(hs)[n].pid == pid
  {
    var s := Run(timeout, Arrivals(hs));
    var pid := s.timers[t].pid;
    if pid in s.busy && forall n: nat :: RepeatsBusy(timeout, Arrivals(hs), n) ==> Arrivals(hs)[n].pid != pid {
      OneTimerUntilRepeat(timeout, Arrivals(hs), pid);
      var i, k := KillDeservedIff(timeout, hs, now, t);
    }
  }

  /** Supervisor and worker together.  What a worker tells is the start of what its loop sends, whatever
    * its turns; of that, what is heard has no gap, whatever happens to the messages of others.  Then a
    * timer of the worker that fires always kills, and while nothing told is unheard the kill is deserved. */
  lemma WorkersAreSafe(timeout: real, hs: seq<Happening>, turns: seq<(Turn, Broadcast)>, now: real, t: nat)
    requires Carried(hs) && Enabled(Run(timeout, Arrivals(hs)), Expire(now, t))
    requires var pid := Run(timeout, Arrivals(hs)).timers[t].pid;
             && Told(hs, pid) <= LoopMessages(turns)
             && Control(Received(Arrivals(hs), pid)) <= Control(Told(hs, pid))
    ensures var s := Run(timeout, Arrivals(hs));
            var pid := s.timers[t].pid;
            && Apply(timeout, s, Expire(now, t)).killed == s.killed + [pid]
            && (!Unheard(hs, pid) ==> Deserved(timeout, hs, now, pid))
  {
    hide Control, Alternates, Received;
    var pid := Run(timeout, Arrivals(hs)).timers[t].pid;
    var told, all := Told(hs, pid), LoopMessages(turns);
    LoopAlternates(turns);
    assert all == told + all[|told|..];
    ControlConcat(told, all[|told|..]);
    AlternatesPrefix(Control(Received(Arrivals(hs), pid)), Control(all));
    PairedHasOneTimer(timeout, Arrivals(hs), pid);
    var i, k := KillDeservedIff(timeout, hs, now, t);
  }

  // ---------------------------------------------------------------- the two ways in which a kill goes wrong

  /** One lost DONE kills an idle worker: it served its one request in a second, and nine seconds later
    * the timer of its BUSY fires. */
  lemma LostDoneKillsIdle(pid: int)
    ensures var hs := [Tell(0.0, pid, Busy), Hear(0.0, pid, Busy, 0), Tell(1.0, pid, Done)];
            var s := Run(10.0, Arrivals(hs));
            && Carried(hs) && Legal(10.0, Arrivals(hs))
            && Told(hs, pid) == LoopMessages([(Served, Silence)])
            && Enabled(s, Expire(10.0, 0))
            && Apply(10.0, s, Expire(10.0, 0)).killed == [pid]
            && SeemsStalled(10.0, Arrivals(hs), 10.0, pid)
            && Unheard(hs, pid) && !Deserved(10.0, hs, 10.0, pid)
  {
    var hs := [Tell(0.0, pid, Busy), Hear(0.0, pid, Busy, 0), Tell(1.0, pid, Done)];
    var events := [Receive(0.0, pid, Busy)];
    OneRequest(pid);
    RunSnoc(10.0, [], events[0]);
    assert [] + events == events;
    assert HeardBusySince(10.0, events, pid, 10.0, 0);
    assert Tells(hs[2], pid) && NoneHeardFrom(hs, pid, 2);
  }

  lemma OneRequest(pid: int)
    ensures var hs := [Tell(0.0, pid, Busy), Hear(0.0, pid, Busy, 0), Tell(1.0, pid, Done)];
            Arrivals(hs) == [Receive(0.0, pid, Busy)] && Told(hs, pid) == LoopMessages([(Served, Silence)])
  {
    var hs := [Tell(0.0, pid, Busy), Hear(0.0, pid, Busy, 0), Tell(1.0, pid, Done)];
    ArrivalsUpTo(hs, 1);
    ArrivalsUpTo(hs, 2);
    ArrivalsUpTo(hs, 3);
    assert hs[..3] == hs && hs[..2][..1] == hs[..1] && hs[..0] == [];
    assert Told(hs[..1], pid) == [Busy] && Told(hs[..2], pid) == [Busy];
    assert LoopMessages([(Served, Silence)]) == [Busy, Done] + [] + [];
  }

  /** One lost DONE kills a worker at its third request, though everything told after it was heard: the
    * first timer survives the DONE that answers the second BUSY, and fires at a worker that has been busy
    * for one second of ten. */
  lemma LostDoneKills(pid: int)
    ensures var hs :=
              [Tell(0.0, pid, Busy), Hear(0.0, pid, Busy, 0), Tell(1.0, pid, Done),
               Tell(5.0, pid, Busy), Hear(5.0, pid, Busy, 3), Tell(6.0, pid, Done), Hear(6.0, pid, Done, 5),
               Tell(9.0, pid, Busy), Hear(9.0, pid, Busy, 7)];
            var s := Run(10.0, Arrivals(hs));
            && Carried(hs) && Legal(10.0, Arrivals(hs))
            && Enabled(s, Expire(10.0, 0))
            && Apply(10.0, s, Expire(10.0, 0)).killed == [pid]
            && !Unheard(hs, pid) && !Deserved(10.0, hs, 10.0, pid)
  {
    var hs := ThirdRequest(pid);
    ThirdRequestArrives(pid);
    assert hs[7] == Tell(9.0, pid, Busy) && BusySince(hs, pid, 7);
    HeardLastIff(hs, pid, 8);
    var e1 := [Receive(0.0, pid, Busy)];
    var e2 := e1 + [Receive(5.0, pid, Busy)];
    var e3 := e2 + [Receive(6.0, pid, Done)];
    assert [] + [Receive(0.0, pid, Busy)] == e1;
    RunSnoc(10.0, [], Receive(0.0, pid, Busy));
    RunSnoc(10.0, e1, Receive(5.0, pid, Busy));
    RunSnoc(10.0, e2, Receive(6.0, pid, Done));
    RunSnoc(10.0, e3, Receive(9.0, pid, Busy));
  }

  function ThirdRequest(pid: int): seq<Happening> {
    [Tell(0.0, pid, Busy), Hear(0.0, pid, Busy, 0), Tell(1.0, pid, Done),
     Tell(5.0, pid, Busy), Hear(5.0, pid, Busy, 3), Tell(6.0, pid, Done), Hear(6.0, pid, Done, 5),
     Tell(9.0, pid, Busy), Hear(9.0, pid, Busy, 7)]
  }

  lemma ThirdRequestArrives(pid: int)
    ensures Carried(ThirdRequest(pid))
    ensures Arrivals(ThirdRequest(pid)) ==
            [Receive(0.0, pid, Busy)] + [Receive(5.0, pid, Busy)] + [Receive(6.0, pid, Done)] +
            [Receive(9.0, pid, Busy)]
  {
    hide Arrivals;
    var hs := ThirdRequest(pid);
    NothingArrives(hs);
    PairArrives(hs, 0);
    ArrivalsUpTo(hs, 3);
    var e1 := [Receive(0.0, pid, Busy)];
    assert Arrivals(hs[..3]) == e1;
    PairArrives(hs, 3);
    PairArrives(hs, 5);
    PairArrives(hs, 7);
    assert hs[..9] == hs;
  }

  lemma PairArrives(hs: seq<Happening>, n: nat)
    requires n + 2 <= |hs| && hs[n].Tell? && hs[n + 1].Hear?
    ensures Arrivals(hs[..n + 2]) == Arrivals(hs[..n]) + [Receive(hs[n + 1].now, hs[n + 1].pid, hs[n + 1].message)]
  {
    ArrivalsUpTo(hs, n + 1);
    ArrivalsUpTo(hs, n + 2);
  }

  lemma NothingArrives(hs: seq<Happening>)
    ensures Arrivals(hs[..0]) == []
  {
  }

  lemma ArrivalsUpTo(hs: seq<Happening>, n: nat)
    requires 0 < n <= |hs|
    ensures Arrivals(hs[..n]) == Arrivals(hs[..n - 1]) + Arrival(hs[n - 1])
  {
    assert hs[..n] == hs[..n - 1] + [hs[n - 1]];
    ArrivalsSnoc(hs[..n - 1], hs[n - 1]);
  }

  class Server {
    const timeout: real
    var timers: map<nat, Timer>
    var busy: map<int, nat>
    var next: nat
    ghost var killed: seq<int>
    ghost var lost: nat

    ghost function View(): State
      reads this
    {
      State(timers, busy, next, killed, lost)
    }

    constructor (timeout: real)
      ensures View() == Init && this.timeout == timeout
    {
      this.timeout := timeout;
      timers, busy, next, killed, lost := map[], map[], 0, [], 0;
    }

    method HandleMessage(now: real, pid: int, message: Message)
      modifies this
      ensures View() == Apply(timeout, old(View()), Receive(now, pid, message))
    {
      match message
      case Busy =>
        timers := timers[next := Timer(pid, now + timeout)];
        busy := busy[pid := next];
        next := next + 1;
      case Done =>
        if pid in busy {
          var handle := busy[pid];
          busy := busy - {pid};
          timers := timers - {handle};
        }
      case Report =>
    }

    /** The timer callback. */
    method Kill(now: real, timer: nat)
      requires Enabled(View(), Expire(now, timer))
      modifies this
      ensures View() == Apply(timeout, old(View()), Expire(now, timer))
    {
      var pid := timers[timer].pid;
      timers := timers - {timer};
      if pid in busy {
        busy := busy - {pid};
        killed := killed + [pid];
      } else {
        lost := lost + 1;
      }
    }
  }
}
