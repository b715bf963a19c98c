/** The server that gathers the update notices of all workers and tells the observers once. */
module Observer {
  import opened Wire
  import opened CacheManager

  /** The time in the latest message about a key. */
  function LastTime(ms: seq<Notice>, key: string): Option<int> {
    if ms == [] then None
    else if ms[|ms| - 1].key == key then Some(ms[|ms| - 1].time)
    else LastTime(ms[..|ms| - 1], key)
  }

  predicate IsNews(ms: seq<Notice>, m: Notice) {
    LastTime(ms, m.key).None? || LastTime(ms, m.key).value < m.time
  }

  /** The messages that are passed on, in order. */
  function Told(ms: seq<Notice>): seq<Notice> {
    if ms == [] then []
    else
      var before, m := ms[..|ms| - 1], ms[|ms| - 1];
      Told(before) + if IsNews(before, m) then [m] else []
  }

  class Server {
    var lastUpdates: map<string, (int, UpdateState)>
    var told: seq<Notice>
    ghost var received: seq<Notice>

    ghost predicate Valid()
      reads this
    {
      && told == Told(received)
      && forall key ::
           LastTime(received, key) == if key in lastUpdates then Some(lastUpdates[key].0) else None
    }

    constructor ()
      ensures Valid() && received == []
    {
      lastUpdates, told, received := map[], [], [];
    }

    /** One message; the table takes its time even when it is older. */
    method Receive(m: Notice) returns (notify: bool)
      requires Valid()
      modifies this
      ensures Valid() && received == old(received) + [m]
      ensures told == old(told) + if notify then [m] else []
    {
      notify := if m.key in lastUpdates then lastUpdates[m.key].0 < m.time else true;
      lastUpdates := lastUpdates[m.key := (m.time, m.state)];
      if notify {
        told := told + [m];
      }
      received := received + [m];
      assert received[..|received| - 1] == old(received);
    }
  }

  /** `ms[j]` is the previous message about the key of `ms[i]`. */
  ghost predicate Precedes(ms: seq<Notice>, j: nat, i: nat) {
    j < i < |ms| && ms[j].key == ms[i].key && forall k :: j < k < i ==> ms[k].key != ms[i].key
  }

  lemma {:induction false} LastTimeIs(ms: seq<Notice>, i: nat)
    requires i < |ms|
    ensures LastTime(ms[..i], ms[i].key).None? <==> forall j :: 0 <= j < i ==> ms[j].key != ms[i].key
    ensures forall j: nat :: Precedes(ms, j, i) ==> LastTime(ms[..i], ms[i].key) == Some(ms[j].time)
  {
    LastTimeBefore(ms, i, i);
  }

  lemma {:induction false} LastTimeBefore(ms: seq<Notice>, n: nat, i: nat)
    requires n <= i < |ms|
    ensures var t := LastTime(ms[..n], ms[i].key);
            && (t.None? <==> forall j :: 0 <= j < n ==> ms[j].key != ms[i].key)
            && forall j: nat ::
                 j < n && ms[j].key == ms[i].key && (forall k :: j < k < n ==> ms[k].key != ms[i].key) ==>
                   t == Some(ms[j].time)
  {
    if n > 0 {
      assert ms[..n][..n - 1] == ms[..n - 1];
      LastTimeBefore(ms, n - 1, i);
    }
  }

  /** Over any stream: a message is passed on if and only if it is the first about its key or its time
    * exceeds that of the previous message about the key. */
  lemma ToldIff(ms: seq<Notice>, i: nat)
    requires i < |ms|
    ensures Told(ms[..i + 1]) ==
            Told(ms[..i]) +
            if forall j: nat :: Precedes(ms, j, i) ==> ms[j].time < ms[i].time then [ms[i]] else []
  {
    LastTimeIs(ms, i);
    assert ms[..i + 1][..i] == ms[..i];
    if LastTime(ms[..i], ms[i].key).Some? {
      var j := Latest(ms, i);
      assert Precedes(ms, j, i);
    }
  }

  ghost function Latest(ms: seq<Notice>, i: nat): (j: nat)
    requires i < |ms| && exists j :: 0 <= j < i && ms[j].key == ms[i].key
    ensures Precedes(ms, j, i)
  {
    LatestBelow(ms, i, i)
  }

  ghost function LatestBelow(ms: seq<Notice>, n: nat, i: nat): (j: nat)
    requires n <= i < |ms| && exists j :: 0 <= j < n && ms[j].key == ms[i].key
    requires forall k :: n <= k < i ==> ms[k].key != ms[i].key
    ensures Precedes(ms, j, i)
  {
    if ms[n - 1].key == ms[i].key then n - 1 else LatestBelow(ms, n - 1, i)
  }

  // ---------------------------------------------------------------- exactly once

  /** The times of a key never go down along the stream. */
  ghost predicate NeverDown(ms: seq<Notice>) {
    forall i, j :: 0 <= i < j < |ms| && ms[i].key == ms[j].key ==> ms[i].time <= ms[j].time
  }

  lemma {:induction false} LastTimeIsHighest(ms: seq<Notice>, key: string)
    requires NeverDown(ms)
    ensures forall i :: 0 <= i < |ms| && ms[i].key == key ==>
              LastTime(ms, key).Some? && ms[i].time <= LastTime(ms, key).value
    ensures LastTime(ms, key).Some? ==>
              exists i :: 0 <= i < |ms| && ms[i].key == key && ms[i].time == LastTime(ms, key).value
  {
    if ms != [] && ms[|ms| - 1].key != key {
      var before := ms[..|ms| - 1];
      LastTimeIsHighest(before, key);
      forall i | 0 <= i < |ms| && ms[i].key == key
        ensures LastTime(ms, key).Some? && ms[i].time <= LastTime(ms, key).value
      {
        assert before[i] == ms[i];
      }
    }
  }

  /** Observers are up to date: the last they heard of a key is the last message about it. */
  ghost predicate InSync(ms: seq<Notice>) {
    forall key :: LastTime(Told(ms), key) == LastTime(ms, key)
  }

  lemma ToldSnoc(before: seq<Notice>, m: Notice)
    ensures Told(before + [m]) == Told(before) + if IsNews(before, m) then [m] else []
    ensures forall key :: LastTime(before + [m], key) == if m.key == key then Some(m.time) else LastTime(before, key)
    ensures forall key :: LastTime(Told(before) + [m], key) ==
              if m.key == key then Some(m.time) else LastTime(Told(before), key)
  {
    assert (before + [m])[..|before|] == before;
    var t := Told(before);
    assert (t + [m])[..|t|] == t;
  }

  lemma InSyncSnoc(before: seq<Notice>, m: Notice)
    requires InSync(before)
    ensures InSync(before + [m]) <==> LastTime(before, m.key).None? || LastTime(before, m.key).value <= m.time
  {
    hide Told, LastTime;
    ToldSnoc(before, m);
    var t := Told(before);
    assert t + [] == t;
    assert LastTime(t, m.key) == LastTime(before, m.key);
    if !IsNews(before, m) {
      assert Told(before + [m]) == t;
      assert LastTime(before + [m], m.key) == Some(m.time);
      if LastTime(before, m.key) == Some(m.time) {
        assert InSync(before + [m]);
      } else {
        assert LastTime(Told(before + [m]), m.key) != LastTime(before + [m], m.key);
      }
    } else {
      assert InSync(before + [m]);
    }
  }

  /** Observers are up to date after every message if and only if times never go down per key. */
  lemma {:induction false} InSyncIffNeverDown(ms: seq<Notice>)
    ensures (forall n :: 0 <= n <= |ms| ==> InSync(ms[..n])) <==> NeverDown(ms)
  {
    hide InSync, Told, LastTime;
    if ms == [] {
      assert ms[..0] == [];
      EmptyInSync();
    } else {
      var before, m := ms[..|ms| - 1], ms[|ms| - 1];
      InSyncIffNeverDown(before);
      assert ms == before + [m] && ms[..|ms|] == ms && before[..|before|] == before;
      assert forall n :: 0 <= n <= |before| ==> before[..n] == ms[..n];
      if NeverDown(before) {
        assert InSync(before[..|before|]);
        InSyncSnoc(before, m);
        NeverDownSnoc(before, m);
      } else {
        NeverDownPrefix(before, m);
      }
    }
  }

  lemma EmptyInSync()
    ensures InSync([])
  {
  }

  lemma NeverDownPrefix(before: seq<Notice>, m: Notice)
    ensures NeverDown(before + [m]) ==> NeverDown(before)
  {
    var ms := before + [m];
    if NeverDown(ms) {
      forall i, j | 0 <= i < j < |before| && before[i].key == before[j].key ensures before[i].time <= before[j].time {
        assert ms[i] == before[i] && ms[j] == before[j];
      }
    }
  }

  lemma NeverDownSnoc(before: seq<Notice>, m: Notice)
    requires NeverDown(before)
    ensures NeverDown(before + [m]) <==> LastTime(before, m.key).None? || LastTime(before, m.key).value <= m.time
  {
    LastTimeIsHighest(before, m.key);
    var ms := before + [m];
    assert forall i :: 0 <= i < |before| ==> ms[i] == before[i];
    assert ms[|before|] == m;
  }

  ghost predicate StrictlyUp(ns: seq<Notice>) {
    forall i, j :: 0 <= i < j < |ns| && ns[i].key == ns[j].key ==> ns[i].time < ns[j].time
  }

  ghost predicate Mentions(ns: seq<Notice>, key: string, time: int) {
    exists i :: 0 <= i < |ns| && ns[i].key == key && ns[i].time == time
  }

  /** While times never go down, the observers hear of each distinct key and time exactly once, and of
    * the times of a key in increasing order. */
  lemma {:induction false} ExactlyOnce(ms: seq<Notice>)
    requires NeverDown(ms)
    ensures StrictlyUp(Told(ms))
    ensures forall key, time :: Mentions(Told(ms), key, time) <==> Mentions(ms, key, time)
  {
    if ms != [] {
      var before, m := ms[..|ms| - 1], ms[|ms| - 1];
      assert ms == before + [m];
      NeverDownPrefix(before, m);
      ExactlyOnce(before);
      NeverDownSnoc(before, m);
      LastTimeIsHighest(before, m.key);
      OnceMore(before, m);
    }
  }

  lemma OnceMore(before: seq<Notice>, m: Notice)
    requires StrictlyUp(Told(before))
    requires forall key, time :: Mentions(Told(before), key, time) <==> Mentions(before, key, time)
    requires NeverDown(before)
    requires LastTime(before, m.key).None? || LastTime(before, m.key).value <= m.time
    ensures StrictlyUp(Told(before + [m]))
    ensures forall key, time :: Mentions(Told(before + [m]), key, time) <==> Mentions(before + [m], key, time)
  {
    hide Told, LastTime;
    ToldSnoc(before, m);
    LastTimeIsHighest(before, m.key);
    var t, ms := Told(before), before + [m];
    MentionsSnoc(before, m);
    MentionsSnoc(t, m);
    if IsNews(before, m) {
      forall i | 0 <= i < |t| && t[i].key == m.key ensures t[i].time < m.time {
        assert Mentions(t, t[i].key, t[i].time);
        var j :| 0 <= j < |before| && before[j].key == t[i].key && before[j].time == t[i].time;
      }
    } else {
      var last := LastTime(before, m.key).value;
      assert last == m.time;
      assert t + [] == t;
      assert Mentions(before, m.key, m.time);
    }
  }

  lemma MentionsSnoc(ns: seq<Notice>, m: Notice)
    ensures forall key, time ::
              Mentions(ns + [m], key, time) <==> Mentions(ns, key, time) || (m.key == key && m.time == time)
  {
    var all := ns + [m];
    forall key, time
      ensures Mentions(all, key, time) <==> Mentions(ns, key, time) || (m.key == key && m.time == time)
    {
      assert all[|ns|] == m;
      if Mentions(ns, key, time) {
        var i :| 0 <= i < |ns| && ns[i].key == key && ns[i].time == time;
        assert all[i] == ns[i];
      }
    }
  }

  // ---------------------------------------------------------------- all workers together

  /** Any number of workers, each with its own cache, over one store; `log` is what reaches the
    * server, in the order in which it was sent. */
  datatype Fleet = Fleet(workers: map<int, Caches>, history: seq<World>, log: seq<Notice>)

  datatype FleetEvent = Store(world: World) | Start(pid: int) | Act(pid: int, event: Event)

  function FleetStep(capacity: nat, f: Fleet, e: FleetEvent): Fleet
    requires capacity > 0 && f.history != []
    ensures FleetStep(capacity, f, e).history != []
  {
    match e
    case Store(w) => f.(history := f.history + [w])
    case Start(pid) => f.(workers := f.workers[pid := Empty])
    case Act(pid, event) =>
      if event.Change? || pid !in f.workers then f
      else
        var c := Step(capacity, Life(f.workers[pid].(notices := f.log), f.history, 0), event).caches;
        f.(workers := f.workers[pid := c], log := c.notices)
  }

  function FleetRun(capacity: nat, start: World, events: seq<FleetEvent>): Fleet
    requires capacity > 0
    ensures FleetRun(capacity, start, events).history != []
  {
    if events == [] then Fleet(map[], [start], [])
    else FleetStep(capacity, FleetRun(capacity, start, events[..|events| - 1]), events[|events| - 1])
  }

  ghost predicate WasCurrent(n: Notice, history: seq<World>) {
    exists h :: 0 <= h < |history| && IsCurrent(n, history[h])
  }

  ghost predicate FleetSound(capacity: nat, f: Fleet) {
    && f.history != []
    && (forall pid :: pid in f.workers ==> Sound(capacity, f.workers[pid], f.history, 0))
    && (forall i :: 0 <= i < |f.log| ==> WasCurrent(f.log[i], f.history))
    && NeverDown(f.log)
  }

  lemma LogGrows(c: Caches, d: Caches, history: seq<World>)
    requires history != [] && Versioned(history)
    requires forall i :: 0 <= i < |c.notices| ==> WasCurrent(c.notices[i], history)
    requires NeverDown(c.notices)
    requires TellsNow(c, d, Now(history))
    ensures forall i :: 0 <= i < |d.notices| ==> WasCurrent(d.notices[i], history)
    ensures NeverDown(d.notices)
  {
    var last := |history| - 1;
    forall i | 0 <= i < |d.notices| ensures WasCurrent(d.notices[i], history) {
      if i < |c.notices| {
        assert d.notices[i] == c.notices[i];
      } else {
        assert IsCurrent(d.notices[i], history[last]);
      }
    }
    forall i, j | 0 <= i < j < |d.notices| && d.notices[i].key == d.notices[j].key
      ensures d.notices[i].time <= d.notices[j].time
    {
      if j < |c.notices| {
        assert d.notices[i] == c.notices[i] && d.notices[j] == c.notices[j];
      } else {
        assert IsCurrent(d.notices[j], history[last]);
        var h :| 0 <= h < |history| && IsCurrent(d.notices[i], history[h]);
        assert InOrder(history[h], history[last], d.notices[i].key);
      }
    }
  }

  lemma FleetStepSound(capacity: nat, f: Fleet, e: FleetEvent)
    requires capacity > 0 && FleetSound(capacity, f) && Versioned(f.history)
    ensures FleetSound(capacity, FleetStep(capacity, f, e))
  {
    hide Step;
    match e {
      case Store(w) =>
        forall pid | pid in f.workers ensures Sound(capacity, f.workers[pid], f.history + [w], 0) {
          HeldLonger(f.workers[pid].lru, f.history, 0, w);
          HeldLonger(f.workers[pid].statics, f.history, 0, w);
        }
        forall i | 0 <= i < |f.log| ensures WasCurrent(f.log[i], f.history + [w]) {
          var h :| 0 <= h < |f.history| && IsCurrent(f.log[i], f.history[h]);
          assert IsCurrent(f.log[i], (f.history + [w])[h]);
        }
      case Start(pid) =>
      case Act(pid, event) =>
        if !event.Change? && pid in f.workers {
          var l := Life(f.workers[pid].(notices := f.log), f.history, 0);
          StepSound(capacity, l, event);
          StepTells(capacity, l, event);
          LogGrows(l.caches, Step(capacity, l, event).caches, f.history);
          KeepsHistory(capacity, l, event);
        }
    }
  }

  lemma KeepsHistory(capacity: nat, l: Life, e: Event)
    requires capacity > 0 && l.history != [] && !e.Change?
    requires Sound(capacity, Step(capacity, l, e).caches, Step(capacity, l, e).history, Step(capacity, l, e).since)
    ensures Step(capacity, l, e).history == l.history
    ensures Sound(capacity, Step(capacity, l, e).caches, l.history, 0)
  {
    var m := Step(capacity, l, e);
    forall key | key in m.caches.lru.vals ensures Held(l.history, 0, key, m.caches.lru.vals[key]) {
    }
    forall key | key in m.caches.statics.vals ensures Held(l.history, 0, key, m.caches.statics.vals[key]) {
    }
  }

  lemma HistoryGrows(capacity: nat, f: Fleet, e: FleetEvent)
    requires capacity > 0 && f.history != [] && Versioned(FleetStep(capacity, f, e).history)
    ensures Versioned(f.history)
  {
    var g := FleetStep(capacity, f, e);
    forall i, j, key | 0 <= i <= j < |f.history| ensures InOrder(f.history[i], f.history[j], key) {
      assert InOrder(g.history[i], g.history[j], key);
    }
  }

  lemma {:induction false} FleetAlwaysSound(capacity: nat, start: World, events: seq<FleetEvent>)
    requires capacity > 0 && Versioned(FleetRun(capacity, start, events).history)
    ensures FleetSound(capacity, FleetRun(capacity, start, events))
  {
    if events != [] {
      var before, e := events[..|events| - 1], events[|events| - 1];
      HistoryGrows(capacity, FleetRun(capacity, start, before), e);
      FleetAlwaysSound(capacity, start, before);
      FleetStepSound(capacity, FleetRun(capacity, start, before), e);
    }
  }

  /** Positions of the notices that were not dropped on the way. */
  ghost predicate Positions(kept: seq<nat>, ms: seq<Notice>) {
    && (forall i :: 0 <= i < |kept| ==> kept[i] < |ms|)
    && forall i, j :: 0 <= i < j < |kept| ==> kept[i] < kept[j]
  }

  function Pick(ms: seq<Notice>, kept: seq<nat>): (ns: seq<Notice>)
    requires forall i :: 0 <= i < |kept| ==> kept[i] < |ms|
    ensures |ns| == |kept| && forall i :: 0 <= i < |kept| ==> ns[i] == ms[kept[i]]
  {
    seq(|kept|, i requires 0 <= i < |kept| => ms[kept[i]])
  }

  lemma NeverDownAmongKept(ms: seq<Notice>, kept: seq<nat>)
    requires NeverDown(ms) && Positions(kept, ms)
    ensures NeverDown(Pick(ms, kept))
  {
  }

  /** Workers, caches and server together, whatever notices the workers' sockets drop.  While every
    * change of the store raises its modified time and the notices that arrive do so in the order in
    * which they were sent, the observers hear exactly once, and in increasing order, of each key and
    * second that arrives, however many workers report it; and they know of the latest of them after
    * each one. */
  lemma FleetToldOnce(capacity: nat, start: World, events: seq<FleetEvent>, kept: seq<nat>)
    requires capacity > 0 && Versioned(FleetRun(capacity, start, events).history)
    requires Positions(kept, FleetRun(capacity, start, events).log)
    ensures var arrived := Pick(FleetRun(capacity, start, events).log, kept);
            && StrictlyUp(Told(arrived))
            && (forall key, time :: Mentions(Told(arrived), key, time) <==> Mentions(arrived, key, time))
            && forall n :: 0 <= n <= |arrived| ==> InSync(arrived[..n])
  {
    var log := FleetRun(capacity, start, events).log;
    FleetAlwaysSound(capacity, start, events);
    NeverDownAmongKept(log, kept);
    ExactlyOnce(Pick(log, kept));
    InSyncIffNeverDown(Pick(log, kept));
  }
}
