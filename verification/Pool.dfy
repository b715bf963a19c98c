/** The pool of worker processes: reaping those that exited and starting replacements. */
module Pool {
  /** A process, by its start number, which no later process gets again. */
  type Process = nat

  /** The exit codes read during one sweep; a process that still runs has none. */
  type ExitCodes = map<Process, int>

  /** Seconds during which a failing worker aborts the whole server. */
  const EARLY_FAILURE_DELAY := 5.0

  function Alive(ps: seq<Process>, exits: ExitCodes): seq<Process> {
    if ps == [] then []
    else Alive(ps[..|ps| - 1], exits) + if ps[|ps| - 1] in exits then [] else [ps[|ps| - 1]]
  }

  /** The next `n` processes to be started. */
  function Fresh(next: Process, n: nat): seq<Process> {
    seq(n, i requires 0 <= i < n => next + i)
  }

  lemma {:induction false} AliveConcat(a: seq<Process>, b: seq<Process>, exits: ExitCodes)
    ensures Alive(a + b, exits) == Alive(a, exits) + Alive(b, exits)
  {
    if b == [] {
      assert a + b == a;
    } else {
      assert (a + b)[..|a + b| - 1] == a + b[..|b| - 1];
      AliveConcat(a, b[..|b| - 1], exits);
    }
  }

  lemma {:induction false} AliveIs(ps: seq<Process>, exits: ExitCodes)
    ensures forall p :: p in Alive(ps, exits) <==> p in ps && p !in exits
    ensures |Alive(ps, exits)| <= |ps|
    ensures |Alive(ps, exits)| == |ps| <==> forall p :: p in ps ==> p !in exits
  {
    if ps != [] {
      AliveIs(ps[..|ps| - 1], exits);
      assert ps == ps[..|ps| - 1] + [ps[|ps| - 1]];
    }
  }

  function Missing(numWorkers: nat, ps: seq<Process>): nat {
    if |ps| < numWorkers then numWorkers - |ps| else 0
  }

  ghost predicate AnyExited(ps: seq<Process>, exits: ExitCodes) {
    exists p :: p in ps && p in exits
  }

  ghost predicate AnyFailed(ps: seq<Process>, exits: ExitCodes) {
    exists p :: p in ps && p in exits && exits[p] != 0
  }

  lemma OneMore(p: Process, ps: seq<Process>, exits: ExitCodes)
    ensures Alive([p] + ps, exits) == (if p in exits then [] else [p]) + Alive(ps, exits)
    ensures AnyExited([p] + ps, exits) <==> p in exits || AnyExited(ps, exits)
    ensures AnyFailed([p] + ps, exits) <==> (p in exits && exits[p] != 0) || AnyFailed(ps, exits)
  {
    AliveConcat([p], ps, exits);
    assert [p][..0] == [];
    assert forall q :: q in [p] + ps <==> q == p || q in ps;
    if p in exits {
      assert p in [p] + ps;
    }
  }

  /** The list while it is walked backwards: untouched before `i`, reaped from there on. */
  function Swept(all: seq<Process>, i: nat, exits: ExitCodes): seq<Process>
    requires i <= |all|
  {
    all[..i] + Alive(all[i..], exits)
  }

  lemma NothingSwept(all: seq<Process>, exits: ExitCodes)
    ensures Swept(all, |all|, exits) == all && Swept(all, 0, exits) == Alive(all, exits)
    ensures all[|all|..] == [] && all[0..] == all
    ensures !AnyExited([], exits) && !AnyFailed([], exits)
  {
    assert all[..|all|] == all && all[0..] == all;
  }

  lemma SweptNext(all: seq<Process>, i: nat, exits: ExitCodes)
    requires i < |all|
    ensures var was := Swept(all, i + 1, exits);
            && i < |was| && was[i] == all[i]
            && Swept(all, i, exits) == if all[i] in exits then was[..i] + was[i + 1..] else was
    ensures AnyExited(all[i..], exits) <==> all[i] in exits || AnyExited(all[i + 1..], exits)
    ensures AnyFailed(all[i..], exits) <==> (all[i] in exits && exits[all[i]] != 0) || AnyFailed(all[i + 1..], exits)
  {
    assert all[i..] == [all[i]] + all[i + 1..];
    OneMore(all[i], all[i + 1..], exits);
  }

  /** The list shared with the finalizer that terminates the pool at exit. */
  class ProcessList {
    var items: seq<Process>

    constructor ()
      ensures items == []
    {
      items := [];
    }
  }

  class Pool {
    const numWorkers: nat
    const startTime: real
    const processes: ProcessList
    var started: Process
    var criticalFailure: bool

    ghost predicate Valid()
      reads this, processes
    {
      && |processes.items| <= numWorkers
      && (forall i :: 0 <= i < |processes.items| ==> processes.items[i] < started)
      && (forall i, j :: 0 <= i < j < |processes.items| ==> processes.items[i] != processes.items[j])
    }

    ghost predicate Full()
      reads this, processes
    {
      Valid() && |processes.items| == numWorkers
    }

    constructor (numWorkers: nat, now: real)
      ensures Full() && this.numWorkers == numWorkers && startTime == now && !criticalFailure
      ensures processes.items == Fresh(0, numWorkers) && started == numWorkers
      ensures fresh(processes)
    {
      this.numWorkers, startTime, started, criticalFailure := numWorkers, now, 0, false;
      processes := new ProcessList();
      new;
      RepopulatePool();
    }

    method RepopulatePool()
      requires Valid()
      modifies this`started, processes
      ensures Full()
      ensures processes.items == old(processes.items) + Fresh(old(started), numWorkers - |old(processes.items)|)
      ensures started == old(started) + numWorkers - |old(processes.items)|
    {
      var n := numWorkers - |processes.items|;
      for i := 0 to n
        invariant started == old(started) + i
        invariant processes.items == old(processes.items) + Fresh(old(started), i)
        invariant Valid()
      {
        processes.items := processes.items + [started];
        started := started + 1;
        assert Fresh(old(started), i + 1) == Fresh(old(started), i) + [old(started) + i];
      }
    }

    /** Walks the list backwards, deleting as it goes.  An early failure aborts the server. */
    method JoinExitedWorkers(exits: ExitCodes, now: real) returns (cleaned: bool)
      requires Valid()
      modifies this`criticalFailure, processes
      ensures Valid()
      ensures processes.items == Alive(old(processes.items), exits)
      ensures cleaned <==> AnyExited(old(processes.items), exits)
      ensures criticalFailure <==>
                old(criticalFailure) ||
                (now - startTime < EARLY_FAILURE_DELAY && AnyFailed(old(processes.items), exits))
    {
      hide Alive, AnyExited, AnyFailed, Swept;
      cleaned := false;
      var i := |processes.items|;
      ghost var all := processes.items;
      NothingSwept(all, exits);
      while i > 0
        invariant 0 <= i <= |all|
        invariant processes.items == Swept(all, i, exits)
        invariant cleaned <==> AnyExited(all[i..], exits)
        invariant criticalFailure <==>
                    old(criticalFailure) ||
                    (now - startTime < EARLY_FAILURE_DELAY && AnyFailed(all[i..], exits))
      {
        i := i - 1;
        SweptNext(all, i, exits);
        var worker := processes.items[i];
        if worker in exits {
          if exits[worker] != 0 {
            if now - startTime < EARLY_FAILURE_DELAY {
              criticalFailure := true;
            }
          }
          cleaned := true;
          processes.items := processes.items[..i] + processes.items[i + 1..];
        }
      }
      KeepsDistinct(all, exits);
    }

    lemma KeepsDistinct(all: seq<Process>, exits: ExitCodes)
      requires forall i, j :: 0 <= i < j < |all| ==> all[i] != all[j]
      ensures var alive := Alive(all, exits); forall i, j :: 0 <= i < j < |alive| ==> alive[i] != alive[j]
      ensures |Alive(all, exits)| <= |all|
      ensures forall i :: 0 <= i < |Alive(all, exits)| ==> Alive(all, exits)[i] in all
    {
      DistinctAlive(all, exits);
      AliveIs(all, exits);
    }

    /** Whatever workers exit: the pool is full again, in the same list, with the workers found alive
      * in their old order and fresh ones after them. */
    method MaintainPool(exits: ExitCodes, now: real)
      requires Full()
      modifies this`criticalFailure, this`started, processes
      ensures Full()
      ensures var alive := Alive(old(processes.items), exits);
              && processes.items == alive + Fresh(old(started), Missing(numWorkers, alive))
              && started == old(started) + Missing(numWorkers, alive)
      ensures criticalFailure <==>
                old(criticalFailure) ||
                (now - startTime < EARLY_FAILURE_DELAY && AnyFailed(old(processes.items), exits))
    {
      AliveIs(processes.items, exits);
      var cleaned := JoinExitedWorkers(exits, now);
      if cleaned {
        RepopulatePool();
      }
    }
  }

  lemma {:induction false} DistinctAlive(all: seq<Process>, exits: ExitCodes)
    requires forall i, j :: 0 <= i < j < |all| ==> all[i] != all[j]
    ensures var alive := Alive(all, exits); forall i, j :: 0 <= i < j < |alive| ==> alive[i] != alive[j]
  {
    if all != [] {
      var before, p := all[..|all| - 1], all[|all| - 1];
      DistinctAlive(before, exits);
      AliveIs(before, exits);
      assert p !in before;
    }
  }

  // ---------------------------------------------------------------- whole runs

  /** The pool after a number of sweeps, and the number of processes started so far. */
  function AfterSweeps(numWorkers: nat, sweeps: seq<ExitCodes>): (seq<Process>, Process) {
    if sweeps == [] then (Fresh(0, numWorkers), numWorkers)
    else
      var (items, started) := AfterSweeps(numWorkers, sweeps[..|sweeps| - 1]);
      var alive := Alive(items, sweeps[|sweeps| - 1]);
      (alive + Fresh(started, Missing(numWorkers, alive)), started + Missing(numWorkers, alive))
  }

  ghost predicate Ascending(ps: seq<Process>) {
    forall i, j :: 0 <= i < j < |ps| ==> ps[i] < ps[j]
  }

  lemma {:induction false} AliveAscending(ps: seq<Process>, exits: ExitCodes)
    requires Ascending(ps)
    ensures Ascending(Alive(ps, exits))
  {
    if ps != [] {
      var before := ps[..|ps| - 1];
      AliveAscending(before, exits);
      AliveIs(before, exits);
      forall i | 0 <= i < |Alive(before, exits)| ensures Alive(before, exits)[i] < ps[|ps| - 1] {
        assert Alive(before, exits)[i] in before;
      }
    }
  }

  ghost predicate SeenToExit(p: Process, sweeps: seq<ExitCodes>) {
    exists k :: 0 <= k < |sweeps| && p in sweeps[k]
  }

  /** Over any number of sweeps the pool holds exactly `numWorkers` processes, oldest first, and every
    * process ever started is in it or was seen to have exited in some sweep. */
  lemma {:induction false} PoolIsStable(numWorkers: nat, sweeps: seq<ExitCodes>)
    ensures var (items, started) := AfterSweeps(numWorkers, sweeps);
            && |items| == numWorkers
            && Ascending(items)
            && (forall p :: p in items ==> p < started)
            && forall p: Process :: p < started && p !in items ==> SeenToExit(p, sweeps)
  {
    if sweeps == [] {
      forall p: Process | p < numWorkers ensures p in Fresh(0, numWorkers) {
        assert Fresh(0, numWorkers)[p] == p;
      }
    } else {
      var before, exits := sweeps[..|sweeps| - 1], sweeps[|sweeps| - 1];
      PoolIsStable(numWorkers, before);
      var (items, started) := AfterSweeps(numWorkers, before);
      AliveIs(items, exits);
      AliveAscending(items, exits);
      var alive := Alive(items, exits);
      FreshFollow(alive, started, Missing(numWorkers, alive));
      var (items', started') := AfterSweeps(numWorkers, sweeps);
      forall p: Process | p < started' && p !in items' ensures SeenToExit(p, sweeps) {
        if p in items {
          assert p in sweeps[|sweeps| - 1];
        } else {
          assert SeenToExit(p, before);
          var k :| 0 <= k < |before| && p in before[k];
          assert p in sweeps[k];
        }
      }
    }
  }

  lemma FreshFollow(alive: seq<Process>, started: Process, n: nat)
    requires Ascending(alive) && forall p :: p in alive ==> p < started
    ensures var items := alive + Fresh(started, n);
            && Ascending(items)
            && (forall p :: p in items ==> p < started + n)
            && (forall p: Process :: started <= p < started + n ==> p in items)
            && forall p :: p in alive ==> p in items
  {
    var items := alive + Fresh(started, n);
    forall i, j | 0 <= i < j < |items| ensures items[i] < items[j] {
      if i < |alive| {
        assert items[i] in alive;
      }
    }
    forall p: Process | started <= p < started + n ensures p in items {
      assert items[|alive| + (p - started)] == p;
    }
  }

  /** The exit codes found by one sweep, and its time. */
  datatype Sweep = Sweep(exits: ExitCodes, now: real)

  function Exits(sweeps: seq<Sweep>): seq<ExitCodes> {
    if sweeps == [] then [] else Exits(sweeps[..|sweeps| - 1]) + [sweeps[|sweeps| - 1].exits]
  }

  /** Sweep `k`, within the first five seconds, finds a worker of the pool that failed. */
  ghost predicate FailsEarly(numWorkers: nat, start: real, sweeps: seq<Sweep>, k: nat)
    requires k < |sweeps|
  {
    && sweeps[k].now - start < 5.0
    && AnyFailed(AfterSweeps(numWorkers, Exits(sweeps[..k])).0, sweeps[k].exits)
  }

  /** The loop of the pool process: it sweeps until the sweep that finds an early failure, and after
    * each sweep the pool is the one `AfterSweeps` describes. */
  method RunPool(numWorkers: nat, start: real, sweeps: seq<Sweep>) returns (pool: Pool, done: nat)
    ensures fresh(pool) && fresh(pool.processes)
    ensures pool.Full() && pool.numWorkers == numWorkers
    ensures done <= |sweeps|
    ensures (pool.processes.items, pool.started) == AfterSweeps(numWorkers, Exits(sweeps[..done]))
    ensures forall k :: 0 <= k < done - 1 ==> !FailsEarly(numWorkers, start, sweeps, k)
    ensures pool.criticalFailure <==> done > 0 && FailsEarly(numWorkers, start, sweeps, done - 1)
    ensures done < |sweeps| ==> pool.criticalFailure
    ensures Ascending(pool.processes.items)
    ensures forall p: Process :: p < pool.started && p !in pool.processes.items ==>
              SeenToExit(p, Exits(sweeps[..done]))
  {
    hide Alive, AfterSweeps, Exits, AnyFailed, Ascending, SeenToExit, Fresh, Missing;
    pool := new Pool(numWorkers, start);
    done := 0;
    NoSweeps(numWorkers, sweeps);
    while done < |sweeps| && !pool.criticalFailure
      invariant fresh(pool) && fresh(pool.processes)
      invariant pool.Full() && pool.numWorkers == numWorkers && pool.startTime == start
      invariant done <= |sweeps|
      invariant (pool.processes.items, pool.started) == AfterSweeps(numWorkers, Exits(sweeps[..done]))
      invariant forall k :: 0 <= k < done - 1 ==> !FailsEarly(numWorkers, start, sweeps, k)
      invariant pool.criticalFailure <==> done > 0 && FailsEarly(numWorkers, start, sweeps, done - 1)
    {
      pool.MaintainPool(sweeps[done].exits, sweeps[done].now);
      SweepUnfolds(numWorkers, sweeps, done);
      done := done + 1;
    }
    PoolIsStable(numWorkers, Exits(sweeps[..done]));
  }

  lemma NoSweeps(numWorkers: nat, sweeps: seq<Sweep>)
    ensures AfterSweeps(numWorkers, Exits(sweeps[..0])) == (Fresh(0, numWorkers), numWorkers)
  {
  }

  lemma SweepUnfolds(numWorkers: nat, sweeps: seq<Sweep>, k: nat)
    requires k < |sweeps|
    ensures var (items, started) := AfterSweeps(numWorkers, Exits(sweeps[..k]));
            var alive := Alive(items, sweeps[k].exits);
            AfterSweeps(numWorkers, Exits(sweeps[..k + 1])) ==
            (alive + Fresh(started, Missing(numWorkers, alive)), started + Missing(numWorkers, alive))
  {
    assert sweeps[..k + 1][..k] == sweeps[..k];
    var exits := Exits(sweeps[..k + 1]);
    assert exits == Exits(sweeps[..k]) + [sweeps[k].exits];
    assert exits[..|exits| - 1] == Exits(sweeps[..k]);
  }
}
