/** Killing workers when memory runs short. */
module Oom {
  /** A child process and the fraction of the memory that it and its descendants use. */
  datatype Child = Child(pid: int, mem: real)

  ghost predicate DistinctPids(cs: seq<Child>) {
    forall i, j :: 0 <= i < j < |cs| ==> cs[i].pid != cs[j].pid
  }

  ghost predicate Usage(cs: seq<Child>) {
    forall i :: 0 <= i < |cs| ==> cs[i].mem >= 0.0
  }

  function Total(cs: seq<Child>): real {
    if cs == [] then 0.0 else cs[0].mem + Total(cs[1..])
  }

  /** The memory of the children in `pids`. */
  function Freed(cs: seq<Child>, pids: set<int>): real {
    if cs == [] then 0.0 else (if cs[0].pid in pids then cs[0].mem else 0.0) + Freed(cs[1..], pids)
  }

  // ---------------------------------------------------------------- the sort

  function Insert(c: Child, cs: seq<Child>): seq<Child> {
    if cs == [] || c.mem >= cs[0].mem then [c] + cs else [cs[0]] + Insert(c, cs[1..])
  }

  /** A stable descending sort by memory. */
  function Sorted(cs: seq<Child>): seq<Child> {
    if cs == [] then [] else Insert(cs[0], Sorted(cs[1..]))
  }

  ghost predicate Descending(cs: seq<Child>) {
    forall i, j :: 0 <= i < j < |cs| ==> cs[i].mem >= cs[j].mem
  }

  lemma {:induction false} InsertMembers(c: Child, cs: seq<Child>)
    ensures forall x :: x in Insert(c, cs) ==> x == c || x in cs
    ensures |Insert(c, cs)| == |cs| + 1
  {
    if cs != [] && c.mem < cs[0].mem {
      InsertMembers(c, cs[1..]);
    }
  }

  lemma {:induction false} InsertPermutes(c: Child, cs: seq<Child>)
    ensures multiset(Insert(c, cs)) == multiset{c} + multiset(cs)
  {
    if cs != [] && c.mem < cs[0].mem {
      InsertPermutes(c, cs[1..]);
      assert cs == [cs[0]] + cs[1..];
    }
  }

  lemma {:induction false} InsertDescends(c: Child, cs: seq<Child>)
    requires Descending(cs)
    ensures Descending(Insert(c, cs))
  {
    if cs != [] && c.mem < cs[0].mem {
      var rest := Insert(c, cs[1..]);
      InsertDescends(c, cs[1..]);
      InsertMembers(c, cs[1..]);
      forall i | 0 <= i < |rest| ensures cs[0].mem >= rest[i].mem {
        assert rest[i] == c || rest[i] in cs[1..];
      }
    }
  }

  lemma {:induction false} InsertSums(c: Child, cs: seq<Child>, pids: set<int>)
    ensures Freed(Insert(c, cs), pids) == (if c.pid in pids then c.mem else 0.0) + Freed(cs, pids)
    ensures Total(Insert(c, cs)) == c.mem + Total(cs)
  {
    if cs == [] || c.mem >= cs[0].mem {
      assert ([c] + cs)[1..] == cs;
    } else {
      InsertSums(c, cs[1..], pids);
      assert Insert(c, cs)[1..] == Insert(c, cs[1..]);
    }
  }

  /** The sort puts the same children in descending order. */
  lemma {:induction false} SortedIs(cs: seq<Child>)
    ensures Descending(Sorted(cs))
    ensures |Sorted(cs)| == |cs|
    ensures forall x :: x in Sorted(cs) ==> x in cs
  {
    if cs != [] {
      SortedIs(cs[1..]);
      InsertDescends(cs[0], Sorted(cs[1..]));
      InsertMembers(cs[0], Sorted(cs[1..]));
    }
  }

  lemma {:induction false} SortedPermutes(cs: seq<Child>)
    ensures multiset(Sorted(cs)) == multiset(cs)
  {
    if cs != [] {
      SortedPermutes(cs[1..]);
      InsertPermutes(cs[0], Sorted(cs[1..]));
      assert cs == [cs[0]] + cs[1..];
    }
  }

  lemma {:induction false} SortedSums(cs: seq<Child>, pids: set<int>)
    ensures Freed(Sorted(cs), pids) == Freed(cs, pids)
    ensures Total(Sorted(cs)) == Total(cs)
  {
    if cs != [] {
      SortedSums(cs[1..], pids);
      InsertSums(cs[0], Sorted(cs[1..]), pids);
    }
  }

  lemma {:induction false} SortedKeeps(cs: seq<Child>)
    requires DistinctPids(cs) && Usage(cs)
    ensures DistinctPids(Sorted(cs)) && Usage(Sorted(cs))
  {
    if cs != [] {
      SortedKeeps(cs[1..]);
      SortedIs(cs[1..]);
      forall i | 0 <= i < |cs| - 1 ensures Sorted(cs[1..])[i].pid != cs[0].pid {
        assert Sorted(cs[1..])[i] in cs[1..];
      }
      InsertKeeps(cs[0], Sorted(cs[1..]));
    }
  }

  lemma {:induction false} InsertKeeps(c: Child, cs: seq<Child>)
    requires DistinctPids(cs) && Usage(cs) && c.mem >= 0.0
    requires forall i :: 0 <= i < |cs| ==> cs[i].pid != c.pid
    ensures DistinctPids(Insert(c, cs)) && Usage(Insert(c, cs))
  {
    if cs != [] && c.mem < cs[0].mem {
      InsertKeeps(c, cs[1..]);
      InsertMembers(c, cs[1..]);
      var rest := Insert(c, cs[1..]);
      forall i | 0 <= i < |rest| ensures rest[i].pid != cs[0].pid {
        assert rest[i] == c || rest[i] in cs[1..];
      }
    }
  }

  // ---------------------------------------------------------------- the best choice

  lemma {:induction false} TotalConcat(a: seq<Child>, b: seq<Child>)
    ensures Total(a + b) == Total(a) + Total(b)
  {
    if a == [] {
      assert a + b == b;
    } else {
      assert (a + b)[1..] == a[1..] + b;
      TotalConcat(a[1..], b);
    }
  }

  lemma {:induction false} TotalNotNegative(cs: seq<Child>)
    requires Usage(cs)
    ensures Total(cs) >= 0.0
  {
    if cs != [] {
      TotalNotNegative(cs[1..]);
    }
  }

  lemma {:induction false} FreedWithout(cs: seq<Child>, pids: set<int>, pid: int)
    requires forall i :: 0 <= i < |cs| ==> cs[i].pid != pid
    ensures Freed(cs, pids) == Freed(cs, pids - {pid})
  {
    if cs != [] {
      FreedWithout(cs[1..], pids, pid);
    }
  }

  /** Dropping the first child of a descending list and taking the next instead never frees more. */
  lemma {:induction false} ShiftedPrefix(cs: seq<Child>, k: nat)
    requires Descending(cs) && k < |cs|
    ensures Total(cs[1..][..k]) <= Total(cs[..k])
  {
    if k > 0 {
      ShiftedPrefix(cs, k - 1);
      assert cs[1..][..k] == cs[1..][..k - 1] + [cs[k]];
      assert cs[..k] == cs[..k - 1] + [cs[k - 1]];
      TotalConcat(cs[1..][..k - 1], [cs[k]]);
      TotalConcat(cs[..k - 1], [cs[k - 1]]);
    }
  }

  /** No `k` children use more memory than the first `k` of the descending order. */
  lemma {:induction false} PrefixIsHeaviest(cs: seq<Child>, pids: set<int>, k: nat)
    requires Descending(cs) && DistinctPids(cs) && Usage(cs)
    requires |pids| <= k <= |cs|
    ensures Freed(cs, pids) <= Total(cs[..k])
  {
    if cs == [] {
    } else if k == 0 {
      assert pids == {};
      NothingFreed(cs);
    } else {
      var c, rest := cs[0], cs[1..];
      assert cs[..k][1..] == rest[..k - 1];
      if c.pid in pids {
        FreedWithout(rest, pids, c.pid);
        PrefixIsHeaviest(rest, pids - {c.pid}, k - 1);
      } else if k == |cs| {
        FreedAtMostTotal(rest, pids);
        assert cs[..k] == cs;
      } else {
        PrefixIsHeaviest(rest, pids, k);
        ShiftedPrefix(cs, k);
      }
    }
  }

  lemma {:induction false} NothingFreed(cs: seq<Child>)
    ensures Freed(cs, {}) == 0.0
  {
    if cs != [] {
      NothingFreed(cs[1..]);
    }
  }

  lemma {:induction false} FreedAtMostTotal(cs: seq<Child>, pids: set<int>)
    requires Usage(cs)
    ensures Freed(cs, pids) <= Total(cs)
  {
    if cs != [] {
      FreedAtMostTotal(cs[1..], pids);
    }
  }

  // ---------------------------------------------------------------- the method

  /** Killing the first `n` children of the descending order does not reach the mark. */
  predicate TooFew(childs: seq<Child>, mark: real, n: nat) {
    n <= |childs| && n <= |Sorted(childs)| && Total(childs) - Total(Sorted(childs)[..n]) >= mark
  }

  /** If the `n` heaviest children do not reach the mark, no `n` children do. */
  lemma NoFewerWillDo(childs: seq<Child>, mark: real, n: nat, pids: set<int>)
    requires DistinctPids(childs) && Usage(childs)
    requires TooFew(childs, mark, n) && |pids| <= n
    ensures Total(childs) - Freed(childs, pids) >= mark
  {
    SortedIs(childs);
    SortedKeeps(childs);
    SortedSums(childs, pids);
    PrefixIsHeaviest(Sorted(childs), pids, n);
  }

  lemma {:induction false} FreedByPrefix(cs: seq<Child>, k: nat, pids: set<int>)
    requires DistinctPids(cs) && k <= |cs|
    requires forall i :: 0 <= i < |cs| ==> (cs[i].pid in pids <==> i < k)
    ensures Freed(cs, pids) == Total(cs[..k])
  {
    if cs != [] {
      if k == 0 {
        FreedByPrefix(cs[1..], 0, pids);
      } else {
        FreedByPrefix(cs[1..], k - 1, pids);
        assert cs[..k][1..] == cs[1..][..k - 1];
      }
    }
  }

  function Pids(cs: seq<Child>): set<int> {
    if cs == [] then {} else {cs[0].pid} + Pids(cs[1..])
  }

  lemma {:induction false} PidsAre(cs: seq<Child>)
    ensures forall pid :: pid in Pids(cs) <==> exists i :: 0 <= i < |cs| && cs[i].pid == pid
    ensures DistinctPids(cs) ==> |Pids(cs)| == |cs|
  {
    if cs != [] {
      PidsAre(cs[1..]);
      if DistinctPids(cs) {
        assert cs[0].pid !in Pids(cs[1..]);
      }
    }
  }

  /** No set of fewer than `n` children brings the rest below the mark. */
  ghost predicate NeedsAtLeast(childs: seq<Child>, mark: real, n: nat) {
    forall pids: set<int> :: |pids| < n ==> Total(childs) - Freed(childs, pids) >= mark
  }

  lemma PrefixAsSet(childs: seq<Child>, n: nat)
    requires DistinctPids(childs) && Usage(childs) && n <= |childs|
    ensures n <= |Sorted(childs)|
    ensures var first := Sorted(childs)[..n];
            |Pids(first)| == n && Freed(childs, Pids(first)) == Total(first)
  {
    SortedIs(childs);
    SortedKeeps(childs);
    var sorted := Sorted(childs);
    var first := sorted[..n];
    PidsAre(first);
    forall i | 0 <= i < |sorted| ensures sorted[i].pid in Pids(first) <==> i < n {
      if i < n {
        assert first[i].pid == sorted[i].pid;
      }
    }
    FreedByPrefix(sorted, n, Pids(first));
    SortedSums(childs, Pids(first));
  }

  /** Below or at the mark nothing is killed.  Above it, the children killed are a prefix of the
    * descending order and a set that brings the rest strictly below the mark, and no smaller set of
    * children would; if no set would, all are killed. */
  method CheckOomStatus(childs: seq<Child>, mark: real) returns (killed: seq<Child>)
    requires DistinctPids(childs) && Usage(childs)
    ensures |killed| <= |Sorted(childs)| == |childs| && killed == Sorted(childs)[..|killed|]
    ensures Total(childs) <= mark ==> killed == []
    ensures Total(childs) > mark ==>
              Total(childs) - Freed(childs, Pids(killed)) < mark || |killed| == |childs|
    ensures |Pids(killed)| == |killed| && NeedsAtLeast(childs, mark, |killed|)
  {
    SortedIs(childs);
    killed := [];
    var used := Total(childs);
    if used > mark {
      var sorted := Sorted(childs);
      var i := 0;
      while i < |sorted|
        invariant 0 <= i <= |sorted|
        invariant killed == sorted[..i]
        invariant used == Total(childs) - Total(killed)
        invariant TooFew(childs, mark, i)
      {
        killed := killed + [sorted[i]];
        TotalConcat(sorted[..i], [sorted[i]]);
        used := used - sorted[i].mem;
        if used < mark {
          break;
        }
        i := i + 1;
      }
      forall pids: set<int> | |pids| < |killed| ensures Total(childs) - Freed(childs, pids) >= mark {
        NoFewerWillDo(childs, mark, i, pids);
      }
    }
    PrefixAsSet(childs, |killed|);
  }
}
