/** The LRU cache, an ordered dictionary kept from least to most recently used. */
module Lru {
  import opened Wire

  /** An ordered dictionary: its keys in order, oldest first, and their values. */
  datatype Table<K(==), +V> = Table(order: seq<K>, vals: map<K, V>)

  ghost predicate Distinct<K>(s: seq<K>) {
    forall i, j :: 0 <= i < j < |s| ==> s[i] != s[j]
  }

  ghost predicate Proper<K, V>(t: Table<K, V>) {
    && Distinct(t.order)
    && (forall k :: k in t.order ==> k in t.vals)
    && (forall k :: k in t.vals ==> k in t.order)
  }

  function Without<K(==)>(s: seq<K>, k: K): seq<K> {
    if s == [] then []
    else if s[0] == k then s[1..]
    else [s[0]] + Without(s[1..], k)
  }

  function Erase<K(==), V>(t: Table<K, V>, k: K): Table<K, V> {
    Table(Without(t.order, k), t.vals - {k})
  }

  function MoveToEnd<K(==), V>(t: Table<K, V>, k: K): Table<K, V> {
    Table(Without(t.order, k) + [k], t.vals)
  }

  /** Drop the oldest entries until `n` are left. */
  function Trim<K(==), V>(t: Table<K, V>, n: nat): Table<K, V>
    decreases |t.order|
  {
    if |t.order| <= n then t else Trim(Table(t.order[1..], t.vals - {t.order[0]}), n)
  }

  function Drop<K(==), V>(t: Table<K, V>, k: K): Table<K, V> {
    if k in t.vals then Erase(t, k) else t
  }

  function Store<K(==), V>(capacity: nat, t: Table<K, V>, k: K, v: V): Table<K, V>
    requires capacity > 0
  {
    var t' := Trim(Drop(t, k), capacity - 1);
    Table(t'.order + [k], t'.vals[k := v])
  }

  // ---------------------------------------------------------------- facts about order

  lemma {:induction false} WithoutIs<K>(s: seq<K>, k: K)
    requires Distinct(s)
    ensures Distinct(Without(s, k))
    ensures forall x :: x in Without(s, k) ==> x in s && x != k
    ensures forall x :: x in s && x != k ==> x in Without(s, k)
    ensures |Without(s, k)| == if k in s then |s| - 1 else |s|
  {
    if s != [] {
      WithoutIs(s[1..], k);
      if s[0] != k {
        assert s == [s[0]] + s[1..];
        assert forall x :: x in Without(s, k) <==> x == s[0] || x in Without(s[1..], k);
        assert s[0] !in Without(s[1..], k);
      }
    }
  }

  lemma {:induction false} WithoutAbsent<K>(s: seq<K>, k: K)
    requires k !in s
    ensures Without(s, k) == s
  {
    if s != [] {
      WithoutAbsent(s[1..], k);
    }
  }

  lemma {:induction false} WithoutConcat<K>(a: seq<K>, b: seq<K>, k: K)
    ensures Without(a + b, k) == if k in a then Without(a, k) + b else a + Without(b, k)
  {
    if a == [] {
      assert a + b == b;
    } else {
      assert (a + b)[1..] == a[1..] + b;
      WithoutConcat(a[1..], b, k);
    }
  }

  function Last<T>(s: seq<T>, n: nat): seq<T> {
    if |s| <= n then s else s[|s| - n..]
  }

  lemma {:induction false} TrimIs<K, V>(t: Table<K, V>, n: nat)
    requires Proper(t)
    ensures var u := Trim(t, n);
            && Proper(u)
            && u.order == Last(t.order, n)
            && forall k :: k in u.vals ==> k in t.vals && u.vals[k] == t.vals[k]
    decreases |t.order|
  {
    if |t.order| > n {
      var u := Table(t.order[1..], t.vals - {t.order[0]});
      assert t.order == [t.order[0]] + u.order;
      forall k | k in u.order ensures k in u.vals {
        assert k in t.order;
      }
      forall k | k in u.vals ensures k in u.order {
        assert k in t.order;
      }
      TrimIs(u, n);
    }
  }

  lemma EraseIs<K, V>(t: Table<K, V>, k: K)
    requires Proper(t)
    ensures Proper(Erase(t, k))
    ensures |Erase(t, k).order| == if k in t.vals then |t.order| - 1 else |t.order|
  {
    WithoutIs(t.order, k);
    var u := Erase(t, k);
    assert u.order == Without(t.order, k);
    forall x | x in u.order ensures x in u.vals {
      assert x in t.order;
    }
    forall x | x in u.vals ensures x in u.order {
      assert x in t.order;
    }
  }

  lemma AppendIs<K, V>(t: Table<K, V>, k: K, v: V)
    requires Proper(t) && k !in t.vals
    ensures Proper(Table(t.order + [k], t.vals[k := v]))
  {
    var u := Table(t.order + [k], t.vals[k := v]);
    assert k !in t.order;
    forall x | x in u.vals ensures x in u.order {
      assert x == k || x in t.order;
      assert u.order[|t.order|] == k;
    }
  }

  lemma MoveIs<K, V>(t: Table<K, V>, k: K)
    requires Proper(t) && k in t.vals
    ensures Proper(MoveToEnd(t, k)) && |MoveToEnd(t, k).order| == |t.order|
  {
    EraseIs(t, k);
    AppendIs(Erase(t, k), k, t.vals[k]);
    assert Erase(t, k).vals[k := t.vals[k]] == t.vals;
    assert k in t.order;
  }

  lemma DropIs<K, V>(t: Table<K, V>, k: K)
    requires Proper(t)
    ensures var u := Drop(t, k);
            Proper(u) && k !in u.vals && u.order == Without(t.order, k) && u.vals == t.vals - {k}
  {
    EraseIs(t, k);
    if k !in t.vals {
      WithoutAbsent(t.order, k);
    }
  }

  /** A store puts the key last with its value, evicts no more than the oldest, and keeps the rest. */
  lemma StoreIs<K, V>(capacity: nat, t: Table<K, V>, k: K, v: V)
    requires Proper(t) && capacity > 0
    ensures var u := Store(capacity, t, k, v);
            && Proper(u)
            && u.order == Last(Without(t.order, k), capacity - 1) + [k]
            && |u.order| <= capacity
            && k in u.vals && u.vals[k] == v
            && forall x :: x in u.vals && x != k ==> x in t.vals && u.vals[x] == t.vals[x]
  {
    DropIs(t, k);
    TrimIs(Drop(t, k), capacity - 1);
    AppendIs(Trim(Drop(t, k), capacity - 1), k, v);
  }

  // ---------------------------------------------------------------- traces

  datatype Access<K, V> = Put(key: K, value: V) | Hit(key: K)

  function Run<K(==), V>(capacity: nat, trace: seq<Access<K, V>>): Table<K, V>
    requires capacity > 0
  {
    if trace == [] then Table([], map[])
    else
      var t := Run(capacity, trace[..|trace| - 1]);
      match trace[|trace| - 1]
      case Put(k, v) => Store(capacity, t, k, v)
      case Hit(k) => MoveToEnd(t, k)
  }

  /** Every get of the trace succeeds. */
  predicate Legal<K(==), V>(capacity: nat, trace: seq<Access<K, V>>)
    requires capacity > 0
  {
    trace == [] ||
    var before := trace[..|trace| - 1];
    Legal(capacity, before) &&
    (trace[|trace| - 1].Hit? ==> trace[|trace| - 1].key in Run(capacity, before).vals)
  }

  /** The distinct keys of a trace by time of last access, oldest first. */
  function Recency<K(==), V>(trace: seq<Access<K, V>>): seq<K> {
    if trace == [] then []
    else
      var k := trace[|trace| - 1].key;
      Without(Recency(trace[..|trace| - 1]), k) + [k]
  }

  /** The keys accessed after the last access to `k`. */
  function Since<K(==), V>(trace: seq<Access<K, V>>, k: K): set<K> {
    if trace == [] || trace[|trace| - 1].key == k then {}
    else {trace[|trace| - 1].key} + Since(trace[..|trace| - 1], k)
  }

  ghost predicate LastSet<K, V>(trace: seq<Access<K, V>>, k: K, v: V) {
    trace != [] &&
    var l := trace[|trace| - 1];
    if l.Put? && l.key == k then l.value == v else LastSet(trace[..|trace| - 1], k, v)
  }

  lemma {:induction false} RecencyDistinct<K, V>(trace: seq<Access<K, V>>)
    ensures Distinct(Recency(trace))
    ensures forall k :: k in Recency(trace) <==> exists i :: 0 <= i < |trace| && trace[i].key == k
  {
    if trace != [] {
      var before, l := trace[..|trace| - 1], trace[|trace| - 1];
      RecencyDistinct(before);
      WithoutIs(Recency(before), l.key);
      forall k ensures k in Recency(trace) <==> exists i :: 0 <= i < |trace| && trace[i].key == k {
        if k in Recency(trace) {
          if k == l.key {
            assert trace[|trace| - 1].key == k;
          } else {
            var i :| 0 <= i < |before| && before[i].key == k;
            assert trace[i].key == k;
          }
        } else {
          assert k != l.key && k !in Recency(before);
          forall i | 0 <= i < |trace| ensures trace[i].key != k {
            if i < |before| {
              assert before[i].key != k;
            }
          }
        }
      }
    }
  }

  lemma LastOfMoved<K>(r: seq<K>, k: K, n: nat)
    requires Distinct(r) && n > 0
    ensures k in Last(r, n) ==> Without(Last(r, n), k) + [k] == Last(Without(r, k) + [k], n)
    ensures Last(Without(Last(r, n), k), n - 1) + [k] == Last(Without(r, k) + [k], n)
  {
    var b := Last(r, n);
    var a := r[..|r| - |b|];
    assert r == a + b;
    WithoutConcat(a, b, k);
    WithoutIs(b, k);
    if k in a {
      var i :| 0 <= i < |a| && a[i] == k;
      assert k == r[i];
      forall j | 0 <= j < |b| ensures b[j] != k {
        assert b[j] == r[|a| + j];
      }
      WithoutAbsent(b, k);
      LastMoves(Without(a, k), b, k, n);
    } else {
      LastMoves(a, Without(b, k), k, n);
    }
  }

  lemma LastMoves<K>(a: seq<K>, b: seq<K>, k: K, n: nat)
    requires n > 0 && |b| <= n
    requires |b| < n - 1 ==> a == []
    ensures Last(a + b + [k], n) == Last(b, n - 1) + [k]
  {
  }

  /** The table is exactly the `capacity` most recently accessed distinct keys, in order of access,
    * with the values last set. */
  lemma {:induction false} TableIsRecency<K, V>(capacity: nat, trace: seq<Access<K, V>>)
    requires capacity > 0 && Legal(capacity, trace)
    ensures var t := Run(capacity, trace);
            && Proper(t)
            && t.order == Last(Recency(trace), capacity)
            && forall k :: k in t.vals ==> LastSet(trace, k, t.vals[k])
  {
    if trace != [] {
      var before, l := trace[..|trace| - 1], trace[|trace| - 1];
      var s := Run(capacity, before);
      TableIsRecency(capacity, before);
      RecencyDistinct(before);
      LastOfMoved(Recency(before), l.key, capacity);
      if l.Put? {
        StoreIs(capacity, s, l.key, l.value);
      } else {
        MoveIs(s, l.key);
        assert l.key in s.order;
      }
    }
  }

  /** What follows `k` in a sequence of distinct keys. */
  function After<K(==)>(s: seq<K>, k: K): seq<K> {
    if s == [] then [] else if s[0] == k then s[1..] else After(s[1..], k)
  }

  lemma {:induction false} AfterWithout<K>(s: seq<K>, k: K, l: K)
    requires Distinct(s) && k != l
    ensures After(Without(s, l), k) == Without(After(s, k), l)
  {
    if s != [] {
      if s[0] == k {
        assert Without(s, l)[1..] == Without(s[1..], l);
      } else if s[0] == l {
        AfterMembers(s[1..], k);
        WithoutAbsent(After(s[1..], k), l);
      } else {
        AfterWithout(s[1..], k, l);
        assert Without(s, l)[1..] == Without(s[1..], l);
      }
    }
  }

  lemma {:induction false} AfterMembers<K>(s: seq<K>, k: K)
    requires Distinct(s)
    ensures Distinct(After(s, k))
    ensures forall x :: x in After(s, k) ==> x in s && x != k
  {
    if s != [] && s[0] != k {
      AfterMembers(s[1..], k);
    }
  }

  lemma {:induction false} AfterAppend<K>(s: seq<K>, k: K, l: K)
    requires k in s
    ensures After(s + [l], k) == After(s, k) + [l]
  {
    if s[0] == k {
      assert (s + [l])[1..] == s[1..] + [l];
    } else {
      assert (s + [l])[1..] == s[1..] + [l];
      AfterAppend(s[1..], k, l);
    }
  }

  lemma {:induction false} AfterLast<K>(s: seq<K>, k: K)
    requires k !in s
    ensures After(s + [k], k) == []
  {
    if s != [] {
      assert (s + [k])[1..] == s[1..] + [k];
      AfterLast(s[1..], k);
    }
  }

  /** The keys behind `k` in order of recency are those accessed since. */
  lemma {:induction false} AfterIsSince<K, V>(trace: seq<Access<K, V>>, k: K)
    requires k in Recency(trace)
    ensures forall x :: x in After(Recency(trace), k) <==> x in Since(trace, k)
  {
    var before, l := trace[..|trace| - 1], trace[|trace| - 1].key;
    var p := Recency(before);
    RecencyDistinct(before);
    WithoutIs(p, l);
    if k == l {
      AfterLast(Without(p, l), k);
    } else {
      AfterIsSince(before, k);
      AfterAppend(Without(p, l), k, l);
      AfterWithout(p, k, l);
      AfterMembers(p, k);
      WithoutIs(After(p, k), l);
    }
  }

  lemma {:induction false} RankDecides<K>(s: seq<K>, k: K, n: nat)
    requires Distinct(s) && k in s
    ensures k in Last(s, n) <==> |After(s, k)| < n
  {
    if s[0] == k {
      if |s| > n {
        forall i | 0 <= i < n ensures Last(s, n)[i] != k {
          assert Last(s, n)[i] == s[|s| - n + i];
        }
      }
    } else {
      RankDecides(s[1..], k, n);
      if |s| > n {
        assert Last(s, n) == Last(s[1..], n);
      }
      AfterShorter(s[1..], k);
    }
  }

  lemma {:induction false} AfterShorter<K>(s: seq<K>, k: K)
    ensures s != [] ==> |After(s, k)| < |s|
  {
    if s != [] && s[0] != k {
      AfterShorter(s[1..], k);
    }
  }

  lemma {:induction false} DistinctSize<K>(s: seq<K>, keys: set<K>)
    requires Distinct(s) && forall x :: x in s <==> x in keys
    ensures |keys| == |s|
  {
    if s == [] {
      assert keys == {};
    } else {
      DistinctSize(s[1..], keys - {s[0]});
    }
  }

  /** The replacement rule told from the trace alone: a key is cached if and only if it was accessed
    * and fewer than `capacity` other keys were accessed since. */
  lemma CachedIff<K, V>(capacity: nat, trace: seq<Access<K, V>>, k: K)
    requires capacity > 0 && Legal(capacity, trace)
    ensures k in Run(capacity, trace).vals <==>
            (exists i :: 0 <= i < |trace| && trace[i].key == k) && |Since(trace, k)| < capacity
  {
    TableIsRecency(capacity, trace);
    RecencyDistinct(trace);
    var r := Recency(trace);
    assert k in Run(capacity, trace).vals <==> k in Last(r, capacity);
    if k in r {
      AfterIsSince(trace, k);
      AfterMembers(r, k);
      DistinctSize(After(r, k), Since(trace, k));
      RankDecides(r, k, capacity);
    }
  }

  /** On the same trace a smaller cache is contained in a larger one, entry by entry. */
  lemma {:induction false} Inclusion<K, V>(small: nat, large: nat, trace: seq<Access<K, V>>)
    requires 0 < small <= large && Legal(small, trace)
    ensures Legal(large, trace)
    ensures forall k :: k in Run(small, trace).vals ==>
              k in Run(large, trace).vals && Run(large, trace).vals[k] == Run(small, trace).vals[k]
  {
    if trace != [] {
      Inclusion(small, large, trace[..|trace| - 1]);
    }
    TableIsRecency(small, trace);
    TableIsRecency(large, trace);
    var s, t := Run(small, trace), Run(large, trace);
    forall k | k in s.vals ensures k in t.vals && t.vals[k] == s.vals[k] {
      assert k in s.order;
      LastOfLast(Recency(trace), small, large);
      assert k in t.order;
      LastSetUnique(trace, k, s.vals[k], t.vals[k]);
    }
  }

  lemma LastOfLast<T>(s: seq<T>, small: nat, large: nat)
    requires small <= large
    ensures Last(s, small) == Last(Last(s, large), small)
  {
  }

  lemma {:induction false} LastSetUnique<K, V>(trace: seq<Access<K, V>>, k: K, v: V, w: V)
    requires LastSet(trace, k, v) && LastSet(trace, k, w)
    ensures v == w
  {
    if !(trace[|trace| - 1].Put? && trace[|trace| - 1].key == k) {
      LastSetUnique(trace[..|trace| - 1], k, v, w);
    }
  }

  /** Shrinking a cache leaves what a smaller cache would hold after the same trace. */
  lemma ShrinkIsSmaller<K, V>(small: nat, large: nat, trace: seq<Access<K, V>>)
    requires 0 < small <= large && Legal(small, trace)
    ensures Trim(Run(large, trace), small) == Run(small, trace)
  {
    Inclusion(small, large, trace);
    TableIsRecency(small, trace);
    TableIsRecency(large, trace);
    TrimIs(Run(large, trace), small);
    LastOfLast(Recency(trace), small, large);
    SameOrderSameTable(Run(small, trace), Trim(Run(large, trace), small));
  }

  lemma SameOrderSameTable<K, V>(s: Table<K, V>, t: Table<K, V>)
    requires Proper(s) && Proper(t) && s.order == t.order
    requires forall k :: k in s.vals && k in t.vals ==> s.vals[k] == t.vals[k]
    ensures s == t
  {
    forall k | k in s.vals ensures k in t.vals {
      assert k in s.order;
    }
    forall k | k in t.vals ensures k in s.vals {
      assert k in t.order;
    }
    assert s.vals == t.vals;
  }

  // ---------------------------------------------------------------- the object

  class LruCache<K(==), V> {
    var order: seq<K>
    var vals: map<K, V>
    var capacity: nat

    ghost predicate Valid()
      reads this
    {
      capacity > 0 && Proper(Contents()) && |order| <= capacity
    }

    function Contents(): Table<K, V>
      reads this
    {
      Table(order, vals)
    }

    constructor (size: nat)
      requires size > 0
      ensures Valid() && Contents() == Table([], map[]) && capacity == size
    {
      order, vals, capacity := [], map[], size;
    }

    /** The loops that pop the oldest entries. */
    method PopDownTo(n: nat)
      modifies this`order, this`vals
      ensures Contents() == Trim(old(Contents()), n)
    {
      while |order| > n
        invariant Trim(Contents(), n) == old(Trim(Contents(), n))
        decreases |order|
      {
        vals := vals - {order[0]};
        order := order[1..];
      }
    }

    method Delete(key: K) returns (found: bool)
      requires Valid()
      modifies this`order, this`vals
      ensures Valid()
      ensures found == (key in old(vals))
      ensures Contents() == if found then Erase(old(Contents()), key) else old(Contents())
      ensures found ==> |order| < capacity
    {
      found := key in vals;
      if found {
        EraseIs(Contents(), key);
        order := Without(order, key);
        vals := vals - {key};
      }
    }

    method Clear()
      requires Valid()
      modifies this`order, this`vals
      ensures Valid() && Contents() == Table([], map[])
    {
      order, vals := [], map[];
    }

    method Peek(key: K) returns (value: Option<V>)
      ensures value == if key in vals then Some(vals[key]) else None
    {
      value := if key in vals then Some(vals[key]) else None;
    }

    /** A missing key raises and changes nothing. */
    method Get(key: K) returns (value: Option<V>)
      requires Valid()
      modifies this`order
      ensures Valid()
      ensures value == if key in vals then Some(vals[key]) else None
      ensures Contents() == if key in vals then MoveToEnd(old(Contents()), key) else old(Contents())
    {
      if key !in vals {
        return None;
      }
      MoveIs(Contents(), key);
      order := Without(order, key) + [key];
      value := Some(vals[key]);
    }

    method Set(key: K, value: V)
      requires Valid()
      modifies this`order, this`vals
      ensures Valid()
      ensures Contents() == Store(capacity, old(Contents()), key, value)
    {
      assert Proper(Store(capacity, Contents(), key, value)) &&
             |Store(capacity, Contents(), key, value).order| <= capacity by {
        StoreIs(capacity, Contents(), key, value);
      }
      if key in vals {
        var _ := Delete(key);
      }
      PopDownTo(capacity - 1);
      order := order + [key];
      vals := vals[key := value];
    }

    /** Refuses a size that is not positive. */
    method Size(size: Option<int>) returns (ok: bool)
      requires Valid()
      modifies this
      ensures Valid()
      ensures ok <==> (size.Some? ==> size.value > 0)
      ensures !ok || size.None? ==> Contents() == old(Contents()) && capacity == old(capacity)
      ensures ok && size.Some? ==> capacity == size.value && Contents() == Trim(old(Contents()), size.value)
    {
      if size.None? {
        return true;
      }
      if size.value <= 0 {
        return false;
      }
      TrimIs(Contents(), size.value);
      if size.value < capacity {
        PopDownTo(size.value);
      }
      capacity := size.value;
      ok := true;
    }

    /** The entries from most to least recently used. */
    method Items() returns (items: seq<(K, V)>)
      requires Valid()
      ensures |items| == |order|
      ensures forall i :: 0 <= i < |items| ==>
                items[i].0 == order[|order| - 1 - i] && items[i].0 in vals && items[i].1 == vals[items[i].0]
    {
      items := seq(|order|, i requires 0 <= i < |order| && Valid() reads this =>
        (order[|order| - 1 - i], vals[order[|order| - 1 - i]]));
    }
  }
}
