/** The project cache of a worker: an LRU tier over a static tier, both copies of an outside store
  * that changes under them.
  *
  * The store maps a key to what its protocol handler finds there; resolving the key is taken as
  * fixed.  Times are in microseconds.
  */
module CacheManager {
  import opened Wire
  import Lru

  datatype Fault = NotFound | NotAllowed | Unreadable

  /** How a handler reports an entry that is not newer than the cached one: the file and postgres
    * handlers keep the cached timestamp, the fallback storage handler returns the store's. */
  datatype Protocol = Keeps | Reports

  /** A version may exist and still fail to read. */
  datatype Source = Denied(fault: Fault) | Stored(protocol: Protocol, modified: int, content: Result<Bytes, Fault>)

  type World = map<string, Source>

  datatype Details = Details(project: Bytes, timestamp: int)

  datatype UpdateState = UNCHANGED | INSERTED | UPDATED

  datatype Fetched = Fetched(details: Details, state: UpdateState, reread: bool)

  datatype Notice = Notice(key: string, time: int, state: UpdateState)

  /** `notices` are the calls to the observers and `loads` the projects read from the store. */
  datatype Caches = Caches(
    lru: Lru.Table<string, Details>,
    statics: Lru.Table<string, Details>,
    notices: seq<Notice>,
    loads: seq<string>)

  const Empty := Caches(Lru.Table([], map[]), Lru.Table([], map[]), [], [])

  function Find(world: World, key: string): Source {
    if key in world then world[key] else Denied(NotFound)
  }

  /** What reading the store without any cache gives. */
  function DirectRead(world: World, key: string): Result<Bytes, Fault> {
    match Find(world, key)
    case Denied(fault) => Failure(fault)
    case Stored(_, _, content) => content
  }

  function WholeSecond(t: int): (s: int)
    ensures s % 1_000_000 == 0 && s <= t < s + 1_000_000
  {
    t - t % 1_000_000
  }

  function GetProject(source: Source, cached: Option<Details>): Result<(Details, bool), Fault> {
    match source
    case Denied(fault) => Failure(fault)
    case Stored(protocol, modified, content) =>
      if cached.None? || cached.value.timestamp < modified then
        match content
        case Failure(fault) => Failure(fault)
        case Success(project) => Success((Details(project, modified), true))
      else if protocol.Keeps? then Success((cached.value, false))
      else Success((Details(cached.value.project, modified), false))
  }

  function GetDetails(world: World, key: string, cached: Option<Details>): Result<Fetched, Fault> {
    match GetProject(Find(world, key), cached)
    case Failure(fault) => Failure(fault)
    case Success((details, reread)) =>
      var state :=
        if cached.None? then INSERTED
        else if details.timestamp != cached.value.timestamp then UPDATED
        else UNCHANGED;
      Success(Fetched(details, state, reread))
  }

  function Peek(t: Lru.Table<string, Details>, key: string): Option<Details> {
    if key in t.vals then Some(t.vals[key]) else None
  }

  /** Assignment in an ordered dictionary: a known key keeps its place. */
  function Assign(t: Lru.Table<string, Details>, key: string, d: Details): Lru.Table<string, Details> {
    Lru.Table(if key in t.vals then t.order else t.order + [key], t.vals[key := d])
  }

  function Logged(c: Caches, key: string, reread: bool): Caches {
    if reread then c.(loads := c.loads + [key]) else c
  }

  function UpdateStatic(c: Caches, world: World, key: string): (Caches, Result<UpdateState, Fault>) {
    match GetDetails(world, key, Peek(c.statics, key))
    case Failure(fault) => (c, Failure(fault))
    case Success(f) =>
      (Logged(c, key, f.reread).(statics := Assign(c.statics, key, f.details)), Success(f.state))
  }

  /** What the LRU tier is to hold for a key, and how that counts as an update. */
  function Fresh(c: Caches, world: World, key: string): Result<Fetched, Fault> {
    if key in c.lru.vals || key !in c.statics.vals then GetDetails(world, key, Peek(c.lru, key))
    else GetDetails(world, key, Peek(c.statics, key))
  }

  function UpdateEntry(capacity: nat, c: Caches, world: World, key: string): (Caches, Result<UpdateState, Fault>)
    requires capacity > 0
  {
    match Fresh(c, world, key)
    case Failure(fault) => (c, Failure(fault))
    case Success(f) =>
      var viaStatic := key !in c.lru.vals && key in c.statics.vals;
      var state := if viaStatic then INSERTED else f.state;
      var statics :=
        if viaStatic && f.state.UPDATED? then Assign(c.statics, key, f.details) else c.statics;
      var notices :=
        if state.UNCHANGED? then c.notices else c.notices + [Notice(key, WholeSecond(f.details.timestamp), state)];
      (Caches(Lru.Store(capacity, c.lru, key, f.details), statics, notices, Logged(c, key, f.reread).loads),
       Success(state))
  }

  function Lookup(capacity: nat, c: Caches, world: World, key: string, refresh: bool)
    : (Caches, Result<(Bytes, UpdateState), Fault>)
    requires capacity > 0
  {
    if !refresh && key in c.lru.vals then (c, Success((c.lru.vals[key].project, UNCHANGED)))
    else if !refresh && key in c.statics.vals then
      var d := c.statics.vals[key];
      (c.(lru := Lru.Store(capacity, c.lru, key, d)), Success((d.project, UPDATED)))
    else
      var (c', r) := UpdateEntry(capacity, c, world, key);
      match r
      case Failure(fault) => (c', Failure(fault))
      case Success(state) => (c', Success((if key in c'.lru.vals then c'.lru.vals[key].project else [], state)))
  }

  /** The first failure stops a refresh where it is. */
  function RefreshStatics(c: Caches, world: World, keys: seq<string>): (Caches, Option<Fault>)
    decreases |keys|
  {
    if keys == [] then (c, None)
    else
      var (c', r) := UpdateStatic(c, world, keys[0]);
      if r.Failure? then (c', Some(r.error)) else RefreshStatics(c', world, keys[1..])
  }

  function RefreshEntries(capacity: nat, c: Caches, world: World, keys: seq<string>): (Caches, Option<Fault>)
    requires capacity > 0
    decreases |keys|
  {
    if keys == [] then (c, None)
    else
      var (c', r) := UpdateEntry(capacity, c, world, keys[0]);
      if r.Failure? then (c', Some(r.error)) else RefreshEntries(capacity, c', world, keys[1..])
  }

  /** The LRU tier is walked from its oldest key, each update making the key the newest. */
  function Refresh(capacity: nat, c: Caches, world: World): (Caches, Option<Fault>)
    requires capacity > 0
  {
    var (c', failure) := RefreshStatics(c, world, c.statics.order);
    if failure.Some? then (c', failure) else RefreshEntries(capacity, c', world, c'.lru.order)
  }

  // ---------------------------------------------------------------- the store over time

  predicate At(world: World, key: string, d: Details) {
    var s := Find(world, key);
    s.Stored? && s.modified == d.timestamp && s.content == Success(d.project)
  }

  ghost predicate InOrder(past: World, later: World, key: string) {
    var p, q := Find(past, key), Find(later, key);
    p.Stored? && q.Stored? ==> p.modified <= q.modified && (p.modified == q.modified ==> p.content == q.content)
  }

  /** Every change of a stored project strictly raises its modified time. */
  ghost predicate Versioned(history: seq<World>) {
    forall i, j, key :: 0 <= i <= j < |history| ==> InOrder(history[i], history[j], key)
  }

  /** The store held this version of the key at some moment from `since` on. */
  ghost predicate Held(history: seq<World>, since: nat, key: string, d: Details) {
    exists i :: since <= i < |history| && At(history[i], key, d)
  }

  ghost predicate TierHeld(t: Lru.Table<string, Details>, history: seq<World>, since: nat) {
    Lru.Proper(t) && forall key :: key in t.vals ==> Held(history, since, key, t.vals[key])
  }

  ghost predicate Sound(capacity: nat, c: Caches, history: seq<World>, since: nat) {
    && history != [] && since < |history|
    && |c.lru.order| <= capacity
    && TierHeld(c.lru, history, since)
    && TierHeld(c.statics, history, since)
  }

  function Now(history: seq<World>): World
    requires history != []
  {
    history[|history| - 1]
  }

  lemma HeldNow(history: seq<World>, since: nat, key: string, d: Details)
    requires history != [] && since < |history| && At(Now(history), key, d)
    ensures Held(history, since, key, d)
  {
    assert At(history[|history| - 1], key, d);
  }

  /** A project taken through a cached copy is the one a direct read gives, and so is a failure. */
  lemma FetchIsDirect(history: seq<World>, since: nat, key: string, cached: Option<Details>)
    requires Versioned(history) && history != []
    requires cached.Some? ==> Held(history, since, key, cached.value)
    ensures var r := GetDetails(Now(history), key, cached);
            && (r.Success? ==> At(Now(history), key, r.value.details))
            && (r.Failure? ==> DirectRead(Now(history), key) == Failure(r.error))
  {
    if cached.Some? {
      var i :| since <= i < |history| && At(history[i], key, cached.value);
      assert InOrder(history[i], history[|history| - 1], key);
    }
  }

  lemma AssignProper(t: Lru.Table<string, Details>, key: string, d: Details)
    requires Lru.Proper(t)
    ensures Lru.Proper(Assign(t, key, d))
    ensures key in t.vals ==> Assign(t, key, d).order == t.order
  {
    if key !in t.vals {
      Lru.AppendIs(t, key, d);
    }
  }

  lemma AssignHeld(t: Lru.Table<string, Details>, key: string, d: Details, history: seq<World>, since: nat)
    requires TierHeld(t, history, since) && Held(history, since, key, d)
    ensures TierHeld(Assign(t, key, d), history, since)
  {
    AssignProper(t, key, d);
  }

  lemma StoreHeld(
      capacity: nat, t: Lru.Table<string, Details>, key: string, d: Details, history: seq<World>, since: nat)
    requires capacity > 0 && TierHeld(t, history, since) && Held(history, since, key, d)
    ensures TierHeld(Lru.Store(capacity, t, key, d), history, since)
    ensures |Lru.Store(capacity, t, key, d).order| <= capacity
  {
    Lru.StoreIs(capacity, t, key, d);
  }

  lemma UpdateStaticSound(capacity: nat, c: Caches, history: seq<World>, since: nat, key: string)
    requires Versioned(history) && Sound(capacity, c, history, since)
    ensures var (c', r) := UpdateStatic(c, Now(history), key);
            && Sound(capacity, c', history, since)
            && c'.lru == c.lru && c'.notices == c.notices
            && (r.Success? ==> key in c'.statics.vals && At(Now(history), key, c'.statics.vals[key]))
            && (forall k :: k != key ==> Peek(c'.statics, k) == Peek(c.statics, k))
            && (key in c.statics.vals ==> c'.statics.order == c.statics.order)
  {
    FetchIsDirect(history, since, key, Peek(c.statics, key));
    var r := GetDetails(Now(history), key, Peek(c.statics, key));
    if r.Success? {
      HeldNow(history, since, key, r.value.details);
      AssignHeld(c.statics, key, r.value.details, history, since);
      AssignProper(c.statics, key, r.value.details);
    }
  }

  lemma FreshIsDirect(capacity: nat, c: Caches, history: seq<World>, since: nat, key: string)
    requires Versioned(history) && Sound(capacity, c, history, since)
    ensures var r := Fresh(c, Now(history), key);
            && (r.Success? ==> At(Now(history), key, r.value.details))
            && (r.Failure? ==> DirectRead(Now(history), key) == Failure(r.error))
  {
    FetchIsDirect(history, since, key, Peek(c.lru, key));
    FetchIsDirect(history, since, key, Peek(c.statics, key));
  }

  lemma UpdateEntrySound(capacity: nat, c: Caches, history: seq<World>, since: nat, key: string)
    requires capacity > 0 && Versioned(history) && Sound(capacity, c, history, since)
    ensures var (c', r) := UpdateEntry(capacity, c, Now(history), key);
            && Sound(capacity, c', history, since)
            && (r.Success? ==> key in c'.lru.vals && At(Now(history), key, c'.lru.vals[key]))
            && (r.Failure? ==> c' == c && DirectRead(Now(history), key) == Failure(r.error))
  {
    FreshIsDirect(capacity, c, history, since, key);
    var r := Fresh(c, Now(history), key);
    if r.Success? {
      var d := r.value.details;
      HeldNow(history, since, key, d);
      StoreHeld(capacity, c.lru, key, d, history, since);
      AssignHeld(c.statics, key, d, history, since);
      Lru.StoreIs(capacity, c.lru, key, d);
    }
  }

  // ---------------------------------------------------------------- refreshing everything

  ghost predicate AllAt(t: Lru.Table<string, Details>, world: World) {
    forall key :: key in t.vals ==> At(world, key, t.vals[key])
  }

  lemma {:induction false} RefreshStaticsSound(
      capacity: nat, c: Caches, history: seq<World>, since: nat, keys: seq<string>)
    requires Versioned(history) && Sound(capacity, c, history, since)
    requires forall k :: k in keys ==> k in c.statics.vals
    ensures var (c', failure) := RefreshStatics(c, Now(history), keys);
            && Sound(capacity, c', history, since)
            && c'.lru == c.lru && c'.notices == c.notices && c'.statics.order == c.statics.order
            && (forall k :: k !in keys ==> Peek(c'.statics, k) == Peek(c.statics, k))
            && (failure.None? ==>
                 forall k :: k in keys ==> k in c'.statics.vals && At(Now(history), k, c'.statics.vals[k]))
    decreases |keys|
  {
    if keys != [] {
      var k := keys[0];
      UpdateStaticSound(capacity, c, history, since, k);
      var (c1, r) := UpdateStatic(c, Now(history), k);
      if r.Success? {
        forall x | x in keys[1..] ensures x in c1.statics.vals {
          assert x in c1.statics.order;
        }
        RefreshStaticsSound(capacity, c1, history, since, keys[1..]);
        var c2 := RefreshStatics(c1, Now(history), keys[1..]).0;
        assert k !in keys[1..] ==> Peek(c2.statics, k) == Peek(c1.statics, k);
      }
    }
  }

  lemma StoreOldest(capacity: nat, t: Lru.Table<string, Details>, d: Details)
    requires Lru.Proper(t) && t.order != [] && |t.order| <= capacity
    ensures var u := Lru.Store(capacity, t, t.order[0], d);
            && u.order == t.order[1..] + [t.order[0]]
            && u.vals == t.vals[t.order[0] := d]
  {
    var k := t.order[0];
    Lru.DropIs(t, k);
    assert Lru.Without(t.order, k) == t.order[1..];
    assert k in t.order;
  }

  /** One step of the walk: the oldest key becomes the newest, at the store's version, and no other
    * entry changes. */
  lemma WalkStep(capacity: nat, c: Caches, history: seq<World>, since: nat)
    requires capacity > 0 && Versioned(history) && Sound(capacity, c, history, since) && c.lru.order != []
    ensures var k := c.lru.order[0];
            var (c', r) := UpdateEntry(capacity, c, Now(history), k);
            && Sound(capacity, c', history, since)
            && c'.statics == c.statics
            && (r.Success? ==>
                 && c'.lru.order == c.lru.order[1..] + [k]
                 && k in c'.lru.vals && At(Now(history), k, c'.lru.vals[k])
                 && c'.lru.vals == c.lru.vals[k := c'.lru.vals[k]])
  {
    var k := c.lru.order[0];
    assert k in c.lru.order;
    UpdateEntrySound(capacity, c, history, since, k);
    var f := Fresh(c, Now(history), k);
    if f.Success? {
      StoreOldest(capacity, c.lru, f.value.details);
    }
  }

  ghost predicate KeysAt(t: Lru.Table<string, Details>, keys: seq<string>, world: World) {
    forall k :: k in keys ==> k in t.vals && At(world, k, t.vals[k])
  }

  /** Refreshing the LRU tier walks it round once: keys go back to where they were, and each passed
    * key holds the store's version. */
  lemma {:induction false} RefreshEntriesSound(
      capacity: nat, c: Caches, history: seq<World>, since: nat, todo: seq<string>, done: seq<string>)
    requires capacity > 0 && Versioned(history) && Sound(capacity, c, history, since)
    requires c.lru.order == todo + done
    requires KeysAt(c.lru, done, Now(history))
    ensures var (c', failure) := RefreshEntries(capacity, c, Now(history), todo);
            && Sound(capacity, c', history, since)
            && c'.statics == c.statics
            && (failure.None? ==> c'.lru.order == done + todo && KeysAt(c'.lru, done + todo, Now(history)))
    decreases |todo|
  {
    hide UpdateEntry, Sound;
    if todo == [] {
      assert c.lru.order == done == done + todo;
    } else {
      var k, rest := todo[0], todo[1..];
      assert c.lru.order[0] == k && c.lru.order[1..] == rest + done;
      WalkStep(capacity, c, history, since);
      var (c1, r) := UpdateEntry(capacity, c, Now(history), k);
      if r.Success? {
        var more := done + [k];
        assert c1.lru.order == rest + more;
        assert KeysAt(c1.lru, more, Now(history));
        RefreshEntriesSound(capacity, c1, history, since, rest, more);
        assert more + rest == done + todo;
      }
    }
  }

  /** A refresh that meets no store error changes no key and no position in either tier, and leaves
    * every entry at the store's current version. */
  lemma RefreshSound(capacity: nat, c: Caches, history: seq<World>, since: nat)
    requires capacity > 0 && Versioned(history) && Sound(capacity, c, history, since)
    ensures var (c', failure) := Refresh(capacity, c, Now(history));
            && Sound(capacity, c', history, since)
            && (failure.None? ==>
                 && c'.lru.order == c.lru.order && c'.statics.order == c.statics.order
                 && AllAt(c'.lru, Now(history)) && AllAt(c'.statics, Now(history))
                 && Sound(capacity, c', history, |history| - 1))
  {
    RefreshStaticsSound(capacity, c, history, since, c.statics.order);
    var (c1, failure) := RefreshStatics(c, Now(history), c.statics.order);
    if failure.None? {
      assert AllAt(c1.statics, Now(history));
      WalkAll(capacity, c1, history, since);
    }
  }

  lemma WalkAll(capacity: nat, c: Caches, history: seq<World>, since: nat)
    requires capacity > 0 && Versioned(history) && Sound(capacity, c, history, since)
    requires AllAt(c.statics, Now(history))
    ensures var (c', failure) := RefreshEntries(capacity, c, Now(history), c.lru.order);
            && Sound(capacity, c', history, since)
            && (failure.None? ==>
                 && c'.lru.order == c.lru.order && c'.statics == c.statics
                 && AllAt(c'.lru, Now(history))
                 && Sound(capacity, c', history, |history| - 1))
  {
    assert c.lru.order == c.lru.order + [] == [] + c.lru.order;
    RefreshEntriesSound(capacity, c, history, since, c.lru.order, []);
    var (c', failure) := RefreshEntries(capacity, c, Now(history), c.lru.order);
    if failure.None? {
      assert AllAt(c'.lru, Now(history)) by {
        assert forall k :: k in c'.lru.vals ==> k in c'.lru.order;
      }
      AllAtHeld(c'.lru, history);
      AllAtHeld(c'.statics, history);
    }
  }

  lemma AllAtHeld(t: Lru.Table<string, Details>, history: seq<World>)
    requires history != [] && Lru.Proper(t) && AllAt(t, Now(history))
    ensures TierHeld(t, history, |history| - 1)
  {
    forall key | key in t.vals ensures Held(history, |history| - 1, key, t.vals[key]) {
      HeldNow(history, |history| - 1, key, t.vals[key]);
    }
  }

  // ---------------------------------------------------------------- whole runs

  datatype Event =
    | Change(world: World)
    | LookUp(key: string, refresh: bool)
    | Preload(key: string)
    | Touch(key: string)
    | RefreshAll

  /** `since` is the moment of the last refresh that met no error. */
  datatype Life = Life(caches: Caches, history: seq<World>, since: nat)

  function Step(capacity: nat, l: Life, e: Event): Life
    requires capacity > 0 && l.history != []
    ensures Step(capacity, l, e).history != []
  {
    var world := Now(l.history);
    match e
    case Change(w) => l.(history := l.history + [w])
    case LookUp(key, refresh) => l.(caches := Lookup(capacity, l.caches, world, key, refresh).0)
    case Preload(key) => l.(caches := UpdateStatic(l.caches, world, key).0)
    case Touch(key) => l.(caches := UpdateEntry(capacity, l.caches, world, key).0)
    case RefreshAll =>
      var (c, failure) := Refresh(capacity, l.caches, world);
      l.(caches := c, since := if failure.None? then |l.history| - 1 else l.since)
  }

  function Run(capacity: nat, start: World, events: seq<Event>): Life
    requires capacity > 0
    ensures Run(capacity, start, events).history != []
  {
    if events == [] then Life(Empty, [start], 0)
    else Step(capacity, Run(capacity, start, events[..|events| - 1]), events[|events| - 1])
  }

  lemma HeldLonger(t: Lru.Table<string, Details>, history: seq<World>, since: nat, w: World)
    requires TierHeld(t, history, since)
    ensures TierHeld(t, history + [w], since)
  {
    forall key | key in t.vals ensures Held(history + [w], since, key, t.vals[key]) {
      var i :| since <= i < |history| && At(history[i], key, t.vals[key]);
      assert At((history + [w])[i], key, t.vals[key]);
    }
  }

  lemma LookupSound(capacity: nat, c: Caches, history: seq<World>, since: nat, key: string, refresh: bool)
    requires capacity > 0 && Versioned(history) && Sound(capacity, c, history, since)
    ensures Sound(capacity, Lookup(capacity, c, Now(history), key, refresh).0, history, since)
  {
    UpdateEntrySound(capacity, c, history, since, key);
    if key in c.statics.vals {
      StoreHeld(capacity, c.lru, key, c.statics.vals[key], history, since);
    }
  }

  lemma StepSound(capacity: nat, l: Life, e: Event)
    requires capacity > 0 && l.history != [] && Versioned(l.history)
    requires Sound(capacity, l.caches, l.history, l.since)
    ensures var m := Step(capacity, l, e); Sound(capacity, m.caches, m.history, m.since)
  {
    match e {
      case Change(w) =>
        HeldLonger(l.caches.lru, l.history, l.since, w);
        HeldLonger(l.caches.statics, l.history, l.since, w);
      case LookUp(key, refresh) => LookupSound(capacity, l.caches, l.history, l.since, key, refresh);
      case Preload(key) => UpdateStaticSound(capacity, l.caches, l.history, l.since, key);
      case Touch(key) => UpdateEntrySound(capacity, l.caches, l.history, l.since, key);
      case RefreshAll => RefreshSound(capacity, l.caches, l.history, l.since);
    }
  }

  /** Over every run, each entry of either tier is a version the store held at its timestamp, at some
    * moment no earlier than the last complete refresh. */
  lemma {:induction false} AlwaysSound(capacity: nat, start: World, events: seq<Event>)
    requires capacity > 0
    requires Versioned(Run(capacity, start, events).history)
    ensures var l := Run(capacity, start, events); Sound(capacity, l.caches, l.history, l.since)
  {
    if events != [] {
      var before := events[..|events| - 1];
      var l, m := Run(capacity, start, before), Run(capacity, start, events);
      assert l.history <= m.history;
      forall i, j, key | 0 <= i <= j < |l.history| ensures InOrder(l.history[i], l.history[j], key) {
        assert InOrder(m.history[i], m.history[j], key);
      }
      AlwaysSound(capacity, start, before);
      StepSound(capacity, l, events[|events| - 1]);
    }
  }

  /** A refreshing lookup answers what a direct read of the store would answer now, failures
    * included, and a failure leaves both tiers as they were. */
  lemma Transparent(capacity: nat, start: World, events: seq<Event>, key: string)
    requires capacity > 0 && Versioned(Run(capacity, start, events).history)
    ensures var l := Run(capacity, start, events);
            var (c, r) := Lookup(capacity, l.caches, Now(l.history), key, true);
            && DirectRead(Now(l.history), key) ==
               (match r case Success((project, _)) => Success(project) case Failure(fault) => Failure(fault))
            && (r.Failure? ==> c == l.caches)
  {
    AlwaysSound(capacity, start, events);
    var l := Run(capacity, start, events);
    UpdateEntrySound(capacity, l.caches, l.history, l.since, key);
  }

  /** A direct read would have answered this at some moment from `since` on. */
  ghost predicate Readable(history: seq<World>, since: nat, key: string, project: Bytes) {
    exists i :: since <= i < |history| && DirectRead(history[i], key) == Success(project)
  }

  lemma HeldRead(history: seq<World>, since: nat, key: string, d: Details)
    requires Held(history, since, key, d)
    ensures Readable(history, since, key, d.project)
  {
    var i :| since <= i < |history| && At(history[i], key, d);
    assert DirectRead(history[i], key) == Success(d.project);
  }

  lemma UnrefreshedLookup(capacity: nat, c: Caches, history: seq<World>, since: nat, key: string)
    requires capacity > 0 && Versioned(history) && Sound(capacity, c, history, since)
    ensures var (c', r) := Lookup(capacity, c, Now(history), key, false);
            && (r.Success? ==> Readable(history, since, key, r.value.0))
            && (since == |history| - 1 && r.Success? ==> DirectRead(Now(history), key) == Success(r.value.0))
            && (r.Failure? ==> DirectRead(Now(history), key) == Failure(r.error) && c' == c)
  {
    if key in c.lru.vals {
      HeldRead(history, since, key, c.lru.vals[key]);
    } else if key in c.statics.vals {
      HeldRead(history, since, key, c.statics.vals[key]);
    } else {
      UpdateEntrySound(capacity, c, history, since, key);
      var (c', r) := UpdateEntry(capacity, c, Now(history), key);
      if r.Success? {
        HeldNow(history, since, key, c'.lru.vals[key]);
        HeldRead(history, since, key, c'.lru.vals[key]);
      }
    }
  }

  /** A lookup that does not refresh answers what a direct read would have answered at some moment
    * since the last complete refresh; right after one, while the store is unchanged, that moment is
    * now. */
  lemma BoundedStaleness(capacity: nat, start: World, events: seq<Event>, key: string)
    requires capacity > 0 && Versioned(Run(capacity, start, events).history)
    ensures var l := Run(capacity, start, events);
            var (c, r) := Lookup(capacity, l.caches, Now(l.history), key, false);
            && (r.Success? ==> Readable(l.history, l.since, key, r.value.0))
            && (l.since == |l.history| - 1 && r.Success? ==>
                 DirectRead(Now(l.history), key) == Success(r.value.0))
            && (r.Failure? ==> DirectRead(Now(l.history), key) == Failure(r.error) && c == l.caches)
  {
    hide Run, Lookup, DirectRead, Sound;
    AlwaysSound(capacity, start, events);
    var l := Run(capacity, start, events);
    UnrefreshedLookup(capacity, l.caches, l.history, l.since, key);
  }

  /** Right after a refresh that met no failure, and for as long as the store stays as it is, an unrefreshed
    * lookup answers what a direct read would. */
  lemma RefreshedAnswers(capacity: nat, start: World, events: seq<Event>, key: string)
    requires capacity > 0 && Versioned(Run(capacity, start, events).history)
    requires var l := Run(capacity, start, events); Refresh(capacity, l.caches, Now(l.history)).1.None?
    ensures var m := Run(capacity, start, events + [RefreshAll]);
            && m.history == Run(capacity, start, events).history && m.since == |m.history| - 1
            && var r := Lookup(capacity, m.caches, Now(m.history), key, false).1;
               match r
               case Success((project, _)) => DirectRead(Now(m.history), key) == Success(project)
               case Failure(fault) => DirectRead(Now(m.history), key) == Failure(fault)
  {
    hide Lookup, DirectRead, Refresh, Versioned;
    RunNext(capacity, start, events, RefreshAll);
    BoundedStaleness(capacity, start, events + [RefreshAll], key);
  }

  // ---------------------------------------------------------------- a refresh while the store changes

  /** The steps of a refresh, one update at a time, with changes of the store anywhere between. */
  predicate Walks(walk: seq<Event>, statics: seq<string>, entries: seq<string>) {
    if walk == [] then statics == [] && entries == []
    else
      match walk[0]
      case Change(_) => Walks(walk[1..], statics, entries)
      case Preload(key) => statics != [] && key == statics[0] && Walks(walk[1..], statics[1..], entries)
      case Touch(key) =>
        statics == [] && entries != [] && key == entries[0] && Walks(walk[1..], statics, entries[1..])
      case _ => false
  }

  function Follow(capacity: nat, l: Life, walk: seq<Event>): Life
    requires capacity > 0 && l.history != []
    ensures Follow(capacity, l, walk).history != []
    decreases |walk|
  {
    if walk == [] then l else Follow(capacity, Step(capacity, l, walk[0]), walk[1..])
  }

  predicate Succeeds(capacity: nat, l: Life, walk: seq<Event>)
    requires capacity > 0 && l.history != []
    decreases |walk|
  {
    walk == [] ||
    (&& (match walk[0]
         case Preload(key) => UpdateStatic(l.caches, Now(l.history), key).1.Success?
         case Touch(key) => UpdateEntry(capacity, l.caches, Now(l.history), key).1.Success?
         case _ => true)
     && Succeeds(capacity, Step(capacity, l, walk[0]), walk[1..]))
  }

  /** In the middle of a refresh begun at moment `base`: the static keys still to do, and the LRU keys
    * to do and done, in the order of the tier. */
  ghost predicate Walking(
      capacity: nat, l: Life, base: nat, statics: seq<string>, entries: seq<string>, done: seq<string>)
  {
    && Sound(capacity, l.caches, l.history, l.since) && base < |l.history|
    && l.caches.lru.order == entries + done
    && (forall k :: k in statics ==> k in l.caches.statics.vals)
    && (forall k :: k in l.caches.statics.vals && k !in statics ==> Held(l.history, base, k, l.caches.statics.vals[k]))
    && (forall k :: k in done ==> k in l.caches.lru.vals && Held(l.history, base, k, l.caches.lru.vals[k]))
  }

  lemma WalkOnChange(
      capacity: nat, l: Life, base: nat, statics: seq<string>, entries: seq<string>, done: seq<string>, w: World)
    requires capacity > 0 && Walking(capacity, l, base, statics, entries, done)
    ensures Walking(capacity, Step(capacity, l, Change(w)), base, statics, entries, done)
  {
    HeldLonger(l.caches.lru, l.history, l.since, w);
    HeldLonger(l.caches.statics, l.history, l.since, w);
    forall k, d | Held(l.history, base, k, d) ensures Held(l.history + [w], base, k, d) {
      var i :| base <= i < |l.history| && At(l.history[i], k, d);
      assert At((l.history + [w])[i], k, d);
    }
  }

  lemma WalkOnPreload(
      capacity: nat, l: Life, base: nat, statics: seq<string>, entries: seq<string>, done: seq<string>)
    requires capacity > 0 && Walking(capacity, l, base, statics, entries, done) && Versioned(l.history)
    requires statics != [] && UpdateStatic(l.caches, Now(l.history), statics[0]).1.Success?
    ensures var m := Step(capacity, l, Preload(statics[0]));
            && Walking(capacity, m, base, statics[1..], entries, done)
            && m.caches.statics.order == l.caches.statics.order
  {
    hide UpdateStatic, Held, At, Versioned;
    var k := statics[0];
    UpdateStaticSound(capacity, l.caches, l.history, l.since, k);
    var c := UpdateStatic(l.caches, Now(l.history), k).0;
    HeldNow(l.history, base, k, c.statics.vals[k]);
    forall x | x in statics[1..] ensures x in c.statics.vals {
      assert x in l.caches.statics.vals;
      assert Peek(c.statics, x).Some?;
    }
    forall x | x in c.statics.vals && x !in statics[1..] ensures Held(l.history, base, x, c.statics.vals[x]) {
      if x != k {
        assert Peek(c.statics, x) == Peek(l.caches.statics, x);
      }
    }
  }

  lemma WalkOnTouch(capacity: nat, l: Life, base: nat, entries: seq<string>, done: seq<string>)
    requires capacity > 0 && Walking(capacity, l, base, [], entries, done) && Versioned(l.history)
    requires entries != [] && UpdateEntry(capacity, l.caches, Now(l.history), entries[0]).1.Success?
    ensures var m := Step(capacity, l, Touch(entries[0]));
            && Walking(capacity, m, base, [], entries[1..], done + [entries[0]])
            && m.caches.statics.order == l.caches.statics.order
  {
    hide Step, UpdateEntry, At, Versioned, Sound;
    var k := entries[0];
    TouchMoves(capacity, l, entries, done);
    var m := Step(capacity, l, Touch(k));
    HeldNow(l.history, base, k, m.caches.lru.vals[k]);
  }

  lemma TouchMoves(capacity: nat, l: Life, entries: seq<string>, done: seq<string>)
    requires capacity > 0 && Sound(capacity, l.caches, l.history, l.since) && Versioned(l.history)
    requires l.caches.lru.order == entries + done
    requires entries != [] && UpdateEntry(capacity, l.caches, Now(l.history), entries[0]).1.Success?
    ensures l.history != []
    ensures var k, m := entries[0], Step(capacity, l, Touch(entries[0]));
            && m.history == l.history && m.since == l.since
            && Sound(capacity, m.caches, m.history, m.since)
            && m.caches.statics == l.caches.statics
            && m.caches.lru.order == entries[1..] + (done + [k])
            && k in m.caches.lru.vals && At(Now(l.history), k, m.caches.lru.vals[k])
            && m.caches.lru.vals == l.caches.lru.vals[k := m.caches.lru.vals[k]]
  {
    hide UpdateEntry, TierHeld, At, Versioned;
    var k, rest := entries[0], entries[1..];
    assert l.caches.lru.order[0] == k && l.caches.lru.order[1..] == rest + done;
    WalkStep(capacity, l.caches, l.history, l.since);
    assert (rest + done) + [k] == rest + (done + [k]);
  }

  lemma {:induction false} FollowGrows(capacity: nat, l: Life, walk: seq<Event>)
    requires capacity > 0 && l.history != [] && Versioned(Follow(capacity, l, walk).history)
    ensures l.history <= Follow(capacity, l, walk).history && Versioned(l.history)
    decreases |walk|
  {
    if walk != [] {
      var m := Step(capacity, l, walk[0]);
      FollowGrows(capacity, m, walk[1..]);
      assert l.history <= m.history;
      forall i, j, key | 0 <= i <= j < |l.history| ensures InOrder(l.history[i], l.history[j], key) {
        assert InOrder(m.history[i], m.history[j], key);
      }
    }
  }

  lemma {:induction false} WalkIsRefresh(
      capacity: nat, l: Life, base: nat, walk: seq<Event>,
      statics: seq<string>, entries: seq<string>, done: seq<string>)
    requires capacity > 0 && l.history != [] && Walking(capacity, l, base, statics, entries, done)
    requires Walks(walk, statics, entries) && Succeeds(capacity, l, walk)
    requires Versioned(Follow(capacity, l, walk).history)
    ensures var m := Follow(capacity, l, walk);
            && Walking(capacity, m, base, [], [], done + entries)
            && m.caches.statics.order == l.caches.statics.order
    decreases |walk|
  {
    hide Step, Walking, UpdateStatic, UpdateEntry, Versioned;
    if walk == [] {
      assert done + entries == done;
    } else {
      FollowGrows(capacity, l, walk);
      match walk[0] {
        case Change(w) =>
          WalkOnChange(capacity, l, base, statics, entries, done, w);
          ChangeKeepsCaches(capacity, l, w);
          WalkIsRefresh(capacity, Step(capacity, l, walk[0]), base, walk[1..], statics, entries, done);
        case Preload(key) =>
          WalkOnPreload(capacity, l, base, statics, entries, done);
          WalkIsRefresh(capacity, Step(capacity, l, walk[0]), base, walk[1..], statics[1..], entries, done);
        case Touch(key) =>
          WalkOnTouch(capacity, l, base, entries, done);
          WalkIsRefresh(capacity, Step(capacity, l, walk[0]), base, walk[1..], [], entries[1..], done + [key]);
          assert (done + [key]) + entries[1..] == done + entries;
      }
    }
  }

  lemma ChangeKeepsCaches(capacity: nat, l: Life, w: World)
    requires capacity > 0 && l.history != []
    ensures Step(capacity, l, Change(w)).caches == l.caches
  {
  }

  lemma {:induction false} RunFollows(capacity: nat, start: World, events: seq<Event>, walk: seq<Event>)
    requires capacity > 0
    ensures Run(capacity, start, events + walk) == Follow(capacity, Run(capacity, start, events), walk)
    decreases |walk|
  {
    if walk == [] {
      assert events + walk == events;
    } else {
      var first := events + [walk[0]];
      assert first[..|events|] == events;
      assert events + walk == first + walk[1..];
      RunFollows(capacity, start, first, walk[1..]);
    }
  }

  /** A refresh that meets no failure while the store keeps changing between its reads, over every run:
    * both tiers keep their keys and their exact order, and each entry is a version that the store held
    * at some moment since the refresh began. */
  lemma RefreshWhileChanging(capacity: nat, start: World, events: seq<Event>, walk: seq<Event>)
    requires capacity > 0 && Versioned(Run(capacity, start, events + walk).history)
    requires var l := Run(capacity, start, events);
             Walks(walk, l.caches.statics.order, l.caches.lru.order) && Succeeds(capacity, l, walk)
    ensures var l, m := Run(capacity, start, events), Run(capacity, start, events + walk);
            && m.caches.statics.order == l.caches.statics.order
            && m.caches.lru.order == l.caches.lru.order
            && Sound(capacity, m.caches, m.history, |l.history| - 1)
  {
    hide Run, Follow, Walks, Succeeds, Versioned, Sound, Held;
    var l := Run(capacity, start, events);
    RunFollows(capacity, start, events, walk);
    FollowGrows(capacity, l, walk);
    AlwaysSound(capacity, start, events);
    WalkBegins(capacity, l);
    var entries := l.caches.lru.order;
    WalkIsRefresh(capacity, l, |l.history| - 1, walk, l.caches.statics.order, entries, []);
    WalkEnds(capacity, Follow(capacity, l, walk), |l.history| - 1, [] + entries);
  }

  lemma WalkBegins(capacity: nat, l: Life)
    requires Sound(capacity, l.caches, l.history, l.since)
    ensures l.history != []
    ensures Walking(capacity, l, |l.history| - 1, l.caches.statics.order, l.caches.lru.order, [])
  {
    hide Held;
    assert l.caches.lru.order == l.caches.lru.order + [];
  }

  lemma WalkEnds(capacity: nat, l: Life, base: nat, done: seq<string>)
    requires Walking(capacity, l, base, [], [], done)
    ensures l.caches.lru.order == done
    ensures Sound(capacity, l.caches, l.history, base)
  {
    hide Held;
    assert [] + done == done;
    forall k | k in l.caches.lru.vals ensures Held(l.history, base, k, l.caches.lru.vals[k]) {
      assert k in l.caches.lru.order;
    }
  }

  // ---------------------------------------------------------------- what an operation leaves behind

  ghost predicate Tidy(capacity: nat, c: Caches) {
    Lru.Proper(c.lru) && |c.lru.order| <= capacity && Lru.Proper(c.statics)
  }

  /** `key` is the newest of the LRU tier with these details, and of the others no more than the oldest
    * have gone. */
  ghost predicate NewestIs(
      capacity: nat, before: Lru.Table<string, Details>, after: Lru.Table<string, Details>, key: string, d: Details)
    requires capacity > 0
  {
    && after.order == Lru.Last(Lru.Without(before.order, key), capacity - 1) + [key]
    && key in after.vals && after.vals[key] == d
    && forall k :: k in after.vals && k != key ==> k in before.vals && after.vals[k] == before.vals[k]
  }

  lemma UpdateEntryLeaves(capacity: nat, c: Caches, world: World, key: string)
    requires capacity > 0 && Tidy(capacity, c)
    ensures var (c', r) := UpdateEntry(capacity, c, world, key);
            && Tidy(capacity, c')
            && (r.Failure? ==> c' == c)
            && (r.Success? ==>
                 && key in c'.lru.vals && NewestIs(capacity, c.lru, c'.lru, key, c'.lru.vals[key])
                 && c'.statics.order == c.statics.order
                 && (r.value.INSERTED? <==> key !in c.lru.vals)
                 && (if key !in c.lru.vals && key in c.statics.vals
                     then c'.statics.vals == c.statics.vals[key := c'.lru.vals[key]]
                     else c'.statics == c.statics))
  {
    hide Lru.Store, Lru.Without, Lru.Last, Lru.Proper;
    var f := Fresh(c, world, key);
    if f.Success? {
      Lru.StoreIs(capacity, c.lru, key, f.value.details);
      AssignProper(c.statics, key, f.value.details);
    }
  }

  lemma UpdateStaticLeaves(capacity: nat, c: Caches, world: World, key: string)
    requires Tidy(capacity, c)
    ensures var (c', r) := UpdateStatic(c, world, key);
            && Tidy(capacity, c') && c'.lru == c.lru && c'.notices == c.notices
            && (r.Failure? ==> c' == c)
            && (r.Success? ==>
                 && (r.value.INSERTED? <==> key !in c.statics.vals)
                 && c'.statics.order == c.statics.order + (if key in c.statics.vals then [] else [key])
                 && key in c'.statics.vals && c'.statics.vals == c.statics.vals[key := c'.statics.vals[key]]
                 && (c'.loads == c.loads || c'.loads == c.loads + [key])
                 && (r.value.INSERTED? ==> c'.loads == c.loads + [key]))
  {
    var r := GetDetails(world, key, Peek(c.statics, key));
    if r.Success? {
      AssignProper(c.statics, key, r.value.details);
    }
  }

  lemma {:induction false} RefreshStaticsTidy(capacity: nat, c: Caches, world: World, keys: seq<string>)
    requires Tidy(capacity, c)
    ensures Tidy(capacity, RefreshStatics(c, world, keys).0)
    decreases |keys|
  {
    hide Tidy, UpdateStatic;
    if keys != [] {
      UpdateStaticLeaves(capacity, c, world, keys[0]);
      RefreshStaticsTidy(capacity, UpdateStatic(c, world, keys[0]).0, world, keys[1..]);
    }
  }

  lemma {:induction false} RefreshEntriesTidy(capacity: nat, c: Caches, world: World, keys: seq<string>)
    requires capacity > 0 && Tidy(capacity, c)
    ensures Tidy(capacity, RefreshEntries(capacity, c, world, keys).0)
    decreases |keys|
  {
    hide Tidy, UpdateEntry;
    if keys != [] {
      UpdateEntryLeaves(capacity, c, world, keys[0]);
      RefreshEntriesTidy(capacity, UpdateEntry(capacity, c, world, keys[0]).0, world, keys[1..]);
    }
  }

  lemma {:induction false} AlwaysTidy(capacity: nat, start: World, events: seq<Event>)
    requires capacity > 0
    ensures Tidy(capacity, Run(capacity, start, events).caches)
  {
    if events != [] {
      AlwaysTidy(capacity, start, events[..|events| - 1]);
      StepTidy(capacity, Run(capacity, start, events[..|events| - 1]), events[|events| - 1]);
    }
  }

  lemma StepTidy(capacity: nat, l: Life, e: Event)
    requires capacity > 0 && l.history != [] && Tidy(capacity, l.caches)
    ensures Tidy(capacity, Step(capacity, l, e).caches)
  {
    hide UpdateEntry, UpdateStatic, RefreshStatics, RefreshEntries;
    var c, world := l.caches, Now(l.history);
    match e {
      case Change(_) =>
      case LookUp(key, _) =>
        UpdateEntryLeaves(capacity, c, world, key);
        if key in c.statics.vals {
          Lru.StoreIs(capacity, c.lru, key, c.statics.vals[key]);
        }
      case Preload(key) => UpdateStaticLeaves(capacity, c, world, key);
      case Touch(key) => UpdateEntryLeaves(capacity, c, world, key);
      case RefreshAll =>
        RefreshStaticsTidy(capacity, c, world, c.statics.order);
        var c1 := RefreshStatics(c, world, c.statics.order).0;
        RefreshEntriesTidy(capacity, c1, world, c1.lru.order);
    }
  }

  /** In every run and over any store, an unrefreshed lookup of a resident key changes nothing at all, the
    * order included, and reports UNCHANGED. */
  lemma HitChangesNothing(capacity: nat, start: World, events: seq<Event>, key: string)
    requires capacity > 0
    requires key in Run(capacity, start, events).caches.lru.vals
    ensures var l := Run(capacity, start, events);
            && Lookup(capacity, l.caches, Now(l.history), key, false).1 ==
               Success((l.caches.lru.vals[key].project, UNCHANGED))
            && Run(capacity, start, events + [LookUp(key, false)]) == l
  {
    RunNext(capacity, start, events, LookUp(key, false));
  }

  lemma RunNext(capacity: nat, start: World, events: seq<Event>, e: Event)
    requires capacity > 0
    ensures Run(capacity, start, events + [e]) == Step(capacity, Run(capacity, start, events), e)
  {
    assert (events + [e])[..|events|] == events;
  }

  /** In every run and over any store, the first unrefreshed lookup of a preloaded key reads nothing and
    * tells nobody; it copies the static entry to the newest place of the LRU tier and reports UPDATED.
    * The next one reports UNCHANGED and changes nothing. */
  lemma StaticHitCopiesOnce(capacity: nat, start: World, events: seq<Event>, key: string)
    requires capacity > 0
    requires var c := Run(capacity, start, events).caches; key in c.statics.vals && key !in c.lru.vals
    ensures var l, first := Run(capacity, start, events), events + [LookUp(key, false)];
            var m, d := Run(capacity, start, first), l.caches.statics.vals[key];
            && Lookup(capacity, l.caches, Now(l.history), key, false).1 == Success((d.project, UPDATED))
            && NewestIs(capacity, l.caches.lru, m.caches.lru, key, d)
            && m == l.(caches := l.caches.(lru := m.caches.lru))
            && Lookup(capacity, m.caches, Now(m.history), key, false).1 == Success((d.project, UNCHANGED))
            && Run(capacity, start, first + [LookUp(key, false)]) == m
  {
    var l, first := Run(capacity, start, events), events + [LookUp(key, false)];
    AlwaysTidy(capacity, start, events);
    RunNext(capacity, start, events, LookUp(key, false));
    Lru.StoreIs(capacity, l.caches.lru, key, l.caches.statics.vals[key]);
    HitChangesNothing(capacity, start, first, key);
  }

  /** In every run and over any store, any other lookup updates the entry: a failure changes nothing; a
    * success makes the key the newest of the LRU tier, answers the project stored there, reports INSERTED
    * exactly if the key was not resident, and brings the static entry along exactly if only that tier
    * knew the key. */
  lemma LookupUpdates(capacity: nat, start: World, events: seq<Event>, key: string, refresh: bool)
    requires capacity > 0
    requires var c := Run(capacity, start, events).caches;
             refresh || (key !in c.lru.vals && key !in c.statics.vals)
    ensures var l, m := Run(capacity, start, events), Run(capacity, start, events + [LookUp(key, refresh)]);
            var r, c, d := Lookup(capacity, l.caches, Now(l.history), key, refresh).1, l.caches, m.caches;
            && m.history == l.history
            && (r.Failure? ==> d == c)
            && (r.Success? ==>
                 && key in d.lru.vals && r.value.0 == d.lru.vals[key].project
                 && NewestIs(capacity, c.lru, d.lru, key, d.lru.vals[key])
                 && (r.value.1.INSERTED? <==> key !in c.lru.vals)
                 && d.statics.order == c.statics.order
                 && (if key !in c.lru.vals && key in c.statics.vals
                     then d.statics.vals == c.statics.vals[key := d.lru.vals[key]]
                     else d.statics == c.statics))
  {
    var l := Run(capacity, start, events);
    AlwaysTidy(capacity, start, events);
    RunNext(capacity, start, events, LookUp(key, refresh));
    UpdateEntryLeaves(capacity, l.caches, Now(l.history), key);
  }

  /** In every run and over any store, a preload puts the key into the static tier, behind the others if it
    * is new to it, and touches nothing else but the record of what was read; it reports INSERTED exactly
    * if the key was new to the tier.  A failure changes nothing. */
  lemma PreloadIs(capacity: nat, start: World, events: seq<Event>, key: string)
    requires capacity > 0
    ensures var l, m := Run(capacity, start, events), Run(capacity, start, events + [Preload(key)]);
            var r, c, d := UpdateStatic(l.caches, Now(l.history), key).1, l.caches, m.caches;
            && m.history == l.history && d.lru == c.lru && d.notices == c.notices
            && (r.Failure? ==> d == c)
            && (r.Success? ==>
                 && (r.value.INSERTED? <==> key !in c.statics.vals)
                 && d.statics.order == c.statics.order + (if key in c.statics.vals then [] else [key])
                 && key in d.statics.vals && d.statics.vals == c.statics.vals[key := d.statics.vals[key]])
  {
    var l := Run(capacity, start, events);
    AlwaysTidy(capacity, start, events);
    RunNext(capacity, start, events, Preload(key));
    UpdateStaticLeaves(capacity, l.caches, Now(l.history), key);
  }

  // ---------------------------------------------------------------- what an update reports

  /** With the file and postgres handlers the reported state is the truth: INSERTED for a key new to
    * the LRU tier, UPDATED exactly when a resident project was read again; and observers hear of
    * every state but UNCHANGED, once, at the resolution of a second. */
  lemma UpdateIsTruthful(capacity: nat, c: Caches, world: World, key: string)
    requires capacity > 0
    requires var s := Find(world, key); s.Stored? && s.protocol.Keeps?
    ensures var (c', r) := UpdateEntry(capacity, c, world, key);
            r.Success? ==>
              && (r.value.INSERTED? <==> key !in c.lru.vals)
              && (r.value.UPDATED? <==> key in c.lru.vals && c'.loads == c.loads + [key])
              && (key in c.lru.vals ==> c'.loads == if r.value.UPDATED? then c.loads + [key] else c.loads)
              && key in c'.lru.vals
              && c'.notices ==
                 if r.value.UNCHANGED? then c.notices
                 else c.notices + [Notice(key, WholeSecond(c'.lru.vals[key].timestamp), r.value)]
  {
  }

  /** Updating the resident `key` finds the store as it was when the entry was taken, or risen since; it
    * reports UPDATED, reads the project again and tells the observers exactly in the second case. */
  ghost predicate TellsRise(capacity: nat, c: Caches, world: World, key: string)
    requires capacity > 0 && key in c.lru.vals
  {
    var resident, now := c.lru.vals[key], Find(world, key);
    var (c', r) := UpdateEntry(capacity, c, world, key);
    r.Success? ==>
      && now.Stored? && resident.timestamp <= now.modified
      && (r.value.UPDATED? <==> resident.timestamp < now.modified)
      && (r.value.UNCHANGED? <==> resident.timestamp == now.modified && now.content == Success(resident.project))
      && c'.loads == (if r.value.UPDATED? then c.loads + [key] else c.loads)
      && c'.notices ==
         if r.value.UPDATED? then c.notices + [Notice(key, WholeSecond(now.modified), UPDATED)] else c.notices
  }

  /** Over every run and with every handler, while each change of the store raises its modified time,
    * what an update of a resident key reports is the truth about the store since the entry was taken. */
  lemma UpdatedIffRisen(capacity: nat, start: World, events: seq<Event>, key: string)
    requires capacity > 0 && Versioned(Run(capacity, start, events).history)
    requires key in Run(capacity, start, events).caches.lru.vals
    ensures var l := Run(capacity, start, events);
            && Held(l.history, l.since, key, l.caches.lru.vals[key])
            && TellsRise(capacity, l.caches, Now(l.history), key)
  {
    hide TellsRise;
    AlwaysSound(capacity, start, events);
    var l := Run(capacity, start, events);
    RisenIsUpdated(capacity, l.caches, l.history, l.since, key);
  }

  lemma RisenIsUpdated(capacity: nat, c: Caches, history: seq<World>, since: nat, key: string)
    requires capacity > 0 && Versioned(history) && history != [] && key in c.lru.vals
    requires Held(history, since, key, c.lru.vals[key])
    ensures TellsRise(capacity, c, Now(history), key)
  {
    var i :| since <= i < |history| && At(history[i], key, c.lru.vals[key]);
    assert InOrder(history[i], history[|history| - 1], key);
  }

  /** With the fallback storage handler an update is reported without a new read exactly when the
    * store's modified time went back. */
  lemma StorageReportsBackwardTime(capacity: nat, c: Caches, world: World, key: string)
    requires capacity > 0 && key in c.lru.vals
    requires var s := Find(world, key); s.Stored? && s.protocol.Reports?
    ensures var (c', r) := UpdateEntry(capacity, c, world, key);
            r.Success? ==>
              (r.value.UPDATED? && c'.loads == c.loads <==>
                 Find(world, key).modified < c.lru.vals[key].timestamp)
  {
    assert c.loads + [key] != c.loads;
  }

  /** The case exists: nothing is read, the old project is kept, and observers are told of an update. */
  lemma StorageUpdateWithoutRead(project: Bytes)
    ensures var d := Details(project, 2_000_000);
            var c := Empty.(lru := Lru.Table(["p"], map["p" := d]));
            var world := map["p" := Stored(Reports, 1_000_000, Success(project))];
            var (c', r) := UpdateEntry(1, c, world, "p");
            r == Success(UPDATED) && c'.loads == [] && c'.notices == [Notice("p", 1_000_000, UPDATED)]
  {
  }

  // ---------------------------------------------------------------- timestamps

  /** No key kept by a tier goes back in time. */
  ghost predicate NoOlder(t: Lru.Table<string, Details>, u: Lru.Table<string, Details>) {
    forall key :: key in t.vals && key in u.vals ==> t.vals[key].timestamp <= u.vals[key].timestamp
  }

  ghost predicate CachesNoOlder(c: Caches, d: Caches) {
    && NoOlder(c.lru, d.lru)
    && NoOlder(c.statics, d.statics)
    && forall key :: key in c.statics.vals ==> key in d.statics.vals
  }

  lemma HeldIsPast(history: seq<World>, since: nat, key: string, d: Details, e: Details)
    requires Versioned(history) && history != []
    requires Held(history, since, key, d) && At(Now(history), key, e)
    ensures d.timestamp <= e.timestamp
  {
    var i :| since <= i < |history| && At(history[i], key, d);
    assert InOrder(history[i], history[|history| - 1], key);
  }

  lemma UpdateEntryNoOlder(capacity: nat, c: Caches, history: seq<World>, since: nat, key: string)
    requires capacity > 0 && Versioned(history) && Sound(capacity, c, history, since)
    ensures CachesNoOlder(c, UpdateEntry(capacity, c, Now(history), key).0)
  {
    FreshIsDirect(capacity, c, history, since, key);
    var r := Fresh(c, Now(history), key);
    if r.Success? {
      var d := r.value.details;
      Lru.StoreIs(capacity, c.lru, key, d);
      if key in c.lru.vals {
        HeldIsPast(history, since, key, c.lru.vals[key], d);
      }
      if key in c.statics.vals {
        HeldIsPast(history, since, key, c.statics.vals[key], d);
      }
    }
  }

  lemma UpdateStaticNoOlder(capacity: nat, c: Caches, history: seq<World>, since: nat, key: string)
    requires Versioned(history) && Sound(capacity, c, history, since)
    ensures CachesNoOlder(c, UpdateStatic(c, Now(history), key).0)
  {
    FetchIsDirect(history, since, key, Peek(c.statics, key));
    var r := GetDetails(Now(history), key, Peek(c.statics, key));
    if r.Success? && key in c.statics.vals {
      HeldIsPast(history, since, key, c.statics.vals[key], r.value.details);
    }
  }

  lemma {:induction false} RefreshStaticsNoOlder(
      capacity: nat, c: Caches, history: seq<World>, since: nat, keys: seq<string>)
    requires Versioned(history) && Sound(capacity, c, history, since)
    ensures CachesNoOlder(c, RefreshStatics(c, Now(history), keys).0)
    ensures RefreshStatics(c, Now(history), keys).0.lru == c.lru
    decreases |keys|
  {
    hide UpdateStatic, Sound;
    if keys != [] {
      UpdateStaticSound(capacity, c, history, since, keys[0]);
      UpdateStaticNoOlder(capacity, c, history, since, keys[0]);
      RefreshStaticsNoOlder(capacity, UpdateStatic(c, Now(history), keys[0]).0, history, since, keys[1..]);
    }
  }

  lemma {:induction false} RefreshEntriesNoOlder(
      capacity: nat, c: Caches, history: seq<World>, since: nat, todo: seq<string>, done: seq<string>)
    requires capacity > 0 && Versioned(history) && Sound(capacity, c, history, since)
    requires c.lru.order == todo + done
    ensures CachesNoOlder(c, RefreshEntries(capacity, c, Now(history), todo).0)
    ensures forall k :: k in c.lru.vals ==> k in RefreshEntries(capacity, c, Now(history), todo).0.lru.vals
    decreases |todo|
  {
    hide UpdateEntry, Sound;
    if todo != [] {
      var k, rest := todo[0], todo[1..];
      assert c.lru.order[0] == k && c.lru.order[1..] == rest + done;
      WalkStep(capacity, c, history, since);
      UpdateEntryNoOlder(capacity, c, history, since, k);
      UpdateEntrySound(capacity, c, history, since, k);
      var (c1, r) := UpdateEntry(capacity, c, Now(history), k);
      if r.Success? {
        assert rest + done + [k] == rest + (done + [k]);
        RefreshEntriesNoOlder(capacity, c1, history, since, rest, done + [k]);
      }
    }
  }

  /** Over every step of every run, no static entry goes back in time, nor does an LRU entry that
    * stays resident. */
  lemma TimestampsNeverDecrease(capacity: nat, start: World, events: seq<Event>, e: Event)
    requires capacity > 0 && Versioned(Run(capacity, start, events).history)
    ensures var l := Run(capacity, start, events); CachesNoOlder(l.caches, Step(capacity, l, e).caches)
  {
    AlwaysSound(capacity, start, events);
    var l := Run(capacity, start, events);
    StepNoOlder(capacity, l, e);
  }

  lemma StepNoOlder(capacity: nat, l: Life, e: Event)
    requires capacity > 0 && l.history != [] && Versioned(l.history)
    requires Sound(capacity, l.caches, l.history, l.since)
    ensures CachesNoOlder(l.caches, Step(capacity, l, e).caches)
  {
    var c, world := l.caches, Now(l.history);
    match e {
      case Change(_) =>
      case LookUp(key, refresh) =>
        UpdateEntryNoOlder(capacity, c, l.history, l.since, key);
        if key !in c.lru.vals && key in c.statics.vals {
          Lru.StoreIs(capacity, c.lru, key, c.statics.vals[key]);
        }
      case Preload(key) => UpdateStaticNoOlder(capacity, c, l.history, l.since, key);
      case Touch(key) => UpdateEntryNoOlder(capacity, c, l.history, l.since, key);
      case RefreshAll => RefreshNoOlder(capacity, c, l.history, l.since);
    }
  }

  lemma RefreshNoOlder(capacity: nat, c: Caches, history: seq<World>, since: nat)
    requires capacity > 0 && Versioned(history) && Sound(capacity, c, history, since)
    ensures CachesNoOlder(c, Refresh(capacity, c, Now(history)).0)
  {
    hide RefreshStatics, RefreshEntries;
    RefreshStaticsSound(capacity, c, history, since, c.statics.order);
    RefreshStaticsNoOlder(capacity, c, history, since, c.statics.order);
    var (c1, failure) := RefreshStatics(c, Now(history), c.statics.order);
    if failure.None? {
      assert c1.lru.order == c1.lru.order + [];
      RefreshEntriesNoOlder(capacity, c1, history, since, c1.lru.order, []);
    }
  }

  // ---------------------------------------------------------------- notices

  /** Every notice added tells a time that the store has now. */
  ghost predicate TellsNow(c: Caches, d: Caches, world: World) {
    && c.notices <= d.notices
    && forall i :: |c.notices| <= i < |d.notices| ==> IsCurrent(d.notices[i], world)
  }

  predicate IsCurrent(n: Notice, world: World) {
    var s := Find(world, n.key);
    s.Stored? && n.time == WholeSecond(s.modified)
  }

  lemma UpdateEntryTells(capacity: nat, c: Caches, history: seq<World>, since: nat, key: string)
    requires capacity > 0 && Versioned(history) && Sound(capacity, c, history, since)
    ensures TellsNow(c, UpdateEntry(capacity, c, Now(history), key).0, Now(history))
  {
    FreshIsDirect(capacity, c, history, since, key);
  }

  lemma {:induction false} RefreshEntriesTells(
      capacity: nat, c: Caches, history: seq<World>, since: nat, keys: seq<string>)
    requires capacity > 0 && Versioned(history) && Sound(capacity, c, history, since)
    ensures TellsNow(c, RefreshEntries(capacity, c, Now(history), keys).0, Now(history))
    decreases |keys|
  {
    hide UpdateEntry, Sound;
    if keys != [] {
      UpdateEntryTells(capacity, c, history, since, keys[0]);
      UpdateEntrySound(capacity, c, history, since, keys[0]);
      var (c1, r) := UpdateEntry(capacity, c, Now(history), keys[0]);
      RefreshEntriesTells(capacity, c1, history, since, keys[1..]);
    }
  }

  lemma StepTells(capacity: nat, l: Life, e: Event)
    requires capacity > 0 && l.history != [] && Versioned(l.history)
    requires Sound(capacity, l.caches, l.history, l.since)
    ensures TellsNow(l.caches, Step(capacity, l, e).caches, Now(l.history))
  {
    var c, history := l.caches, l.history;
    match e {
      case Change(_) =>
      case LookUp(key, _) => UpdateEntryTells(capacity, c, history, l.since, key);
      case Preload(key) => UpdateStaticSound(capacity, c, history, l.since, key);
      case Touch(key) => UpdateEntryTells(capacity, c, history, l.since, key);
      case RefreshAll =>
        RefreshStaticsSound(capacity, c, history, l.since, c.statics.order);
        var c1 := RefreshStatics(c, Now(history), c.statics.order).0;
        RefreshEntriesTells(capacity, c1, history, l.since, c1.lru.order);
    }
  }

  // ---------------------------------------------------------------- the object

  class QgsCacheManager {
    const lru: Lru.LruCache<string, Details>
    var statics: Lru.Table<string, Details>
    ghost var notices: seq<Notice>
    ghost var loads: seq<string>

    ghost predicate Valid()
      reads this, lru
    {
      lru.Valid()
    }

    ghost function View(): Caches
      reads this, lru
    {
      Caches(lru.Contents(), statics, notices, loads)
    }

    constructor (size: nat)
      requires size > 0
      ensures Valid() && View() == Empty && lru.capacity == size && fresh(lru)
    {
      lru := new Lru.LruCache(size);
      statics, notices, loads := Lru.Table([], map[]), [], [];
    }

    method UpdateStaticEntry(world: World, key: string) returns (r: Result<UpdateState, Fault>)
      requires Valid()
      modifies this`statics, this`loads
      ensures Valid() && (View(), r) == UpdateStatic(old(View()), world, key)
    {
      var fetched := GetDetails(world, key, Peek(statics, key));
      match fetched
      case Failure(fault) => r := Failure(fault);
      case Success(f) =>
        statics := Assign(statics, key, f.details);
        loads := if f.reread then loads + [key] else loads;
        r := Success(f.state);
    }

    method UpdateLruEntry(world: World, key: string) returns (r: Result<UpdateState, Fault>)
      requires Valid()
      modifies this`statics, this`notices, this`loads, lru`order, lru`vals
      ensures Valid() && (View(), r) == UpdateEntry(lru.capacity, old(View()), world, key)
    {
      var details := lru.Peek(key);
      var fetched, state;
      if details.None? && key in statics.vals {
        fetched := GetDetails(world, key, Some(statics.vals[key]));
        if fetched.Failure? {
          return Failure(fetched.error);
        }
        if fetched.value.state.UPDATED? {
          statics := Assign(statics, key, fetched.value.details);
        }
        state := INSERTED;
      } else {
        fetched := GetDetails(world, key, details);
        if fetched.Failure? {
          return Failure(fetched.error);
        }
        state := fetched.value.state;
      }
      loads := if fetched.value.reread then loads + [key] else loads;
      lru.Set(key, fetched.value.details);
      if !state.UNCHANGED? {
        notices := notices + [Notice(key, WholeSecond(fetched.value.details.timestamp), state)];
      }
      r := Success(state);
    }

    method LookupProject(world: World, key: string, refresh: bool) returns (r: Result<(Bytes, UpdateState), Fault>)
      requires Valid()
      modifies this`statics, this`notices, this`loads, lru`order, lru`vals
      ensures Valid() && (View(), r) == Lookup(lru.capacity, old(View()), world, key, refresh)
    {
      if !refresh {
        var details := lru.Peek(key);
        if details.Some? {
          return Success((details.value.project, UNCHANGED));
        }
        if key in statics.vals {
          var d := statics.vals[key];
          lru.Set(key, d);
          return Success((d.project, UPDATED));
        }
      }
      var update := UpdateLruEntry(world, key);
      match update
      case Failure(fault) => r := Failure(fault);
      case Success(state) =>
        MoveNewest(lru.Contents(), key);
        var details := lru.Get(key);
        r := Success((details.value.project, state));
    }

    /** A generator in the source; here it is consumed at once, as the worker does. */
    method RefreshEverything(world: World) returns (failure: Option<Fault>)
      requires Valid()
      modifies this`statics, this`notices, this`loads, lru`order, lru`vals
      ensures Valid() && (View(), failure) == Refresh(lru.capacity, old(View()), world)
    {
      var keys := statics.order;
      var i := 0;
      while i < |keys|
        invariant 0 <= i <= |keys|
        invariant lru.Contents() == old(lru.Contents()) && notices == old(notices) && Valid()
        invariant RefreshStatics(View(), world, keys[i..]) == RefreshStatics(old(View()), world, keys)
      {
        var r := UpdateStaticEntry(world, keys[i]);
        assert keys[i..][0] == keys[i] && keys[i..][1..] == keys[i + 1..];
        if r.Failure? {
          return Some(r.error);
        }
        i := i + 1;
      }
      ghost var middle := View();
      keys := lru.order;
      i := 0;
      while i < |keys|
        invariant 0 <= i <= |keys| && Valid()
        invariant RefreshEntries(lru.capacity, View(), world, keys[i..]) ==
                  RefreshEntries(lru.capacity, middle, world, keys)
      {
        var r := UpdateLruEntry(world, keys[i]);
        assert keys[i..][0] == keys[i] && keys[i..][1..] == keys[i + 1..];
        if r.Failure? {
          return Some(r.error);
        }
        i := i + 1;
      }
      failure := None;
    }
  }

  /** Reading the key just stored does not move it. */
  lemma MoveNewest(t: Lru.Table<string, Details>, key: string)
    requires Lru.Proper(t) && t.order != [] && t.order[|t.order| - 1] == key
    ensures Lru.MoveToEnd(t, key) == t
  {
    var front := t.order[..|t.order| - 1];
    assert t.order == front + [key];
    assert key !in front;
    Lru.WithoutConcat(front, [key], key);
    assert front + [] == front;
  }
}
