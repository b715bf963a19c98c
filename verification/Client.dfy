/** The HTTP side of the protocol: one socket shared by all pending requests, a poll task that hands
  * each reply message to the request it answers, and the consumers that wait for them.
  *
  * A step is what happens between two suspension points of the event loop.
  */
module Client {
  import opened Wire
  import Framing

  /** A reply message as the socket delivers it, or the refusal sent by the balancer. */
  datatype Packet = Part(frame: Framing.Frame) | Refusal(code: Bytes)

  datatype Future = Unresolved | Resolved | Raised(code: Bytes) | Cancelled

  datatype Reply = Reply(
    status: int,
    headers: Framing.Headers,
    data: Bytes,
    hasMore: bool,
    future: Future,
    chunks: seq<(Bytes, bool)>)

  const NewReply := Reply(-1, map[], [], false, Unresolved, [])

  function Raise(r: Reply, code: Bytes): (Reply, bool) {
    var r' := r.(hasMore := false);
    if r.future.Unresolved? then (r'.(future := Raised(code)), true) else (r', false)
  }

  /** The new reply, and whether the message was taken without an exception: a message of the wrong
    * shape does not unpack, and a settled future cannot be resolved again. */
  function Take(r: Reply, f: Framing.Frame): (Reply, bool) {
    if r.status == -1 then
      if f.Chunk? then (r, false)
      else
        var r' := r.(status := f.status, headers := f.headers, data := f.body);
        var r'' := if f.status == 206 then r'.(hasMore := true, chunks := []) else r';
        if r.future.Unresolved? then (r''.(future := Resolved), true) else (r'', false)
    else if r.hasMore then
      if f.Header? then (r, false)
      else (r.(hasMore := f.more, chunks := r.chunks + [(f.body, f.more)]), true)
    else (r, true)
  }

  function OnPacket(r: Reply, p: Packet): (Reply, bool) {
    match p
    case Part(f) => Take(r, f)
    case Refusal(code) => Raise(r, code)
  }

  /** Whoever stops waiting for a future cancels it, unless it is settled. */
  function Cancel(r: Reply): Reply {
    if r.future.Unresolved? then r.(future := Cancelled) else r
  }

  predicate Done(r: Reply) {
    !r.hasMore && !r.future.Unresolved?
  }

  /** One request: its reply, whether the poll task still knows it, and what its consumer has seen.
    * `expired` says that a wait timed out; the consumer gives up in a later step, and messages may
    * arrive before that.  `abandoned` says that the consumer was cancelled, or dropped the chunks
    * before their end.  `taken` is every byte handed over, by `fetch` and then by `fetch_more`. */
  datatype Session = Session(
    reply: Reply,
    registered: bool,
    fetched: bool,
    expired: bool,
    abandoned: bool,
    ended: bool,
    taken: Bytes)

  const NewSession := Session(NewReply, true, false, false, false, false, [])

  datatype Event =
    | Fetch(id: Bytes)
    | Receive(id: Bytes, packet: Packet)
    | Return(id: Bytes)
    | Next(id: Bytes)
    | TimeOut(id: Bytes)
    | TimeOutNext(id: Bytes)
    | GiveUp(id: Bytes)
    | Abandon(id: Bytes)
    | StartPoll
    | SocketError

  predicate Concerns(e: Event, id: Bytes) {
    !e.StartPoll? && !e.SocketError? && e.id == id
  }

  /** A deadline may pass although the awaited message has arrived, before the consumer wakes up. */
  predicate LocallyEnabled(l: Option<Session>, e: Event) {
    match e
    case Fetch(_) => l.None?
    case Return(_) =>
      l.Some? && !l.value.fetched && !l.value.ended && !l.value.expired &&
      (l.value.reply.future.Resolved? || l.value.reply.future.Raised?)
    case Next(_) =>
      l.Some? && l.value.fetched && !l.value.ended && !l.value.expired && l.value.reply.chunks != []
    case TimeOut(_) => l.Some? && !l.value.fetched && !l.value.ended && !l.value.expired
    case TimeOutNext(_) => l.Some? && l.value.fetched && !l.value.ended && !l.value.expired
    case GiveUp(_) => l.Some? && !l.value.ended && l.value.expired
    case Abandon(_) => l.Some? && !l.value.ended
    case _ => true
  }

  function Deliver(s: Session, p: Packet): Session {
    if !s.registered then s
    else
      var (r, ok) := OnPacket(s.reply, p);
      s.(reply := r, registered := !(ok && Done(r)))
  }

  /** `fetch` waking up: a refused request raises, any other hands over the first part of the body.
    * Only a 206 reply is read further. */
  function Wake(s: Session): Session {
    if s.reply.future.Resolved? then
      s.(fetched := true, ended := s.reply.status != 206, taken := s.reply.data)
    else s.(registered := false, ended := true)
  }

  /** `fetch_more` waking up: the message that says there is no more only stops the consumer. */
  function Pull(s: Session): Session
    requires s.reply.chunks != []
  {
    var (body, more) := s.reply.chunks[0];
    var s' := s.(reply := s.reply.(chunks := s.reply.chunks[1..]));
    if more then s'.(taken := s.taken + body) else s'.(ended := true)
  }

  function LocalStep(l: Option<Session>, e: Event): Option<Session> {
    if e.Fetch? then Some(NewSession)
    else if l.None? then None
    else Some(Proceed(l.value, e))
  }

  function Proceed(s: Session, e: Event): Session {
    match e
    case Receive(_, p) => Deliver(s, p)
    case Return(_) => Wake(s)
    case Next(_) => if s.reply.chunks == [] then s else Pull(s)
    case TimeOut(_) => s.(reply := Cancel(s.reply), expired := true)
    case TimeOutNext(_) => s.(expired := true)
    case GiveUp(_) => s.(reply := s.reply.(hasMore := false), registered := false, ended := true)
    case Abandon(_) => s.(reply := Cancel(s.reply), abandoned := true, ended := true)
    case _ => s
  }

  // ---------------------------------------------------------------- the client as a whole

  /** `scheduled` poll tasks were created and have not run yet; `alive` ones wait for a message. */
  datatype State = State(sessions: map<Bytes, Session>, polling: bool, scheduled: nat, alive: nat)

  const Init := State(map[], false, 0, 0)

  function Put(s: State, id: Bytes, x: Session): State {
    s.(sessions := s.sessions[id := x])
  }

  function Local(s: State, id: Bytes): Option<Session> {
    if id in s.sessions then Some(s.sessions[id]) else None
  }

  function Handlers(s: State): set<Bytes> {
    set id | id in s.sessions && s.sessions[id].registered
  }

  function Update(s: State, e: Event): State
    requires !e.StartPoll? && !e.SocketError?
  {
    var l := LocalStep(Local(s, e.id), e);
    if l.Some? then Put(s, e.id, l.value) else s
  }

  /** The test at the head of the poll loop, reached by a task that is awake. */
  function LoopTest(s: State): State {
    if Handlers(s) == {} then s.(polling := false, alive := if s.alive == 0 then 0 else s.alive - 1) else s
  }

  predicate Enabled(s: State, e: Event) {
    match e
    case StartPoll => s.scheduled > 0
    case SocketError => s.alive > 0
    case Receive(_, _) => s.alive > 0
    case _ => LocallyEnabled(Local(s, e.id), e)
  }

  function Apply(s: State, e: Event): State {
    match e
    case StartPoll =>
      var left := if s.scheduled == 0 then 0 else s.scheduled - 1;
      LoopTest(s.(polling := true, scheduled := left, alive := s.alive + 1))
    case SocketError => LoopTest(s)
    case Receive(_, _) => LoopTest(Update(s, e))
    case Fetch(_) => var t := Update(s, e); if s.polling then t else t.(scheduled := s.scheduled + 1)
    case _ => Update(s, e)
  }

  function Run(events: seq<Event>): State {
    if events == [] then Init else Apply(Run(events[..|events| - 1]), events[|events| - 1])
  }

  predicate Legal(events: seq<Event>) {
    events == [] ||
    (Legal(events[..|events| - 1]) && Enabled(Run(events[..|events| - 1]), events[|events| - 1]))
  }

  lemma FetchIs(s: State, id: Bytes)
    requires id !in s.sessions
    ensures Apply(s, Fetch(id)) ==
            Put(s, id, NewSession).(scheduled := if s.polling then s.scheduled else s.scheduled + 1)
  {
  }

  lemma UpdateIs(s: State, e: Event)
    requires !e.Fetch? && !e.StartPoll? && !e.SocketError? && e.id in s.sessions
    ensures Update(s, e) == Put(s, e.id, Proceed(s.sessions[e.id], e))
    ensures !e.Receive? ==> Apply(s, e) == Update(s, e)
  {
  }

  predicate Attended(s: State) {
    && (s.polling ==> s.alive > 0)
    && (Handlers(s) != {} ==> s.alive + s.scheduled > 0)
  }

  lemma AttendedStep(s: State, e: Event)
    requires Attended(s) && Enabled(s, e)
    ensures Attended(Apply(s, e))
  {
    if !e.Fetch? && !e.StartPoll? && !e.SocketError? {
      assert Handlers(Update(s, e)) <= Handlers(s);
    }
  }

  /** In every interleaving, even with several poll tasks at once: the polling flag is only up while a
    * started task is alive, and a registered request always has a task, running or about to. */
  lemma {:induction false} NoRequestWithoutReader(events: seq<Event>)
    requires Legal(events)
    ensures Attended(Run(events))
  {
    if events != [] {
      NoRequestWithoutReader(events[..|events| - 1]);
      AttendedStep(Run(events[..|events| - 1]), events[|events| - 1]);
    }
  }

  // ---------------------------------------------------------------- demultiplexing

  function Project(events: seq<Event>, id: Bytes): seq<Event> {
    if events == [] then []
    else
      var e := events[|events| - 1];
      Project(events[..|events| - 1], id) + if Concerns(e, id) then [e] else []
  }

  function LocalRun(events: seq<Event>): Option<Session> {
    if events == [] then None else LocalStep(LocalRun(events[..|events| - 1]), events[|events| - 1])
  }

  predicate LocallyLegal(events: seq<Event>) {
    events == [] ||
    (LocallyLegal(events[..|events| - 1]) && LocallyEnabled(LocalRun(events[..|events| - 1]), events[|events| - 1]))
  }

  lemma StepIsLocal(s: State, e: Event, id: Bytes)
    requires Enabled(s, e)
    ensures Concerns(e, id) ==>
              LocallyEnabled(Local(s, id), e) && Local(Apply(s, e), id) == LocalStep(Local(s, id), e)
    ensures !Concerns(e, id) ==> Local(Apply(s, e), id) == Local(s, id)
  {
  }

  lemma LocalSnoc(events: seq<Event>, e: Event)
    ensures LocalRun(events + [e]) == LocalStep(LocalRun(events), e)
    ensures LocallyLegal(events + [e]) <==> LocallyLegal(events) && LocallyEnabled(LocalRun(events), e)
  {
    assert (events + [e])[..|events|] == events;
  }

  /** A request sees only its own messages and its own consumer, whatever the others do. */
  lemma {:induction false} Demultiplexed(events: seq<Event>, id: Bytes)
    requires Legal(events)
    ensures Local(Run(events), id) == LocalRun(Project(events, id))
    ensures LocallyLegal(Project(events, id))
  {
    if events != [] {
      var before, e := events[..|events| - 1], events[|events| - 1];
      Demultiplexed(before, id);
      StepIsLocal(Run(before), e, id);
      if Concerns(e, id) {
        LocalSnoc(Project(before, id), e);
      } else {
        assert Project(events, id) == Project(before, id);
      }
    }
  }

  // ---------------------------------------------------------------- no request is kept for nobody

  predicate Tidy(s: Session) {
    && (s.ended && s.registered ==> s.abandoned)
    && (if s.reply.status == -1 then !s.reply.hasMore else !s.reply.future.Unresolved?)
    && (s.registered ==>
         && (s.reply.future.Resolved? ==> s.reply.status == 206)
         && forall i :: 0 <= i < |s.reply.chunks| ==> s.reply.chunks[i].1)
  }

  lemma TidyStep(l: Option<Session>, e: Event)
    requires l.Some? ==> Tidy(l.value)
    requires LocallyEnabled(l, e) && LocalStep(l, e).Some?
    ensures Tidy(LocalStep(l, e).value)
  {
  }

  /** In every interleaving, whatever messages arrive and whatever times out: a request whose consumer
    * has stopped, has raised or has given up is forgotten.  Only one whose consumer was cancelled, or
    * dropped the chunks before their end, is ever kept. */
  lemma {:induction false} EndedIsForgotten(events: seq<Event>)
    requires Legal(events)
    ensures forall id :: id in Run(events).sessions ==> Tidy(Run(events).sessions[id])
    ensures forall id :: id in Handlers(Run(events)) ==>
              var session := Run(events).sessions[id]; session.ended ==> session.abandoned
  {
    if events != [] {
      var before, e := events[..|events| - 1], events[|events| - 1];
      EndedIsForgotten(before);
      forall id | id in Run(events).sessions ensures Tidy(Run(events).sessions[id]) {
        OneStaysTidy(Run(before), e, id);
      }
    }
  }

  lemma OneStaysTidy(s: State, e: Event, id: Bytes)
    requires Enabled(s, e) && id in Apply(s, e).sessions
    requires id in s.sessions ==> Tidy(s.sessions[id])
    ensures Tidy(Apply(s, e).sessions[id])
  {
    hide Tidy, LocalStep, LocallyEnabled;
    StepIsLocal(s, e, id);
    if Concerns(e, id) {
      TidyStep(Local(s, id), e);
    }
  }

  // ---------------------------------------------------------------- timing out and giving up

  predicate TimesOut(e: Event, id: Bytes) {
    e == TimeOut(id) || e == TimeOutNext(id)
  }

  predicate Leaves(e: Event, id: Bytes) {
    e == GiveUp(id) || e == Abandon(id)
  }

  /** A wait for `id` timed out, and its consumer has neither given up nor been cancelled since. */
  ghost predicate TimedOut(events: seq<Event>, id: Bytes) {
    exists i :: 0 <= i < |events| && TimesOut(events[i], id) &&
                forall j :: i < j < |events| ==> !Leaves(events[j], id)
  }

  lemma TimedOutSnoc(events: seq<Event>, e: Event, id: Bytes)
    ensures TimedOut(events + [e], id) <==> TimesOut(e, id) || (TimedOut(events, id) && !Leaves(e, id))
  {
    var all := events + [e];
    if TimesOut(e, id) {
      assert all[|events|] == e;
    } else if TimedOut(events, id) && !Leaves(e, id) {
      var i :| 0 <= i < |events| && TimesOut(events[i], id) && forall j :: i < j < |events| ==> !Leaves(events[j], id);
      assert all[i] == events[i];
    }
    if TimedOut(all, id) && !TimesOut(e, id) {
      var i :| 0 <= i < |all| && TimesOut(all[i], id) && forall j :: i < j < |all| ==> !Leaves(all[j], id);
      assert events[i] == all[i] && !Leaves(all[|events|], id);
      assert forall j :: i < j < |events| ==> events[j] == all[j];
    }
  }

  lemma GivesUpNext(l: Option<Session>, e: Event, id: Bytes)
    requires LocallyEnabled(l, e) && Concerns(e, id)
    ensures LocallyEnabled(LocalStep(l, e), GiveUp(id)) <==>
            TimesOut(e, id) || (LocallyEnabled(l, GiveUp(id)) && !Leaves(e, id))
  {
  }

  lemma AfterEvent(events: seq<Event>, e: Event)
    ensures Run(events + [e]) == Apply(Run(events), e)
    ensures Legal(events + [e]) <==> Legal(events) && Enabled(Run(events), e)
  {
    assert (events + [e])[..|events|] == events;
  }

  /** In every run a consumer can give up exactly if its wait timed out and it is not gone yet, whatever
    * has arrived meanwhile. */
  lemma {:induction false} GivesUpIff(events: seq<Event>, id: Bytes)
    requires Legal(events)
    ensures Enabled(Run(events), GiveUp(id)) <==> TimedOut(events, id)
  {
    hide TimedOut, LocalStep, LocallyEnabled;
    if events == [] {
      NobodyTimedOut(id);
    } else {
      var before, e := events[..|events| - 1], events[|events| - 1];
      assert events == before + [e];
      GivesUpIff(before, id);
      TimedOutSnoc(before, e, id);
      StepIsLocal(Run(before), e, id);
      if Concerns(e, id) {
        GivesUpNext(Local(Run(before), id), e, id);
      }
    }
  }

  lemma NobodyTimedOut(id: Bytes)
    ensures !TimedOut([], id) && !LocallyEnabled(None, GiveUp(id))
  {
  }

  /** What one event leaves alone: the other requests, and the poll tasks. */
  ghost predicate OnlyTouches(s: State, t: State, id: Bytes) {
    && (forall k :: k != id ==> (k in t.sessions <==> k in s.sessions))
    && (forall k :: k != id && k in s.sessions ==> t.sessions[k] == s.sessions[k])
    && t.polling == s.polling && t.alive == s.alive && t.scheduled == s.scheduled
  }

  /** A consumer that gives up ends and is forgotten at once, with what it has read so far; nothing else
    * changes. */
  lemma GivingUpForgets(events: seq<Event>, id: Bytes)
    requires Legal(events + [GiveUp(id)])
    ensures var s, t := Run(events), Run(events + [GiveUp(id)]);
            && id in s.sessions && id in t.sessions && id !in Handlers(t)
            && t.sessions[id].ended && !t.sessions[id].reply.hasMore
            && t.sessions[id].taken == s.sessions[id].taken
            && OnlyTouches(s, t, id)
  {
    AfterEvent(events, GiveUp(id));
  }

  /** A timeout ends the wait and nothing more: the request stays known until its consumer gives up. */
  lemma TimingOutWaits(events: seq<Event>, id: Bytes, e: Event)
    requires Legal(events + [e]) && TimesOut(e, id)
    ensures var s, t := Run(events), Run(events + [e]);
            && id in s.sessions && id in t.sessions
            && (id in Handlers(t) <==> id in Handlers(s))
            && !t.sessions[id].ended && t.sessions[id].taken == s.sessions[id].taken
            && t.sessions[id].reply.chunks == s.sessions[id].reply.chunks
            && t.sessions[id].reply.hasMore == s.sessions[id].reply.hasMore
            && (e.TimeOut? ==> !t.sessions[id].reply.future.Unresolved?)
            && (!s.sessions[id].reply.future.Unresolved? ==>
                 t.sessions[id].reply.future == s.sessions[id].reply.future)
            && !Enabled(t, Return(id)) && !Enabled(t, Next(id)) && Enabled(t, GiveUp(id))
            && OnlyTouches(s, t, id)
  {
    AfterEvent(events, e);
  }

  /** A consumer that is cancelled, or drops the chunks, ends with what it has read so far and leaves the
    * request as known as it was. */
  lemma AbandoningLeaves(events: seq<Event>, id: Bytes)
    requires Legal(events + [Abandon(id)])
    ensures var s, t := Run(events), Run(events + [Abandon(id)]);
            && id in s.sessions && id in t.sessions
            && (id in Handlers(t) <==> id in Handlers(s))
            && t.sessions[id].ended && t.sessions[id].abandoned
            && !t.sessions[id].reply.future.Unresolved?
            && t.sessions[id].taken == s.sessions[id].taken
            && OnlyTouches(s, t, id)
  {
    AfterEvent(events, Abandon(id));
  }

  /** `fetch` waking up: a refusal raises, ends the consumer and forgets the request; otherwise the first
    * part is handed over, and only a 206 reply is read on. */
  lemma WakingUp(events: seq<Event>, id: Bytes)
    requires Legal(events + [Return(id)])
    ensures var s, t := Run(events), Run(events + [Return(id)]);
            && id in s.sessions && id in t.sessions
            && var x, y := s.sessions[id], t.sessions[id];
               && y.reply == x.reply && OnlyTouches(s, t, id)
               && (x.reply.future.Raised? ==> id !in Handlers(t) && y.ended && y.taken == [] && !y.fetched)
               && (x.reply.future.Resolved? ==>
                    && (id in Handlers(t) <==> id in Handlers(s))
                    && y.fetched && y.taken == x.reply.data
                    && (y.ended <==> x.reply.status != 206))
  {
    AfterEvent(events, Return(id));
    NothingTakenYet(events, id);
  }

  /** `fetch_more` waking up: it hands over the oldest queued chunk, and stops, handing over nothing, at the
    * one that says there is no more. */
  lemma ReadingOn(events: seq<Event>, id: Bytes)
    requires Legal(events + [Next(id)])
    ensures var s, t := Run(events), Run(events + [Next(id)]);
            && id in s.sessions && id in t.sessions
            && var x, y := s.sessions[id], t.sessions[id];
               && x.reply.chunks != []
               && y.reply == x.reply.(chunks := x.reply.chunks[1..])
               && (id in Handlers(t) <==> id in Handlers(s))
               && (y.ended <==> !x.reply.chunks[0].1)
               && y.taken == x.taken + (if y.ended then [] else x.reply.chunks[0].0)
               && OnlyTouches(s, t, id)
  {
    AfterEvent(events, Next(id));
  }

  /** Nothing is handed over before `fetch` returns. */
  lemma {:induction false} NothingTakenYet(events: seq<Event>, id: Bytes)
    requires Legal(events)
    ensures var s := Run(events); id in s.sessions && !s.sessions[id].fetched ==> s.sessions[id].taken == []
  {
    if events != [] {
      var before, e := events[..|events| - 1], events[|events| - 1];
      NothingTakenYet(before, id);
      StepIsLocal(Run(before), e, id);
    }
  }

  // ---------------------------------------------------------------- what a message does

  /** A refusal stops the reply.  It raises at the consumer and removes the request, unless the consumer was
    * told something before: then the poll loop fails and the request stays. */
  lemma RefusalIs(events: seq<Event>, id: Bytes, code: Bytes)
    requires Legal(events + [Receive(id, Refusal(code))]) && id in Handlers(Run(events))
    ensures var s, t := Run(events), Run(events + [Receive(id, Refusal(code))]);
            && id in s.sessions && id in t.sessions
            && var r, q := s.sessions[id].reply, t.sessions[id].reply;
               && q == r.(hasMore := false, future := if r.future.Unresolved? then Raised(code) else r.future)
               && t.sessions == s.sessions[id := s.sessions[id].(reply := q, registered := id in Handlers(t))]
               && (id in Handlers(t) <==> !r.future.Unresolved?)
  {
    AfterEvent(events, Receive(id, Refusal(code)));
    EndedIsForgotten(events);
  }

  /** The first message must be a header: it fills in the reply and resolves the future, and the request
    * stays if chunks are to follow, or if the future could not be resolved any more. */
  lemma FirstPartIs(events: seq<Event>, id: Bytes, f: Framing.Frame)
    requires Legal(events + [Receive(id, Part(f))]) && id in Handlers(Run(events))
    requires Run(events).sessions[id].reply.status == -1
    ensures var s, t := Run(events), Run(events + [Receive(id, Part(f))]);
            && id in t.sessions
            && var r, q := s.sessions[id].reply, t.sessions[id].reply;
               && t.sessions == s.sessions[id := s.sessions[id].(reply := q, registered := id in Handlers(t))]
               && (f.Chunk? ==> q == r && id in Handlers(t))
               && (f.Header? ==>
                    && q.status == f.status && q.headers == f.headers && q.data == f.body
                    && (q.hasMore <==> f.status == 206)
                    && q.future == (if r.future.Unresolved? then Resolved else r.future)
                    && (id in Handlers(t) <==> f.status == 206 || !r.future.Unresolved?))
  {
    AfterEvent(events, Receive(id, Part(f)));
    EndedIsForgotten(events);
  }

  /** Every later message must be a chunk: while more is expected it is queued behind the others, and the one
    * without successor removes the request.  Any message beyond that only removes the request. */
  lemma LaterPartIs(events: seq<Event>, id: Bytes, f: Framing.Frame)
    requires Legal(events + [Receive(id, Part(f))]) && id in Handlers(Run(events))
    requires Run(events).sessions[id].reply.status != -1
    ensures var s, t := Run(events), Run(events + [Receive(id, Part(f))]);
            && id in t.sessions
            && var r, q := s.sessions[id].reply, t.sessions[id].reply;
               && t.sessions == s.sessions[id := s.sessions[id].(reply := q, registered := id in Handlers(t))]
               && (if !r.hasMore then q == r && id !in Handlers(t)
                   else if f.Header? then q == r && id in Handlers(t)
                   else
                     && q == r.(hasMore := f.more, chunks := r.chunks + [(f.body, f.more)])
                     && (id in Handlers(t) <==> f.more))
  {
    AfterEvent(events, Receive(id, Part(f)));
    EndedIsForgotten(events);
  }

  /** A message for a request that is not known, or not any more, changes no request. */
  lemma UnknownIsIgnored(events: seq<Event>, id: Bytes, p: Packet)
    requires Legal(events + [Receive(id, p)]) && id !in Handlers(Run(events))
    ensures Run(events + [Receive(id, p)]).sessions == Run(events).sessions
  {
    AfterEvent(events, Receive(id, p));
  }

  // ---------------------------------------------------------------- the poll task

  /** A poll task ends exactly when no request is left to wait for; a further one is created exactly when
    * a request is sent while none is polling. */
  lemma PollTasks(events: seq<Event>, e: Event)
    requires Legal(events + [e])
    ensures var s, t := Run(events), Run(events + [e]);
            match e
            case Fetch(_) => t.alive == s.alive && t.polling == s.polling &&
                             t.scheduled == s.scheduled + if s.polling then 0 else 1
            case StartPoll =>
              && t.scheduled == s.scheduled - 1
              && t.polling == (Handlers(t) != {}) && t.alive == s.alive + if Handlers(t) != {} then 1 else 0
            case Receive(_, _) =>
              && t.scheduled == s.scheduled
              && (Handlers(t) != {} ==> t.polling == s.polling && t.alive == s.alive)
              && (Handlers(t) == {} ==> !t.polling && t.alive == s.alive - 1)
            case SocketError =>
              && t.scheduled == s.scheduled && t.sessions == s.sessions
              && (Handlers(t) != {} ==> t.polling == s.polling && t.alive == s.alive)
              && (Handlers(t) == {} ==> !t.polling && t.alive == s.alive - 1)
            case _ => t.alive == s.alive && t.polling == s.polling && t.scheduled == s.scheduled
  {
    AfterEvent(events, e);
  }

  // ---------------------------------------------------------------- the objects

  class ResponseHandler {
    const id: Bytes
    var status: int
    var headers: Framing.Headers
    var data: Bytes
    var hasMore: bool
    var future: Future
    var chunks: seq<(Bytes, bool)>
    ghost var fetched: bool
    ghost var expired: bool
    ghost var abandoned: bool
    ghost var ended: bool
    ghost var taken: Bytes

    constructor (id: Bytes)
      ensures this.id == id && View() == NewReply && !fetched && !expired && !abandoned && !ended && taken == []
    {
      this.id := id;
      status, headers, data, hasMore, future, chunks := -1, map[], [], false, Unresolved, [];
      fetched, expired, abandoned, ended, taken := false, false, false, false, [];
    }

    ghost function View(): Reply
      reads this
    {
      Reply(status, headers, data, hasMore, future, chunks)
    }

    ghost function Seen(registered: bool): Session
      reads this
    {
      Session(View(), registered, fetched, expired, abandoned, ended, taken)
    }

    method SetException(code: Bytes) returns (ok: bool)
      modifies this`hasMore, this`future
      ensures (View(), ok) == Raise(old(View()), code)
    {
      hasMore := false;
      ok := future.Unresolved?;
      if ok {
        future := Raised(code);
      }
    }

    method SetResult(f: Framing.Frame) returns (ok: bool)
      modifies this`status, this`headers, this`data, this`hasMore, this`future, this`chunks
      ensures (View(), ok) == Take(old(View()), f)
    {
      ok := true;
      if status == -1 {
        if f.Chunk? {
          return false;
        }
        headers, data, status := f.headers, f.body, f.status;
        if status == 206 {
          hasMore := true;
          chunks := [];
        }
        ok := future.Unresolved?;
        if ok {
          future := Resolved;
        }
      } else if hasMore {
        if f.Header? {
          return false;
        }
        hasMore := f.more;
        chunks := chunks + [(f.body, f.more)];
      }
    }

    method Accept(packet: Packet) returns (ok: bool)
      modifies this`status, this`headers, this`data, this`hasMore, this`future, this`chunks
      ensures (View(), ok) == OnPacket(old(View()), packet)
    {
      match packet {
        case Part(frame) => ok := SetResult(frame);
        case Refusal(code) => ok := SetException(code);
      }
    }

    /** A message that raises an exception leaves no time for the test. */
    method AcceptAndTest(packet: Packet) returns (done: bool)
      modifies this`status, this`headers, this`data, this`hasMore, this`future, this`chunks
      ensures Seen(!done) == Deliver(old(Seen(true)), packet)
    {
      hide Take, Raise;
      done := Accept(packet);
      if done {
        done := IsDone();
      }
    }

    predicate IsDone()
      reads this
      ensures IsDone() <==> Done(View())
    {
      !hasMore && !future.Unresolved?
    }
  }

  class AsyncClient {
    var handlers: map<Bytes, ResponseHandler>
    var polling: bool
    ghost var issued: map<Bytes, ResponseHandler>
    ghost var scheduled: nat
    ghost var alive: nat

    ghost predicate Valid()
      reads this
    {
      && (forall id :: id in issued ==> issued[id].id == id)
      && (forall id :: id in handlers ==> id in issued && handlers[id] == issued[id])
    }

    ghost function View(): State
      reads this, issued.Values
    {
      State(map id | id in issued :: issued[id].Seen(id in handlers), polling, scheduled, alive)
    }

    constructor ()
      ensures Valid() && View() == Init
    {
      handlers, polling, issued, scheduled, alive := map[], false, map[], 0, 0;
    }

    lemma HandlersAreKeys()
      requires Valid()
      ensures Handlers(View()) == handlers.Keys
    {
    }

    lemma ViewAt(id: Bytes)
      requires id in issued
      ensures id in View().sessions && View().sessions[id] == issued[id].Seen(id in handlers)
    {
    }

    twostate lemma OnlyOneChanged(id: Bytes)
      requires old(Valid()) && Valid() && issued == old(issued) && id in issued
      requires polling == old(polling) && scheduled == old(scheduled) && alive == old(alive)
      requires forall k :: k in issued && k != id ==>
                 issued[k].Seen(k in handlers) == old(issued[k].Seen(k in handlers))
      ensures View() == Put(old(View()), id, issued[id].Seen(id in handlers))
    {
      hide ResponseHandler.Seen;
      var was, now := old(View()), View();
      forall k | k in issued
        ensures now.sessions[k] == if k == id then issued[id].Seen(id in handlers) else was.sessions[k]
      {
        assert now.sessions[k] == issued[k].Seen(k in handlers);
      }
      assert now.sessions == was.sessions[id := issued[id].Seen(id in handlers)];
    }

    twostate lemma OneAdded(id: Bytes, new h: ResponseHandler)
      requires old(Valid()) && id !in old(issued)
      requires issued == old(issued)[id := h] && handlers == old(handlers)[id := h]
      requires polling == old(polling) && scheduled == old(scheduled) && alive == old(alive)
      requires forall k :: k in old(issued) ==> issued[k].Seen(k in handlers) == old(issued[k].Seen(k in handlers))
      ensures View() == Put(old(View()), id, h.Seen(true))
    {
      hide ResponseHandler.Seen;
      var was, now := old(View()), View();
      forall k | k in issued ensures now.sessions[k] == if k == id then h.Seen(true) else was.sessions[k] {
        assert now.sessions[k] == issued[k].Seen(k in handlers);
      }
      assert now.sessions == was.sessions[id := h.Seen(true)];
    }

    method Register(h: ResponseHandler)
      requires Valid() && h.id !in issued && h.Seen(true) == NewSession
      modifies this`handlers, this`issued
      ensures Valid() && issued == old(issued)[h.id := h]
      ensures View() == Put(old(View()), h.id, NewSession)
    {
      handlers := handlers[h.id := h];
      issued := issued[h.id := h];
      OneAdded(h.id, h);
    }

    /** Sending the request and registering its handler; the caller then waits in `Wait`. */
    method Fetch(id: Bytes) returns (h: ResponseHandler)
      requires Valid() && id !in issued
      modifies this
      ensures Valid() && fresh(h) && h.id == id && issued == old(issued)[id := h]
      ensures View() == Apply(old(View()), Event.Fetch(id))
    {
      hide Apply, View;
      ViewKeys(id);
      FetchIs(View(), id);
      h := new ResponseHandler(id);
      Register(h);
      if !polling {
        Schedule();
      }
    }

    /** A poll task is created. */
    ghost method Schedule()
      modifies this`scheduled
      ensures View() == old(View()).(scheduled := old(View()).scheduled + 1)
      ensures Valid() == old(Valid())
    {
      ghost var was := View();
      scheduled := scheduled + 1;
      assert View().sessions == was.sessions;
    }

    lemma ViewKeys(id: Bytes)
      ensures id in View().sessions <==> id in issued
      ensures View().polling == polling
    {
    }

    /** A task that found nothing to wait for leaves the loop. */
    method TestLoop()
      requires Valid() && alive > 0
      modifies this`polling, this`alive
      ensures Valid() && View() == LoopTest(old(View()))
    {
      HandlersAreKeys();
      if handlers.Keys == {} {
        polling := false;
        alive := alive - 1;
      }
    }

    method StartPoll()
      requires Valid() && scheduled > 0
      modifies this`polling, this`alive, this`scheduled
      ensures Valid() && View() == Apply(old(View()), Event.StartPoll)
    {
      ghost var before := View();
      polling := true;
      scheduled, alive := scheduled - 1, alive + 1;
      assert View().sessions == before.sessions;
      TestLoop();
    }

    lemma NotRegistered(id: Bytes, packet: Packet)
      requires Valid() && id !in handlers
      ensures Update(View(), Event.Receive(id, packet)) == View()
    {
      if id in issued {
        ViewAt(id);
        UpdateIs(View(), Event.Receive(id, packet));
        assert Put(View(), id, View().sessions[id]) == View();
      }
    }

    method Dispatch(id: Bytes, packet: Packet)
      requires Valid()
      modifies this`handlers, handlers.Values
      ensures Valid() && View() == Update(old(View()), Event.Receive(id, packet))
    {
      hide Update, View, Take, Raise;
      if id in handlers {
        var h := handlers[id];
        ghost var was := h.Seen(true);
        ViewAt(id);
        UpdateIs(View(), Event.Receive(id, packet));
        var done := h.AcceptAndTest(packet);
        if done {
          handlers := handlers - {id};
        }
        OnlyOneChanged(id);
      } else {
        NotRegistered(id, packet);
      }
    }

    /** The body of the poll loop for one message. */
    method Receive(id: Bytes, packet: Packet)
      requires Valid() && alive > 0
      modifies this`handlers, this`polling, this`alive, handlers.Values
      ensures Valid() && View() == Apply(old(View()), Event.Receive(id, packet))
    {
      Dispatch(id, packet);
      TestLoop();
    }

    method Forget(id: Bytes)
      requires Valid()
      modifies this`handlers
      ensures Valid() && handlers == old(handlers) - {id}
    {
      handlers := handlers - {id};
    }

    /** `fetch` resumed by the settled future. */
    method Wait(h: ResponseHandler) returns (failure: Option<Bytes>)
      requires Valid() && h.id in issued && issued[h.id] == h
      requires LocallyEnabled(Some(h.Seen(h.id in handlers)), Event.Return(h.id))
      modifies this`handlers, h`fetched, h`ended, h`taken
      ensures Valid() && View() == Apply(old(View()), Event.Return(h.id))
      ensures failure.None? <==> h.future.Resolved?
    {
      hide Apply, Update, Deliver, Pull, View;
      ViewAt(h.id);
      UpdateIs(View(), Event.Return(h.id));
      if h.future.Resolved? {
        failure := None;
        h.fetched, h.ended, h.taken := true, h.status != 206, h.data;
      } else {
        failure := Some(h.future.code);
        h.ended := true;
        Forget(h.id);
      }
      OnlyOneChanged(h.id);
    }

    /** The timeout of `fetch` cancels the future that it waits for. */
    method WaitTimedOut(h: ResponseHandler)
      requires Valid() && h.id in issued && issued[h.id] == h
      requires LocallyEnabled(Some(h.Seen(h.id in handlers)), Event.TimeOut(h.id))
      modifies h`future, h`expired
      ensures Valid() && View() == Apply(old(View()), Event.TimeOut(h.id))
    {
      hide Apply, Update, Deliver, Pull, Wake, View;
      ViewAt(h.id);
      UpdateIs(View(), Event.TimeOut(h.id));
      if h.future.Unresolved? {
        h.future := Cancelled;
      }
      h.expired := true;
      OnlyOneChanged(h.id);
    }

    /** The consumer is cancelled inside `fetch`, or leaves `fetch_more` at a chunk: neither catches that, so
      * the handler stays where it is. */
    method Abandon(h: ResponseHandler)
      requires Valid() && h.id in issued && issued[h.id] == h
      requires LocallyEnabled(Some(h.Seen(h.id in handlers)), Event.Abandon(h.id))
      modifies h`future, h`abandoned, h`ended
      ensures Valid() && View() == Apply(old(View()), Event.Abandon(h.id))
    {
      hide Apply, Update, Deliver, Pull, Wake, View;
      ViewAt(h.id);
      UpdateIs(View(), Event.Abandon(h.id));
      if h.future.Unresolved? {
        h.future := Cancelled;
      }
      h.abandoned := true;
      h.ended := true;
      OnlyOneChanged(h.id);
    }

    /** `fetch` or `fetch_more` resumed by its timeout: it forgets the request and raises. */
    method GiveUp(h: ResponseHandler)
      requires Valid() && h.id in issued && issued[h.id] == h
      requires LocallyEnabled(Some(h.Seen(h.id in handlers)), Event.GiveUp(h.id))
      modifies this`handlers, h`hasMore, h`ended
      ensures Valid() && View() == Apply(old(View()), Event.GiveUp(h.id))
    {
      hide Apply, Update, Deliver, Pull, Wake, View;
      ViewAt(h.id);
      UpdateIs(View(), Event.GiveUp(h.id));
      h.hasMore := false;
      h.ended := true;
      Forget(h.id);
      OnlyOneChanged(h.id);
    }

    /** `fetch_more` resumed by a queued chunk: yields it, or stops. */
    method FetchMore(h: ResponseHandler) returns (chunk: Option<Bytes>)
      requires Valid() && h.id in issued && issued[h.id] == h
      requires LocallyEnabled(Some(h.Seen(h.id in handlers)), Event.Next(h.id))
      modifies h`chunks, h`ended, h`taken
      ensures Valid() && View() == Apply(old(View()), Event.Next(h.id))
      ensures chunk.Some? ==> h.taken == old(h.taken) + chunk.value
      ensures chunk.None? <==> h.ended
    {
      hide Apply, Update, Deliver, Wake, View;
      ViewAt(h.id);
      UpdateIs(View(), Event.Next(h.id));
      var (body, more) := h.chunks[0];
      h.chunks := h.chunks[1..];
      if more {
        chunk := Some(body);
        h.taken := h.taken + body;
      } else {
        chunk := None;
        h.ended := true;
      }
      OnlyOneChanged(h.id);
    }

    /** The timeout of `fetch_more` cancels its wait for a chunk. */
    method FetchMoreTimedOut(h: ResponseHandler)
      requires Valid() && h.id in issued && issued[h.id] == h
      requires LocallyEnabled(Some(h.Seen(h.id in handlers)), Event.TimeOutNext(h.id))
      modifies h`expired
      ensures Valid() && View() == Apply(old(View()), Event.TimeOutNext(h.id))
    {
      hide Apply, Update, Deliver, Pull, Wake, View;
      ViewAt(h.id);
      UpdateIs(View(), Event.TimeOutNext(h.id));
      h.expired := true;
      OnlyOneChanged(h.id);
    }
  }
}
