/** The two ends of the protocol together: what a worker frames, carried to the client in any
  * interleaving with other replies, is what the consumer of the request reads. */
module EndToEnd {
  import opened Wire
  import opened Framing
  import opened Client

  function Arrived(events: seq<Event>): seq<Packet> {
    if events == [] then []
    else
      var e := events[|events| - 1];
      Arrived(events[..|events| - 1]) + if e.Receive? then [e.packet] else []
  }

  /** The steps of the consumer itself: one for what `fetch` hands over, one for each chunk. */
  function Steps(events: seq<Event>): nat {
    if events == [] then 0
    else
      var e := events[|events| - 1];
      Steps(events[..|events| - 1]) + if e.Return? || e.Next? then 1 else 0
  }

  /** How many steps the consumer can still take on what has arrived. */
  function Remaining(s: Session): nat {
    (if s.fetched then 0 else 1) + |s.reply.chunks|
  }

  predicate Patient(events: seq<Event>) {
    forall e :: e in events ==> !e.TimeOut? && !e.TimeOutNext? && !e.Abandon?
  }

  /** The life of one request whose reply is `out`: it is sent first, and the messages that arrived are
    * the first ones of the reply, in order. */
  ghost predicate Follows(events: seq<Event>, out: seq<Frame>) {
    && LocallyLegal(events)
    && events != [] && events[0].Fetch?
    && |Arrived(events)| <= |out|
    && forall i :: 0 <= i < |Arrived(events)| ==> Arrived(events)[i] == Part(out[i])
  }

  /** The same, with a consumer that waits long enough and reads on. */
  ghost predicate Carries(events: seq<Event>, out: seq<Frame>) {
    Follows(events, out) && Patient(events)
  }

  /** The session after `k` messages of `out`: the consumer is `j` messages in and the queue holds the
    * messages between. */
  ghost predicate InStep(s: Session, out: seq<Frame>, k: nat)
    requires k <= |out|
  {
    var j := k - |s.reply.chunks|;
    && (k == 0 ==> s == NewSession)
    && (k > 0 ==>
      && s.reply.future.Resolved?
      && out[0].Header?
      && Announces(s.reply, out[0]) && s.reply.data == out[0].body
      && s.reply.hasMore == s.registered == !Closed(out[..k])
      && !s.expired
      && 1 <= j
      && (forall i :: 0 <= i < |s.reply.chunks| ==>
            s.reply.chunks[i] == (out[j + i].body, Continues(out[j + i])))
      && (if s.fetched then s.taken == Payload(out[..j]) && s.ended == Closed(out[..j])
          else j == 1 && s.taken == [] && !s.ended))
  }

  /** The consumer sees the status and the headers of the header message. */
  predicate Announces(r: Client.Reply, f: Frame) {
    f.Header? && r.status == f.status && r.headers == f.headers
  }

  predicate Continues(f: Frame) {
    f.Chunk? && f.more
  }

  lemma ClosedPrefixIsAll(out: seq<Frame>, k: nat)
    requires WellFramed(out) && 0 < k <= |out| && Closed(out[..k])
    ensures k == |out|
  {
    assert out[..k][k - 1] == out[k - 1];
  }

  lemma PayloadNext(out: seq<Frame>, j: nat)
    requires j < |out|
    ensures Payload(out[..j + 1]) == Payload(out[..j]) + out[j].body
  {
    assert out[..j + 1] == out[..j] + [out[j]];
    PayloadSnoc(out[..j], out[j]);
  }

  lemma FirstMessage(out: seq<Frame>)
    requires WellFramed(out) && out != []
    ensures InStep(Deliver(NewSession, Part(out[0])), out, 1)
  {
    assert out[..1] == [out[0]];
  }

  lemma NextMessage(s: Session, out: seq<Frame>, k: nat)
    requires WellFramed(out) && 0 < k < |out| && InStep(s, out, k)
    ensures InStep(Deliver(s, Part(out[k])), out, k + 1)
  {
    if Closed(out[..k]) {
      ClosedPrefixIsAll(out, k);
    }
    assert out[..k + 1][0] == out[0] && out[..k + 1][k] == out[k];
    var t := Deliver(s, Part(out[k]));
    assert t.reply.chunks == s.reply.chunks + [(out[k].body, out[k].more)];
    assert t == s.(reply := t.reply, registered := t.registered);
  }

  lemma WokenInStep(s: Session, out: seq<Frame>, k: nat)
    requires WellFramed(out) && 0 < k <= |out| && InStep(s, out, k) && !s.fetched
    ensures InStep(Wake(s), out, k)
  {
    assert out[..1] == [out[0]];
    PayloadSingle(out[0]);
  }

  lemma PulledInStep(s: Session, out: seq<Frame>, k: nat)
    requires WellFramed(out) && 0 < k <= |out| && InStep(s, out, k)
    requires s.fetched && !s.ended && s.reply.chunks != []
    ensures InStep(Pull(s), out, k)
  {
    var j := k - |s.reply.chunks|;
    PayloadNext(out, j);
    assert out[..j + 1][0] == out[0] && out[..j + 1][j] == out[j];
    assert s.reply.chunks[0] == (out[j].body, out[j].more);
  }

  lemma StaysInStep(s: Session, out: seq<Frame>, k: nat, e: Event)
    requires WellFramed(out) && k <= |out| && InStep(s, out, k)
    requires LocallyEnabled(Some(s), e) && !e.TimeOut? && !e.TimeOutNext? && !e.Abandon?
    requires e.Receive? ==> k < |out| && e.packet == Part(out[k])
    ensures !e.Fetch?
    ensures InStep(Proceed(s, e), out, if e.Receive? then k + 1 else k)
  {
    if e.Receive? {
      if k == 0 {
        FirstMessage(out);
      } else {
        NextMessage(s, out, k);
      }
    } else if e.Return? {
      WokenInStep(s, out, k);
    } else if e.Next? {
      PulledInStep(s, out, k);
    }
  }

  lemma FollowsBefore(events: seq<Event>, out: seq<Frame>)
    requires Follows(events, out) && |events| > 1
    ensures var before, e := events[..|events| - 1], events[|events| - 1];
            && Follows(before, out)
            && (e.Receive? ==>
                 |Arrived(before)| < |out| && e.packet == Part(out[|Arrived(before)|]))
  {
    var before, e := events[..|events| - 1], events[|events| - 1];
    assert forall i :: 0 <= i < |Arrived(before)| ==> Arrived(events)[i] == Arrived(before)[i];
    if e.Receive? {
      assert Arrived(events)[|Arrived(before)|] == e.packet;
    }
  }

  lemma CarriesBefore(events: seq<Event>, out: seq<Frame>)
    requires Carries(events, out) && |events| > 1
    ensures var before, e := events[..|events| - 1], events[|events| - 1];
            && Carries(before, out)
            && (e.Receive? ==>
                 |Arrived(before)| < |out| && e.packet == Part(out[|Arrived(before)|]))
            && !e.TimeOut? && !e.TimeOutNext? && !e.Abandon?
  {
    FollowsBefore(events, out);
    assert events[|events| - 1] in events;
  }

  lemma StartsInStep(out: seq<Frame>)
    ensures InStep(NewSession, out, 0)
  {
  }

  lemma {:induction false} AlwaysInStep(events: seq<Event>, out: seq<Frame>)
    requires WellFramed(out) && Carries(events, out)
    ensures LocalRun(events).Some?
    ensures InStep(LocalRun(events).value, out, |Arrived(events)|)
  {
    hide InStep, LocallyEnabled, Proceed;
    var before, e := events[..|events| - 1], events[|events| - 1];
    if before == [] {
      assert LocalRun(events) == Some(NewSession);
      StartsInStep(out);
    } else {
      CarriesBefore(events, out);
      AlwaysInStep(before, out);
      StaysInStep(LocalRun(before).value, out, |Arrived(before)|, e);
    }
  }

  /** Each message that has arrived is one step that the consumer has taken or can still take. */
  lemma {:induction false} StepsCounted(events: seq<Event>, out: seq<Frame>)
    requires WellFramed(out) && Carries(events, out)
    ensures LocalRun(events).Some?
    ensures |Arrived(events)| == 0 ==> Steps(events) == 0
    ensures |Arrived(events)| > 0 ==> Steps(events) + Remaining(LocalRun(events).value) == |Arrived(events)|
  {
    hide InStep;
    var before, e := events[..|events| - 1], events[|events| - 1];
    if before == [] {
      assert LocalRun(events) == Some(NewSession);
    } else {
      CarriesBefore(events, out);
      StepsCounted(before, out);
      AlwaysInStep(before, out);
      StepsCountedNext(LocalRun(before).value, out, |Arrived(before)|, e);
    }
  }

  lemma StepsCountedNext(s: Session, out: seq<Frame>, k: nat, e: Event)
    requires WellFramed(out) && k <= |out| && InStep(s, out, k)
    requires LocallyEnabled(Some(s), e) && !e.TimeOut? && !e.TimeOutNext? && !e.Abandon?
    requires e.Receive? ==> k < |out| && e.packet == Part(out[k])
    ensures e.Return? || e.Next? ==> k > 0 && Remaining(Proceed(s, e)) == Remaining(s) - 1
    ensures e.Receive? ==> Remaining(Proceed(s, e)) == if k == 0 then 1 else Remaining(s) + 1
    ensures !e.Receive? && !e.Return? && !e.Next? ==> Remaining(Proceed(s, e)) == Remaining(s)
  {
    if e.Receive? && k > 0 && Closed(out[..k]) {
      ClosedPrefixIsAll(out, k);
    }
  }

  /** What a consumer can rely on, for one request inside any run of the client: it only ever holds a
    * prefix of the reply's bytes, and it has stopped, with every byte, exactly when it has taken one
    * step for each message of a closed reply.  Once the whole reply has arrived, its handler is gone
    * exactly if the reply is closed, what the consumer can still take are exactly the steps that it
    * lacks, and one of them is enabled until it has stopped. */
  lemma Delivery(events: seq<Event>, id: Bytes, out: seq<Frame>)
    requires Client.Legal(events)
    requires WellFramed(out) && Carries(Project(events, id), out)
    ensures var s := Client.Run(events);
            && id in s.sessions
            && var session, steps := s.sessions[id], Steps(Project(events, id));
               && session.taken <= Payload(out)
               && (session.ended ==> session.taken == Payload(out))
               && (session.fetched ==> |Arrived(Project(events, id))| > 0)
               && (|Arrived(Project(events, id))| > 0 ==> Announces(session.reply, out[0]))
               && steps <= |out|
               && (session.ended <==> Closed(out) && steps == |out|)
               && (|Arrived(Project(events, id))| == |out| > 0 ==>
                    && (id in Handlers(s) <==> !Closed(out))
                    && steps + Remaining(session) == |out|
                    && (Closed(out) ==>
                         session.ended || Client.Enabled(s, Return(id)) || Client.Enabled(s, Next(id))))
  {
    hide Carries, Arrived, Closed, Payload, WellFramed, LocalRun, Steps, Remaining;
    Demultiplexed(events, id);
    DeliveryLocally(Project(events, id), out);
    assert Local(Client.Run(events), id) == LocalRun(Project(events, id));
  }

  lemma DeliveryLocally(mine: seq<Event>, out: seq<Frame>)
    requires WellFramed(out) && Carries(mine, out)
    ensures LocalRun(mine).Some?
    ensures var session, steps := LocalRun(mine).value, Steps(mine);
            && session.taken <= Payload(out)
            && (session.ended ==> session.taken == Payload(out))
            && (session.fetched ==> |Arrived(mine)| > 0)
            && (|Arrived(mine)| > 0 ==> Announces(session.reply, out[0]))
            && steps <= |out|
            && (session.ended <==> Closed(out) && steps == |out|)
            && (|Arrived(mine)| == |out| > 0 ==>
                 && (session.registered <==> !Closed(out))
                 && steps + Remaining(session) == |out|
                 && (Closed(out) ==>
                      session.ended || LocallyEnabled(Some(session), Return([])) ||
                      LocallyEnabled(Some(session), Next([]))))
  {
    hide InStep, LocallyEnabled, Closed, Payload, WellFramed, LocalRun, Steps, Remaining, Patient;
    AlwaysInStep(mine, out);
    StepsCounted(mine, out);
    InStepMeans(LocalRun(mine).value, out, |Arrived(mine)|);
    StoppedIff(LocalRun(mine).value, out, |Arrived(mine)|, Steps(mine));
  }

  lemma StoppedIff(s: Session, out: seq<Frame>, k: nat, steps: nat)
    requires WellFramed(out) && k <= |out| && InStep(s, out, k)
    requires if k == 0 then steps == 0 else steps + Remaining(s) == k
    ensures steps <= |out|
    ensures s.ended <==> Closed(out) && steps == |out|
  {
    if k > 0 {
      var j := k - |s.reply.chunks|;
      if s.ended {
        ClosedPrefixIsAll(out, j);
      }
      assert out[..|out|] == out;
    }
  }

  lemma InStepMeans(s: Session, out: seq<Frame>, k: nat)
    requires WellFramed(out) && k <= |out| && InStep(s, out, k)
    ensures s.taken <= Payload(out)
    ensures s.ended ==> s.taken == Payload(out) && Closed(out)
    ensures s.fetched ==> k > 0
    ensures k > 0 ==> Announces(s.reply, out[0])
    ensures k == |out| > 0 ==>
              && (s.registered <==> !Closed(out))
              && (Closed(out) ==>
                   s.ended || LocallyEnabled(Some(s), Return([])) || LocallyEnabled(Some(s), Next([])))
  {
    if k > 0 {
      var j := k - |s.reply.chunks|;
      PayloadPrefix(out, j);
      if s.ended {
        ClosedPrefixIsAll(out, j);
      }
      assert out[..|out|] == out;
    }
  }

  lemma {:induction false} PayloadPrefix(out: seq<Frame>, j: nat)
    requires j <= |out|
    ensures Payload(out[..j]) <= Payload(out)
    decreases |out| - j
  {
    if j == |out| {
      assert out[..j] == out;
    } else {
      PayloadNext(out, j);
      PayloadPrefix(out, j + 1);
    }
  }

  // ---------------------------------------------------------------- which requests are kept

  /** While the poll task knows the request: what it knows of the reply after `k` messages. */
  ghost predicate KnownSoFar(r: Reply, out: seq<Frame>, k: nat)
    requires k <= |out|
  {
    if k == 0 then r.status == -1 && !r.hasMore && (r.future.Unresolved? || r.future.Cancelled?)
    else
      && out[0].Header? && r.status == out[0].status
      && (r.future.Resolved? || r.future.Cancelled?)
      && r.hasMore == !Closed(out[..k])
  }

  /** The handler stays until the reply is closed; after a cancelled wait a reply that is closed by its
    * header does not remove it, since the header then raises. */
  ghost predicate Keeps(r: Reply, out: seq<Frame>, k: nat)
    requires k <= |out|
  {
    k == 0 || !Closed(out[..k]) || (r.future.Cancelled? && out[0].Header? && out[0].status != 206)
  }

  ghost predicate Kept(s: Session, out: seq<Frame>, k: nat)
    requires k <= |out|
  {
    && (s.registered <==> (s.ended ==> s.abandoned) && Keeps(s.reply, out, k))
    && (!s.ended || s.abandoned ==> KnownSoFar(s.reply, out, k))
    && (s.fetched && !s.ended ==> s.reply.future.Resolved? && k > 0 && out[0].status == 206)
    && (s.abandoned ==> s.ended)
  }

  lemma KeptOnReceive(s: Session, out: seq<Frame>, k: nat)
    requires WellFramed(out) && k < |out| && Kept(s, out, k)
    ensures Kept(Deliver(s, Part(out[k])), out, k + 1)
  {
    assert out[..k + 1][k] == out[k] && out[..k + 1][0] == out[0];
    if k > 0 {
      assert out[..k][k - 1] == out[k - 1];
      if Closed(out[..k]) {
        ClosedPrefixIsAll(out, k);
      }
    }
  }

  lemma KeptOnOwnStep(s: Session, out: seq<Frame>, k: nat, e: Event)
    requires WellFramed(out) && k <= |out| && Kept(s, out, k) && Tidy(s)
    requires LocallyEnabled(Some(s), e) && !e.Receive?
    ensures Kept(Proceed(s, e), out, k)
  {
    if e.Return? && k > 0 && out[0].status != 206 {
      assert out[..k][0] == out[0];
    }
  }

  lemma KeptAtStart(out: seq<Frame>)
    ensures Kept(NewSession, out, 0) && Tidy(NewSession)
  {
  }

  lemma {:induction false} AlwaysKept(events: seq<Event>, out: seq<Frame>)
    requires WellFramed(out) && Follows(events, out)
    ensures LocalRun(events).Some? && Tidy(LocalRun(events).value)
    ensures Kept(LocalRun(events).value, out, |Arrived(events)|)
  {
    hide Kept, Tidy, Proceed;
    var before, e := events[..|events| - 1], events[|events| - 1];
    if before == [] {
      assert LocalRun(events) == Some(NewSession);
      KeptAtStart(out);
    } else {
      FollowsBefore(events, out);
      AlwaysKept(before, out);
      TidyStep(LocalRun(before), e);
      var s, k := LocalRun(before).value, |Arrived(before)|;
      if e.Receive? {
        KeptOnReceive(s, out, k);
        ProceedsByDelivery(s, e);
      } else {
        KeptOnOwnStep(s, out, k, e);
      }
    }
  }

  lemma ProceedsByDelivery(s: Session, e: Event)
    requires e.Receive?
    ensures Proceed(s, e) == Deliver(s, e.packet)
  {
  }

  /** Exactly when a request is kept, whatever times out and whoever is cancelled or stops reading: while
    * its reply is not closed, and for good if a cancelled wait meets a reply of one message; but never
    * once its consumer has stopped, raised or given up by itself. */
  lemma KeptIff(events: seq<Event>, id: Bytes, out: seq<Frame>)
    requires Client.Legal(events)
    requires WellFramed(out) && Follows(Project(events, id), out)
    ensures var s, k := Client.Run(events), |Arrived(Project(events, id))|;
            && id in s.sessions
            && (id in Handlers(s) <==>
                 && (s.sessions[id].ended ==> s.sessions[id].abandoned)
                 && (|| k == 0 || !Closed(out[..k])
                     || (s.sessions[id].reply.future.Cancelled? && out[0].Header? && out[0].status != 206)))
  {
    hide Tidy;
    Demultiplexed(events, id);
    AlwaysKept(Project(events, id), out);
    assert Local(Client.Run(events), id) == LocalRun(Project(events, id));
  }

  ghost predicate RefusedOnce(events: seq<Event>, code: Bytes) {
    LocallyLegal(events) && events != [] && events[0].Fetch? && Arrived(events) <= [Refusal(code)]
  }

  predicate KeptRefused(s: Session, arrived: bool) {
    && s.reply.status == -1 && !s.reply.hasMore && s.reply.chunks == [] && !s.fetched
    && (s.abandoned ==> s.ended)
    && (s.expired || s.ended ==> !s.reply.future.Unresolved?)
    && (s.reply.future.Cancelled? || if arrived then s.reply.future.Raised? else s.reply.future.Unresolved?)
    && (s.registered <==> (s.ended ==> s.abandoned) && (!arrived || s.reply.future.Cancelled?))
  }

  lemma NewIsKept()
    ensures KeptRefused(NewSession, false)
  {
  }

  lemma KeptRefusedStep(s: Session, arrived: bool, e: Event, code: Bytes)
    requires KeptRefused(s, arrived) && LocallyEnabled(Some(s), e)
    requires e.Receive? ==> !arrived && e.packet == Refusal(code)
    ensures KeptRefused(Proceed(s, e), arrived || e.Receive?)
  {
  }

  lemma {:induction false} AlwaysKeptRefused(events: seq<Event>, code: Bytes)
    requires RefusedOnce(events, code)
    ensures LocalRun(events).Some? && KeptRefused(LocalRun(events).value, Arrived(events) != [])
  {
    hide KeptRefused, Proceed;
    var before, e := events[..|events| - 1], events[|events| - 1];
    if before == [] {
      assert LocalRun(events) == Some(NewSession);
      assert KeptRefused(NewSession, false) by {
        NewIsKept();
      }
    } else {
      assert Arrived(events) == Arrived(before) + if e.Receive? then [e.packet] else [];
      assert e.Receive? ==> Arrived(events)[|Arrived(before)|] == e.packet;
      AlwaysKeptRefused(before, code);
      KeptRefusedStep(LocalRun(before).value, Arrived(before) != [], e, code);
    }
  }

  /** A refused request is kept for good if its wait was cancelled before the refusal came, and is
    * forgotten otherwise. */
  lemma KeptRefusedIff(events: seq<Event>, id: Bytes, code: Bytes)
    requires Client.Legal(events) && RefusedOnce(Project(events, id), code)
    ensures var s, arrived := Client.Run(events), Arrived(Project(events, id)) != [];
            && id in s.sessions
            && (id in Handlers(s) <==>
                 && (s.sessions[id].ended ==> s.sessions[id].abandoned)
                 && (!arrived || s.sessions[id].reply.future.Cancelled?))
  {
    Demultiplexed(events, id);
    AlwaysKeptRefused(Project(events, id), code);
    assert Local(Client.Run(events), id) == LocalRun(Project(events, id));
  }

  /** The HTTP client disconnects in the middle of a streamed answer: the request is kept. */
  lemma AbandonedIsKept(id: Bytes, headers: Headers, data: Bytes)
    ensures var events :=
              [Fetch(id), StartPoll, Receive(id, Part(Header(206, headers, data))), Return(id), Abandon(id)];
            var s := Client.Run(events);
            Client.Legal(events) && id in Handlers(s) && s.sessions[id].ended
  {
    var e2 := Polled(id);
    var e3 := e2 + [Receive(id, Part(Header(206, headers, data)))];
    var e4 := e3 + [Return(id)];
    var x := NewSession.(reply := Reply(206, headers, data, true, Resolved, []));
    var y := x.(fetched := true, taken := data);
    OneStep(e2, id, NewSession, e3[2], x);
    OneStep(e3, id, x, Return(id), y);
    OneStep(e4, id, y, Abandon(id), y.(abandoned := true, ended := true));
    assert e4 + [Abandon(id)] ==
           [Fetch(id), StartPoll, Receive(id, Part(Header(206, headers, data))), Return(id), Abandon(id)];
  }

  /** A wait is cancelled and the whole answer arrives after that: the request is kept, and no message is
    * left that could remove it. */
  lemma CancelledIsKept(id: Bytes, headers: Headers, data: Bytes)
    ensures var out := [Header(200, headers, data)];
            var events := [Fetch(id), StartPoll, Abandon(id), Receive(id, Part(out[0]))];
            var s := Client.Run(events);
            Client.Legal(events) && WellFramed(out) && Closed(out) && id in Handlers(s) && s.sessions[id].ended
  {
    var e2 := Polled(id);
    var e3 := e2 + [Abandon(id)];
    var x := NewSession.(reply := NewReply.(future := Cancelled), abandoned := true, ended := true);
    OneStep(e2, id, NewSession, Abandon(id), x);
    OneStep(e3, id, x, Receive(id, Part(Header(200, headers, data))),
            x.(reply := Reply(200, headers, data, false, Cancelled, [])));
    assert e3 + [Receive(id, Part(Header(200, headers, data)))] ==
           [Fetch(id), StartPoll, Abandon(id), Receive(id, Part(Header(200, headers, data)))];
  }

  predicate At(events: seq<Event>, id: Bytes, x: Session) {
    Client.Legal(events) && Client.Run(events) == Client.State.State(map[id := x], true, 0, 1)
  }

  function Polled(id: Bytes): (events: seq<Event>)
    ensures At(events, id, NewSession)
  {
    var e1 := [Fetch(id)];
    var e2 := [Fetch(id), StartPoll];
    assert e2[..1] == e1 && e1[..0] == [];
    assert Client.Run(e1) == Client.State.State(map[id := NewSession], false, 1, 0);
    assert id in Handlers(Client.State.State(map[id := NewSession], true, 0, 1));
    assert Client.Run(e2) == Client.Apply(Client.Run(e1), StartPoll);
    assert Client.Legal(e1) && Client.Legal(e2);
    e2
  }

  lemma OneStep(events: seq<Event>, id: Bytes, x: Session, e: Event, y: Session)
    requires At(events, id, x) && Concerns(e, id) && !e.Fetch?
    requires LocallyEnabled(Some(x), e) && Proceed(x, e) == y && y.registered
    ensures At(events + [e], id, y) && id in Handlers(Client.Run(events + [e]))
  {
    hide Proceed, LocallyEnabled;
    assert (events + [e])[..|events|] == events;
    var s := Client.Run(events);
    assert Update(s, e).sessions == map[id := y];
    assert id in Handlers(Update(s, e));
  }

  /** The protocol's promise.  A request is answered by any writes, flushes and header changes, then a
    * finish, with any calls after it.  Whatever other requests do meanwhile, the consumer stops on its
    * step for the last message, neither earlier nor later, with exactly the bytes written and the
    * status and headers that the calls told; and when the reply has arrived it is never kept from that
    * step. */
  lemma StreamingRoundTrip(events: seq<Event>, id: Bytes, calls: seq<Call>, later: seq<Call>)
    requires Client.Legal(events) && Streams(calls)
    requires Carries(Project(events, id), Framing.Run(Fresh, calls + [Finish] + later).out)
    ensures var s, out := Client.Run(events), Framing.Run(Fresh, calls + [Finish] + later).out;
            && id in s.sessions
            && s.sessions[id].taken <= Written(calls)
            && Steps(Project(events, id)) <= |out|
            && (s.sessions[id].ended <==> Steps(Project(events, id)) == |out|)
            && (s.sessions[id].ended ==> s.sessions[id].taken == Written(calls))
            && (s.sessions[id].fetched ==>
                 var told := Told(calls + [Finish] + later);
                 told != [] && Announces(s.sessions[id].reply, told[0]))
            && (|Arrived(Project(events, id))| == |out| ==>
                 && id !in Handlers(s)
                 && Steps(Project(events, id)) + Remaining(s.sessions[id]) == |out|
                 && (s.sessions[id].ended || Client.Enabled(s, Return(id)) || Client.Enabled(s, Next(id))))
  {
    StreamIsLossless(calls, later);
    ReplyExact(calls + [Finish] + later);
    Delivery(events, id, Framing.Run(Fresh, calls + [Finish] + later).out);
  }

  /** The same for every call sequence at all, whatever status it sets.  In the one case where `finish`
    * does not close the answer, and only then, a handler is left behind and the consumer, however
    * many steps it takes, does not stop. */
  lemma AnyAnswerRoundTrip(events: seq<Event>, id: Bytes, calls: seq<Call>)
    requires Client.Legal(events)
    requires Carries(Project(events, id), Framing.Run(Fresh, calls + [Finish]).out)
    requires |Arrived(Project(events, id))| == |Framing.Run(Fresh, calls + [Finish]).out|
    ensures var s, r := Client.Run(events), Framing.Run(Fresh, calls);
            var out, steps := Framing.Run(Fresh, calls + [Finish]).out, Steps(Project(events, id));
            var open := !r.written && r.status == 206;
            && id in s.sessions
            && (id in Handlers(s) <==> open)
            && steps + Remaining(s.sessions[id]) == |out|
            && (s.sessions[id].ended <==> !open && steps == |out|)
            && (s.sessions[id].ended ==> s.sessions[id].taken == Owed(calls + [Finish], 200, []))
            && Told(calls + [Finish]) != [] && Announces(s.sessions[id].reply, Told(calls + [Finish])[0])
            && (!open ==> s.sessions[id].ended || Client.Enabled(s, Return(id)) || Client.Enabled(s, Next(id)))
  {
    FinishedReply(calls);
    ReplyExact(calls + [Finish]);
    Delivery(events, id, Framing.Run(Fresh, calls + [Finish]).out);
  }
}
