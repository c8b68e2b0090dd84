/** The promises of the event-stream service over whole runs. */
module FcgiProperties {
  import opened Wrappers
  import opened FcgiState
  import opened EventWriter
  import opened FcgiRuns
  import opened EventText

  // ----- memory -----

  lemma IssuedLater(s: State, steps: seq<Step>)
    requires Consistent(s)
    ensures forall r :: r in IssuedBy(s, steps) ==> r >= s.next
    decreases |steps|
  {
    hide Consistent, Next;
    if steps != [] {
      NextKeeps(s, steps[0]);
      NextMovesOn(s, steps[0]);
      IssuedLater(Next(s, steps[0]), steps[1..]);
    }
  }

  lemma OpenMovesOn(s: State, inc: Incoming)
    requires Consistent(s) && OpensStream(inc)
    ensures Handled(s, inc).next > s.next
  {
    hide Consistent, Without, Handled, Opened;
    HandledOpen(s, inc);
    OpenedIs(TakenIn(s, NewRequest(inc)), s.next, inc.probeOk);
  }

  lemma NotifyMovesOn(s: State, u: Address, data: string, writeOk: bool)
    requires Consistent(s) && u in s.subs
    ensures Notified(s, u, data, writeOk).next == s.next
  {
    hide Without, Write, NoDuplicates;
  }

  lemma NextMovesOn(s: State, step: Step)
    requires Consistent(s)
    ensures Next(s, step).next >= s.next && (step.Handle? ==> Next(s, step).next > s.next)
  {
    hide Consistent, Handled, Notified;
    if step.Handle? {
      if OpensStream(step.inc) {
        OpenMovesOn(s, step.inc);
      } else {
        HandledShort(s, step.inc);
      }
    } else if step.Notify? && step.sub in s.subs {
      NotifyMovesOn(s, step.sub, step.data, step.writeOk);
    } else if step.Tick? {
      TablesReachable(s);
    }
  }

  /** Over any run: what is alive or was freed at the end is what was at the start plus exactly the
      requests that came in, each once. */
  lemma {:induction false} RunConserves(s: State, steps: seq<Step>)
    requires Consistent(s)
    ensures Accounted(After(s, steps)) == Accounted(s) + multiset(IssuedBy(s, steps))
    decreases |steps|
  {
    hide Consistent, Next, Accounted;
    var none: set<Address> := {};
    assert multiset(none) == multiset{};
    if steps == [] {
      assert Accounted(s) + multiset{} == Accounted(s);
    } else {
      var t := Next(s, steps[0]);
      NextKeeps(s, steps[0]);
      NextConserves(s, steps[0]);
      NextMovesOn(s, steps[0]);
      IssuedLater(t, steps[1..]);
      RunConserves(t, steps[1..]);
      assert Issued(s, steps[0]) !! IssuedBy(t, steps[1..]);
      assert multiset(Issued(s, steps[0]) + IssuedBy(t, steps[1..])) ==
             multiset(Issued(s, steps[0])) + multiset(IssuedBy(t, steps[1..]));
    }
  }

  /** When the service stops, each request that ever came in has been freed exactly once. */
  lemma EveryRequestFreedOnce(steps: seq<Step>)
    ensures Consistent(EMPTY) &&
            Stopped(After(EMPTY, steps)).freed == multiset(IssuedBy(EMPTY, steps))
  {
    hide Consistent, Stopped, Next;
    StartIsConsistent();
    RunConserves(EMPTY, steps);
    StoppedKeeps(After(EMPTY, steps));
    assert Accounted(EMPTY) == multiset{};
  }

  /** A request that does not open a stream, or fails early, is gone when its handler returns; an
      open-stream request is alive then. */
  lemma ShortLived(s: State, inc: Incoming)
    requires Consistent(s)
    ensures var t := Handled(s, inc);
            if OpensStream(inc)
            then s.next in t.heap && t.freed[s.next] == 0
            else s.next !in t.heap && t.freed[s.next] == 1
  {
    hide RequestsOk, StreamsOk, LinksOk, SubscriptionsOk, Opened, Subscribed, Unsubscribed;
    HandledKeeps(s, inc);
    if OpensStream(inc) {
      var req := NewRequest(inc);
      TakenInKeeps(s, req);
      NewRequestIsUnlinked(s);
      OpenedKeeps(TakenIn(s, req), s.next, inc.probeOk);
    } else {
      TablesReachable(s);
      ShortLivedMemory(s, inc);
    }
  }

  lemma ShortLivedMemory(s: State, inc: Incoming)
    requires Consistent(s) && !OpensStream(inc)
    ensures Handled(s, inc).heap == s.heap && Handled(s, inc).freed == s.freed + multiset{s.next}
  {
    hide Consistent, Handled;
    HandledShort(s, inc);
  }

  // ----- streams and their subscriptions -----

  predicate Known(s: State, id: string) { id in s.streams && s.streams[id] in s.streamHeap }

  predicate Connected(s: State, id: string) { Known(s, id) && s.streamHeap[s.streams[id]].req.Some? }

  /** The subscriptions of stream `id`, by subscription id. */
  function Table(s: State, id: string): map<string, Address>
    requires Known(s, id)
  {
    s.streamHeap[s.streams[id]].subscriptions
  }

  /** The same stream with the same subscriptions. */
  predicate SameStream(s: State, t: State, id: string)
    requires Known(s, id)
  {
    Known(t, id) && t.streams[id] == s.streams[id] && Table(t, id) == Table(s, id)
  }

  /** The steps that may change the subscriptions of stream `id`. */
  predicate Disturbs(s: State, step: Step, id: string) {
    match step
    case Handle(inc) => (inc.kind == Subscribe || inc.kind == Unsubscribe) && inc.path == id
    case Notify(_, _, _, _) => false
    case Tick(_) => !Connected(s, id)
    case Stop => true
  }

  lemma NextIsNew(s: State)
    requires Consistent(s)
    ensures s.next !in s.streamHeap && s.next !in s.subs && s.next !in s.heap
  {
    hide RequestsOk;
  }

  lemma OpenKeepsTables(s: State, r: Address, probeOk: bool, id: string)
    requires Consistent(s) && r in s.heap && Known(s, id)
    requires forall b :: b in s.streamHeap ==> s.streamHeap[b].req != Some(r)
    ensures OpenReady(s, r)
    ensures SameStream(s, Opened(s, r, probeOk).0, id)
  {
    hide Consistent, Without, Write, Opened;
    OpenedKeeps(s, r, probeOk);
    OpenedIs(s, r, probeOk);
    OtherStreams(s, s.heap[r].path, id);
    NextIsNew(s);
  }

  lemma HandleKeepsTables(s: State, inc: Incoming, id: string)
    requires Consistent(s) && Known(s, id) && !Disturbs(s, Handle(inc), id)
    ensures SameStream(s, Handled(s, inc), id)
  {
    hide Consistent, Opened, Handled;
    if OpensStream(inc) {
      var req := NewRequest(inc);
      var t := TakenIn(s, req);
      TakenInKeeps(s, req);
      NewRequestIsUnlinked(s);
      HandledOpen(s, inc);
      OpenKeepsTables(t, s.next, inc.probeOk, id);
    } else {
      TablesReachable(s);
      HandledShort(s, inc);
      OtherStreams(s, inc.path, id);
    }
  }

  lemma OtherStreams(s: State, i: string, j: string)
    requires Consistent(s)
    ensures i != j && i in s.streams && j in s.streams ==> s.streams[i] != s.streams[j]
  {
  }

  lemma NotifyKeepsTables(s: State, u: Address, data: string, writeOk: bool, id: string)
    requires Consistent(s) && Known(s, id) && u in s.subs
    ensures SameStream(s, Notified(s, u, data, writeOk), id)
  {
    hide RequestsOk, MemoryOk, Without, Write;
  }

  lemma TickKeepsTables(s: State, ok: set<string>, id: string)
    requires Consistent(s) && Connected(s, id)
    ensures SameStream(s, Ticked(s, ok), id)
  {
    hide RequestsOk, MemoryOk, SubscriptionsOk, Without, Write, BeatenHeap, KeptSubscriptions, Connections;
  }

  /** Whatever else happens, a stream keeps its identity and exactly its subscriptions: while its
      connection breaks, is probed, taken over or opened again. */
  lemma OnlySomeStepsDisturb(s: State, step: Step, id: string)
    requires Consistent(s) && Known(s, id)
    ensures !Disturbs(s, step, id) ==> SameStream(s, Next(s, step), id)
  {
    hide Consistent, Handled, Notified, Ticked, SameStream;
    if !Disturbs(s, step, id) {
      match step
      case Handle(inc) => HandleKeepsTables(s, inc, id);
      case Notify(u, data, passes, writeOk) =>
        if u in s.subs {
          NotifyKeepsTables(s, u, data, writeOk, id);
        }
        SameAsItself(s, id);
      case Tick(ok) => TickKeepsTables(s, ok, id);
    }
  }

  lemma SameAsItself(s: State, id: string)
    requires Known(s, id)
    ensures SameStream(s, s, id)
  {
  }

  predicate Undisturbed(s: State, steps: seq<Step>, id: string)
    requires Consistent(s)
    decreases |steps|
  {
    steps == [] ||
    (NextKeeps(s, steps[0]); !Disturbs(s, steps[0], id) && Undisturbed(Next(s, steps[0]), steps[1..], id))
  }

  /** Reconnecting before the reaping: over any run in which no heart-beat finds the stream without a
      connection and nobody subscribes or unsubscribes on it, it ends with exactly the subscriptions
      it had, however often its connection was lost. */
  lemma {:induction false} SubscriptionsSurvive(s: State, steps: seq<Step>, id: string)
    requires Consistent(s) && Known(s, id)
    ensures Undisturbed(s, steps, id) ==> SameStream(s, After(s, steps), id)
    decreases |steps|
  {
    hide Consistent, Next, Disturbs;
    if steps != [] {
      NextKeeps(s, steps[0]);
      OnlySomeStepsDisturb(s, steps[0], id);
      if Undisturbed(s, steps, id) {
        SubscriptionsSurvive(Next(s, steps[0]), steps[1..], id);
      }
    }
  }

  /** A heart-beat removes exactly the streams that had no connection, together with exactly their
      subscriptions; a stream whose write fails only loses its connection, every other one gets one
      more event. */
  lemma TickIsExact(s: State, ok: set<string>)
    requires Consistent(s)
    ensures var t := Ticked(s, ok);
            (forall id :: id in t.streams <==> Connected(s, id)) &&
            (forall id :: id in t.streams ==> t.streams[id] == s.streams[id]) &&
            (forall u :: u in t.subs <==> u in s.subs && Connected(s, s.streamHeap[s.subs[u].owner].key)) &&
            (forall u :: u in t.subs ==> t.subs[u] == s.subs[u])
    ensures var t := Ticked(s, ok);
            forall id :: Connected(s, id) ==>
              var r := s.streamHeap[s.streams[id]].req.value;
              Known(t, id) && r in s.heap &&
              (if id in ok then t.streamHeap[t.streams[id]].req == Some(r) && r in t.heap &&
                                t.heap[r] == Write(s.heap[r], HEART_BEAT)
               else !Connected(t, id) && r !in t.heap && t.freed[r] == 1)
  {
    hide RequestsOk, SubscriptionsOk, Without, Write;
    forall id | Connected(s, id)
      ensures var t, r := Ticked(s, ok), s.streamHeap[s.streams[id]].req.value;
              Known(t, id) && r in s.heap &&
              (if id in ok then t.streamHeap[t.streams[id]].req == Some(r) && r in t.heap &&
                                t.heap[r] == Write(s.heap[r], HEART_BEAT)
               else !Connected(t, id) && r !in t.heap && t.freed[r] == 1)
    {
      BeatOfConnection(s, ok, id);
    }
    TickedStreams(s, ok);
    TickedSubscriptions(s, ok);
  }

  lemma BeatOfConnection(s: State, ok: set<string>, id: string)
    requires Consistent(s) && Connected(s, id)
    ensures var t, r := Ticked(s, ok), s.streamHeap[s.streams[id]].req.value;
            Known(t, id) && r in s.heap &&
            (if id in ok then t.streamHeap[t.streams[id]].req == Some(r) && r in t.heap &&
                              t.heap[r] == Write(s.heap[r], HEART_BEAT)
             else !Connected(t, id) && r !in t.heap && t.freed[r] == 1)
  {
    hide RequestsOk, SubscriptionsOk, Without, Write;
  }

  lemma TickedStreams(s: State, ok: set<string>)
    requires Consistent(s)
    ensures var t := Ticked(s, ok);
            (forall id :: id in t.streams <==> Connected(s, id)) &&
            (forall id :: id in t.streams ==> t.streams[id] == s.streams[id])
  {
    hide RequestsOk, MemoryOk, LinksOk, SubscriptionsOk, Without, Write, BeatenHeap, BeatenStreams, Connections;
  }

  lemma TickedSubscriptions(s: State, ok: set<string>)
    requires Consistent(s)
    ensures var t := Ticked(s, ok);
            forall u :: (u in t.subs <==> u in s.subs && Connected(s, s.streamHeap[s.subs[u].owner].key)) &&
                        (u in t.subs ==> t.subs[u] == s.subs[u])
  {
    hide RequestsOk, MemoryOk, LinksOk, Without, Write, BeatenHeap, BeatenStreams, Connections;
  }

  /** Found without a connection twice in a row means gone: a stream whose write fails at one
      heart-beat does not survive the next one unless it is opened in between. */
  lemma TwoTicksReap(s: State, ok1: set<string>, ok2: set<string>, id: string)
    requires Consistent(s)
    ensures Consistent(Ticked(s, ok1))
    ensures id in Ticked(Ticked(s, ok1), ok2).streams <==> Connected(s, id) && id in ok1
  {
    hide Consistent, Ticked;
    TickedKeeps(s, ok1);
    TickIsExact(s, ok1);
    TickIsExact(Ticked(s, ok1), ok2);
  }

  /** Subscribing and unsubscribing again leaves every stream and every subscription as it was. */
  lemma UnsubscribeUndoesSubscribe(s: State, path: string, d: SubscribeData)
    requires Consistent(s)
    ensures Known(s, path) || path !in s.streams
    ensures forall id :: id in s.streams ==> s.streams[id] in s.streamHeap
    ensures var t := Subscribed(s, path, d);
            t.1 == 200 ==>
              Consistent(t.0) && (forall id :: id in t.0.streams ==> t.0.streams[id] in t.0.streamHeap) &&
              var u := Unsubscribed(t.0, path, d.id);
              u.1 == 200 && u.0.streamHeap == s.streamHeap && u.0.subs == s.subs && u.0.streams == s.streams
  {
    hide Consistent;
    SubscribeKeeps(s, path, d);
    TablesReachable(s);
    NextIsNew(s);
    if Subscribed(s, path, d).1 == 200 {
      TablesReachable(Subscribed(s, path, d).0);
      AddThenRemove(s, s.streams[path], d.id);
    }
  }

  lemma AddThenRemove(s: State, a: Address, id: string)
    requires a in s.streamHeap && id !in s.streamHeap[a].subscriptions && s.next !in s.subs
    ensures var t := AddSubscription(s, a, id);
            id in t.streamHeap[a].subscriptions &&
            var u := RemoveSubscription(t, a, id);
            u.streamHeap == s.streamHeap && u.subs == s.subs && u.streams == s.streams
  {
    var table := s.streamHeap[a].subscriptions;
    assert table[id := s.next] - {id} == table;
    assert s.subs[s.next := Subscription(a, id)] - {s.next} == s.subs;
  }

  /** A subscription id is taken once per stream: a second request with it is refused, whoever sends it. */
  lemma TakenIdIsRefused(s: State, path: string, d: SubscribeData)
    requires Consistent(s)
    ensures forall id :: id in s.streams ==> s.streams[id] in s.streamHeap
    ensures path in s.streams && d.id in s.streamHeap[s.streams[path]].subscriptions ==>
              Subscribed(s, path, d) == (s, 400)
    ensures Subscribed(s, path, d).1 == 200 ==>
              path in s.streams && d.id !in s.streamHeap[s.streams[path]].subscriptions
  {
    TablesReachable(s);
  }

  /** In every reachable state a stream has at most one subscription of a given id: whichever two
      records in memory agree in owner and id are the same record. */
  lemma SubscriptionIdIsUnique(steps: seq<Step>)
    ensures Consistent(EMPTY)
    ensures var s := After(EMPTY, steps);
            forall u, v :: u in s.subs && v in s.subs && s.subs[u] == s.subs[v] ==> u == v
  {
    hide Consistent;
    StartIsConsistent();
    LivesFacts(After(EMPTY, steps));
  }

  lemma OpenFrees(s: State, r: Address, probeOk: bool)
    requires OpenReady(s, r)
    ensures var id := s.heap[r].path;
            id in s.streams && s.streamHeap[s.streams[id]].req.Some? && !probeOk ==>
              s.streamHeap[s.streams[id]].req.value in Opened(s, r, probeOk).0.freed
  {
    hide Without, Write;
  }

  /** Opening a stream that is held: while the holder takes data the newcomer only gets an error
      event and stays without a stream; otherwise the holder's request is freed and the newcomer
      inherits the stream. */
  lemma OpeningHeldStream(s: State, inc: Incoming)
    requires Consistent(s) && Connected(s, inc.path)
    requires OpensStream(inc)
    ensures var t, a := Handled(s, inc), s.streams[inc.path];
            var before := s.streamHeap[a].req.value;
            s.next in t.heap && SameStream(s, t, inc.path) && before in s.heap &&
            (if inc.probeOk
             then t.streamHeap == s.streamHeap && t.heap[s.next].sent == [PROBE, ErrorEvent(400)] &&
                  before in t.heap && t.heap[before] == Write(s.heap[before], PROBE)
             else t.streamHeap[a].req == Some(s.next) && t.heap[s.next].sent == [PROBE] &&
                  before !in t.heap && before in t.freed)
  {
    hide RequestsOk, SubscriptionsOk, Without, Write, Handled, Opened, StreamAnswer;
    var t := TakenIn(s, NewRequest(inc));
    HandledOpen(s, inc);
    OpenedIs(t, s.next, inc.probeOk);
    NewRequestIsUnlinked(s);
    var o := Opened(t, s.next, inc.probeOk);
    AnswerTells(o.0, s.next, o.1);
    HandledKeeps(s, inc);
    OpenFrees(t, s.next, inc.probeOk);
  }

  // ----- requests over time -----

  /** What was written to a request stays written; more is only appended. */
  predicate Continues(before: Request, after: Request) {
    before.sent <= after.sent && before.wire <= after.wire && after.path == before.path && after.kind == before.kind
  }

  ghost predicate AllContinue(s: State, t: State) {
    forall r :: r in s.heap && r in t.heap ==> Continues(s.heap[r], t.heap[r])
  }

  lemma OpenContinues(s: State, r: Address, probeOk: bool)
    requires Consistent(s) && r in s.heap
    requires forall b :: b in s.streamHeap ==> s.streamHeap[b].req != Some(r)
    ensures OpenReady(s, r)
    ensures AllContinue(s, Opened(s, r, probeOk).0)
  {
    hide RequestsOk, MemoryOk, SubscriptionsOk, Without, Opened;
    OpenedIs(s, r, probeOk);
  }

  lemma HandleContinues(s: State, inc: Incoming)
    requires Consistent(s)
    ensures AllContinue(s, Handled(s, inc))
  {
    hide Consistent, Opened, Handled;
    NewRequestIsUnlinked(s);
    if OpensStream(inc) {
      var t := TakenIn(s, NewRequest(inc));
      TakenInKeeps(s, NewRequest(inc));
      HandledOpen(s, inc);
      OpenContinues(t, s.next, inc.probeOk);
    } else {
      HandledShort(s, inc);
    }
  }

  lemma NotifyContinues(s: State, u: Address, data: string, writeOk: bool)
    requires Consistent(s) && u in s.subs
    ensures AllContinue(s, Notified(s, u, data, writeOk))
  {
    hide RequestsOk, MemoryOk, Without;
  }

  lemma TickContinues(s: State, ok: set<string>)
    requires Consistent(s)
    ensures AllContinue(s, Ticked(s, ok))
  {
    hide Consistent, Without, BeatenStreams, KeptSubscriptions, Connections;
    TablesReachable(s);
  }

  lemma NextContinues(s: State, step: Step)
    requires Consistent(s)
    ensures AllContinue(s, Next(s, step))
  {
    hide Consistent, Handled, Notified, Ticked;
    match step
    case Handle(inc) => HandleContinues(s, inc);
    case Notify(u, data, passes, writeOk) =>
      if u in s.subs {
        NotifyContinues(s, u, data, writeOk);
      }
    case Tick(ok) => TickContinues(s, ok);
    case Stop =>
  }

  /** A living request that no stream refers to: it gets neither events nor heart-beats. */
  ghost predicate Stranded(s: State, r: Address) {
    r in s.heap && forall a :: a in s.streamHeap ==> s.streamHeap[a].req != Some(r)
  }

  /** A stranded request is not lost track of, but neither served nor freed until the service stops. */
  lemma StrandedStays(s: State, step: Step, r: Address)
    requires Consistent(s) && Stranded(s, r) && step != Stop
    ensures Stranded(Next(s, step), r) && Next(s, step).heap[r] == s.heap[r]
  {
    hide Consistent, Handled, Notified, Ticked;
    match step
    case Handle(inc) => StrandedAtHandle(s, inc, r);
    case Notify(u, data, passes, writeOk) =>
      if u in s.subs {
        StrandedAtNotify(s, u, data, writeOk, r);
      }
    case Tick(ok) => StrandedAtTick(s, ok, r);
  }

  /** ... over any run, and nothing more is ever written to it. */
  lemma {:induction false} StrandedForGood(s: State, steps: seq<Step>, r: Address)
    requires Consistent(s) && Stranded(s, r) && Stop !in steps
    ensures Stranded(After(s, steps), r) && After(s, steps).heap[r] == s.heap[r]
    decreases |steps|
  {
    hide Consistent, Next;
    if steps != [] {
      NextKeeps(s, steps[0]);
      StrandedStays(s, steps[0], r);
      StrandedForGood(Next(s, steps[0]), steps[1..], r);
    }
  }

  /** A request to open a stream is stranded exactly when it names no stream, or when the stream it
      names is held by a connection that takes the probe. */
  lemma StrandedExactly(s: State, inc: Incoming)
    requires Consistent(s) && OpensStream(inc)
    ensures s.next in Handled(s, inc).heap
    ensures Stranded(Handled(s, inc), s.next) <==> inc.path == "" || (Connected(s, inc.path) && inc.probeOk)
    ensures Handled(s, inc).heap[s.next].sent ==
            if Connected(s, inc.path) && inc.probeOk then [PROBE, ErrorEvent(400)] else [PROBE]
  {
    hide Consistent, Opened, Write;
    var req := NewRequest(inc);
    var t := TakenIn(s, req);
    TakenInKeeps(s, req);
    NewRequestIsUnlinked(s);
    OpenedKeeps(t, s.next, inc.probeOk);
    OpenStrands(t, s.next, inc.probeOk);
    AnswerTells(Opened(t, s.next, inc.probeOk).0, s.next, Opened(t, s.next, inc.probeOk).1);
  }

  lemma AnswerTells(s: State, r: Address, status: nat)
    requires r in s.heap && s.heap[r].sent == []
    ensures StreamAnswer(s, r, status).heap[r].sent == if status >= 400 then [PROBE, ErrorEvent(status)] else [PROBE]
    ensures StreamAnswer(s, r, status).heap.Keys == s.heap.Keys && StreamAnswer(s, r, status).streamHeap == s.streamHeap
  {
    hide Block;
  }

  lemma OpenStrands(s: State, r: Address, probeOk: bool)
    requires Consistent(s) && Stranded(s, r)
    ensures OpenReady(s, r)
    ensures var id, o := s.heap[r].path, Opened(s, r, probeOk);
            r in o.0.heap && o.0.heap[r] == s.heap[r] &&
            (Stranded(o.0, r) <==> id == "" || (Connected(s, id) && probeOk)) &&
            o.1 == (if Connected(s, id) && probeOk then 400 else 200)
  {
    hide RequestsOk, MemoryOk, SubscriptionsOk, Without, Block, Opened;
    OpenedIs(s, r, probeOk);
    var id, t := s.heap[r].path, Opened(s, r, probeOk).0;
    if id in t.streams && !(Connected(s, id) && probeOk) {
      assert t.streamHeap[t.streams[id]].req == Some(r);
    }
  }

  /** A request that some stream refers to is never stranded later: it is served until it is freed. */
  lemma ServedOrFreed(s: State, step: Step, r: Address)
    requires Consistent(s) && r in s.heap && !Stranded(s, r) && step != Stop
    ensures !Stranded(Next(s, step), r)
  {
    hide Consistent, Handled, Notified, Ticked, Stranded;
    match step
    case Handle(inc) => ServedAtHandle(s, inc, r);
    case Notify(u, data, passes, writeOk) =>
      if u in s.subs {
        ServedAtNotify(s, u, data, writeOk, r);
      }
    case Tick(ok) => ServedAtTick(s, ok, r);
  }

  lemma ServedAtOpen(s: State, n: Address, probeOk: bool, r: Address)
    requires Consistent(s) && Stranded(s, n) && r in s.heap && !Stranded(s, r)
    ensures OpenReady(s, n)
    ensures !Stranded(Opened(s, n, probeOk).0, r)
  {
    hide RequestsOk, MemoryOk, SubscriptionsOk, Without, Write, Opened;
    OpenedIs(s, n, probeOk);
    var a :| a in s.streamHeap && s.streamHeap[a].req == Some(r);
    var t := Opened(s, n, probeOk).0;
    assert r in t.heap ==> a in t.streamHeap && t.streamHeap[a].req == Some(r);
  }

  lemma ServedAtHandle(s: State, inc: Incoming, r: Address)
    requires Consistent(s) && r in s.heap && !Stranded(s, r)
    ensures !Stranded(Handled(s, inc), r)
  {
    hide Consistent, Opened, Handled;
    NewRequestIsUnlinked(s);
    if OpensStream(inc) {
      var t := TakenIn(s, NewRequest(inc));
      TakenInKeeps(s, NewRequest(inc));
      HandledOpen(s, inc);
      ServedAtOpen(t, s.next, inc.probeOk, r);
    } else {
      HandledShort(s, inc);
      var a :| a in s.streamHeap && s.streamHeap[a].req == Some(r);
      assert a in Handled(s, inc).streamHeap && Handled(s, inc).streamHeap[a].req == Some(r);
    }
  }

  lemma ServedAtNotify(s: State, u: Address, data: string, writeOk: bool, r: Address)
    requires Consistent(s) && r in s.heap && !Stranded(s, r) && u in s.subs
    ensures !Stranded(Notified(s, u, data, writeOk), r)
  {
    hide RequestsOk, MemoryOk, Without, Block;
    var a :| a in s.streamHeap && s.streamHeap[a].req == Some(r);
    var t := Notified(s, u, data, writeOk);
    assert r in t.heap ==> a in t.streamHeap && t.streamHeap[a].req == Some(r);
  }

  lemma ServedAtTick(s: State, ok: set<string>, r: Address)
    requires Consistent(s) && r in s.heap && !Stranded(s, r)
    ensures !Stranded(Ticked(s, ok), r)
  {
    hide RequestsOk, MemoryOk, SubscriptionsOk, Without, KeptSubscriptions, Write;
    TablesReachable(s);
    var a :| a in s.streamHeap && s.streamHeap[a].req == Some(r);
    var t := Ticked(s, ok);
    assert r in t.heap ==> a in t.streamHeap && t.streamHeap[a].req == Some(r);
  }

  /** Whether a request is stranded is settled once it has been taken in. */
  lemma StrandedIsSettled(s: State, step: Step, r: Address)
    requires Consistent(s) && r < s.next && step != Stop
    ensures Next(s, step).next >= s.next && (Stranded(Next(s, step), r) <==> Stranded(s, r))
  {
    hide Consistent, Next, Stranded;
    NextMovesOn(s, step);
    if Stranded(s, r) {
      StrandedStays(s, step, r);
    } else if r in s.heap {
      ServedOrFreed(s, step, r);
    } else {
      GoneStaysGone(s, step, r);
    }
  }

  lemma GoneStaysGone(s: State, step: Step, r: Address)
    requires Consistent(s) && r < s.next && r !in s.heap
    ensures !Stranded(Next(s, step), r)
  {
    hide Consistent, Next;
    if step.Handle? && OpensStream(step.inc) {
      OpenGreets(s, step.inc);
      HandleStep(s, step.inc);
    } else {
      OthersBringNoRequest(s, step);
    }
  }

  lemma {:induction false} StrandedOverRuns(s: State, steps: seq<Step>, r: Address)
    requires Consistent(s) && r < s.next && Stop !in steps
    ensures Stranded(After(s, steps), r) <==> Stranded(s, r)
    decreases |steps|
  {
    hide Consistent, Next, Stranded;
    if steps != [] {
      NextKeeps(s, steps[0]);
      StrandedIsSettled(s, steps[0], r);
      StrandedOverRuns(Next(s, steps[0]), steps[1..], r);
    }
  }

  /** The fate of a request to open a stream, after any run before the stop: it is alive without a
      stream exactly when it named none, or one whose holder took the probe.  In all other cases a
      stream serves it or it has been freed. */
  lemma OpenStreamFate(s: State, inc: Incoming, steps: seq<Step>)
    requires Consistent(s) && OpensStream(inc) && Stop !in steps
    ensures Consistent(Handled(s, inc))
    ensures Stranded(After(Handled(s, inc), steps), s.next) <==>
            inc.path == "" || (Connected(s, inc.path) && inc.probeOk)
  {
    hide Consistent, Handled, Stranded, Connected;
    HandledKeeps(s, inc);
    StrandedExactly(s, inc);
    HandleStep(s, inc);
    NextMovesOn(s, Handle(inc));
    StrandedOverRuns(Handled(s, inc), steps, s.next);
  }

  const NO_SUBSCRIPTION := SubscribeData("", false, false, false, false, false)

  /** A request that opens stream `path`; the holder of the stream takes the probe. */
  function Opening(path: string): Incoming {
    Incoming(true, true, true, OpenStream, path, "", true, NO_SUBSCRIPTION, 200)
  }

  /** Both causes come up right after the start: a second request for a stream, and one without a name. */
  lemma StrandedFromStart()
    ensures Consistent(EMPTY)
    ensures var s := After(EMPTY, [Handle(Opening("a"))]);
            Stranded(After(EMPTY, [Handle(Opening("a")), Handle(Opening("a"))]), s.next)
    ensures Stranded(After(EMPTY, [Handle(Opening(""))]), EMPTY.next)
  {
    hide Consistent, Handled, Stranded;
    StartIsConsistent();
    AfterOne(EMPTY, Opening("a"));
    AfterOne(EMPTY, Opening(""));
    var s := Handled(EMPTY, Opening("a"));
    HandledKeeps(EMPTY, Opening("a"));
    AfterTwo(EMPTY, Opening("a"), Opening("a"));
    FirstConnects();
    StrandedExactly(s, Opening("a"));
    StrandedExactly(EMPTY, Opening(""));
  }

  lemma AfterOne(s: State, inc: Incoming)
    requires Consistent(s)
    ensures After(s, [Handle(inc)]) == Handled(s, inc)
  {
    hide Consistent, Handled;
    NextKeeps(s, Handle(inc));
    var rest: seq<Step> := [Handle(inc)][1..];
    assert rest == [];
  }

  lemma AfterTwo(s: State, inc: Incoming, next: Incoming)
    requires Consistent(s)
    ensures Consistent(Handled(s, inc)) && After(s, [Handle(inc), Handle(next)]) == Handled(Handled(s, inc), next)
  {
    hide Consistent, Handled;
    HandledKeeps(s, inc);
    HandleStep(s, inc);
    assert [Handle(inc), Handle(next)][1..] == [Handle(next)];
    AfterOne(Handled(s, inc), next);
  }

  lemma FirstConnects()
    ensures Consistent(EMPTY) && Connected(Handled(EMPTY, Opening("a")), "a")
  {
    hide Consistent;
    StartIsConsistent();
  }

  lemma StrandedAtOpen(s: State, n: Address, probeOk: bool, r: Address)
    requires Consistent(s) && n in s.heap && Stranded(s, n) && Stranded(s, r) && n != r
    ensures OpenReady(s, n)
    ensures var t := Opened(s, n, probeOk).0; Stranded(t, r) && t.heap[r] == s.heap[r]
  {
    hide RequestsOk, MemoryOk, SubscriptionsOk, Without, Opened;
    OpenedIs(s, n, probeOk);
  }

  lemma StrandedAtHandle(s: State, inc: Incoming, r: Address)
    requires Consistent(s) && Stranded(s, r)
    ensures Stranded(Handled(s, inc), r) && Handled(s, inc).heap[r] == s.heap[r]
  {
    hide Consistent, Opened, Handled;
    NewRequestIsUnlinked(s);
    if OpensStream(inc) {
      var t := TakenIn(s, NewRequest(inc));
      TakenInKeeps(s, NewRequest(inc));
      HandledOpen(s, inc);
      StrandedAtOpen(t, s.next, inc.probeOk, r);
    } else {
      HandledShort(s, inc);
    }
  }

  lemma StrandedAtNotify(s: State, u: Address, data: string, writeOk: bool, r: Address)
    requires Consistent(s) && Stranded(s, r) && u in s.subs
    ensures Stranded(Notified(s, u, data, writeOk), r) && Notified(s, u, data, writeOk).heap[r] == s.heap[r]
  {
    hide RequestsOk, MemoryOk, Without;
  }

  lemma StrandedAtTick(s: State, ok: set<string>, r: Address)
    requires Consistent(s) && Stranded(s, r)
    ensures Stranded(Ticked(s, ok), r) && Ticked(s, ok).heap[r] == s.heap[r]
  {
    hide Consistent, Without, KeptSubscriptions;
    TablesReachable(s);
  }

  // ----- what arrives at the other end of a stream's connection -----

  /** Every connection starts with an empty event, whose block is the response's header. */
  ghost predicate Greeted(s: State) {
    forall r :: r in s.heap ==> s.heap[r].sent != [] && s.heap[r].sent[0] == PROBE
  }

  lemma OpenedRequests(s: State, r: Address, probeOk: bool)
    requires OpenReady(s, r)
    ensures var h := Opened(s, r, probeOk).0.heap; h.Keys <= s.heap.Keys && r in h && h[r] == s.heap[r]
  {
    hide Without, Write;
  }

  lemma OpenGreets(s: State, inc: Incoming)
    requires Consistent(s) && OpensStream(inc)
    ensures Handled(s, inc).heap.Keys <= s.heap.Keys + {s.next}
    ensures s.next in Handled(s, inc).heap
    ensures Handled(s, inc).heap[s.next].sent != [] && Handled(s, inc).heap[s.next].sent[0] == PROBE
  {
    hide Consistent, Without, Opened, OpenReady;
    var req := NewRequest(inc);
    TakenInKeeps(s, req);
    NewRequestIsUnlinked(s);
    OpenedKeeps(TakenIn(s, req), s.next, inc.probeOk);
    OpenedRequests(TakenIn(s, req), s.next, inc.probeOk);
  }

  lemma OthersBringNoRequest(s: State, step: Step)
    requires Consistent(s)
    requires step.Handle? ==> !OpensStream(step.inc)
    ensures Next(s, step).heap.Keys <= s.heap.Keys
  {
    hide Consistent, Handled, Notified, Ticked;
    match step
    case Handle(inc) => ShortLivedMemory(s, inc);
    case Notify(u, data, passes, writeOk) =>
      if u in s.subs {
        NotifyBringsNoRequest(s, u, data, writeOk);
      }
    case Tick(ok) => TickBringsNoRequest(s, ok);
    case Stop =>
  }

  lemma NotifyBringsNoRequest(s: State, u: Address, data: string, writeOk: bool)
    requires Consistent(s) && u in s.subs
    ensures Notified(s, u, data, writeOk).heap.Keys <= s.heap.Keys
  {
    hide Without, Write, NoDuplicates;
  }

  lemma TickBringsNoRequest(s: State, ok: set<string>)
    requires Consistent(s)
    ensures Ticked(s, ok).heap.Keys <= s.heap.Keys
  {
    hide Consistent, Without, Deserted, Connections, BeatenStreams, KeptSubscriptions;
    TablesReachable(s);
  }

  lemma NextGreets(s: State, step: Step)
    requires Consistent(s) && Greeted(s)
    ensures Greeted(Next(s, step))
  {
    hide Consistent, Next;
    NextContinues(s, step);
    if step.Handle? && OpensStream(step.inc) {
      OpenGreets(s, step.inc);
      NextIsNew(s);
      assert Next(s, step) == Handled(s, step.inc) by {
        HandleStep(s, step.inc);
      }
    } else {
      OthersBringNoRequest(s, step);
    }
  }

  lemma HandleStep(s: State, inc: Incoming)
    requires Consistent(s)
    ensures Next(s, Handle(inc)) == Handled(s, inc)
  {
  }

  lemma {:induction false} AfterGreets(s: State, steps: seq<Step>)
    requires Consistent(s) && Greeted(s)
    ensures Greeted(After(s, steps))
    decreases |steps|
  {
    hide Consistent, Next, Greeted;
    if steps != [] {
      NextKeeps(s, steps[0]);
      NextGreets(s, steps[0]);
      AfterGreets(Next(s, steps[0]), steps[1..]);
    }
  }

  /** The block that every connection starts with, and that serves as the response's header. */
  const HEADER := Block(0, PROBE)

  /** In every reachable state, for every live connection: behind the header block, the bytes that were
      written read back as exactly the events sent, and the ids that are read count up from 1, gapless
      modulo 2^32. */
  lemma ConnectionsReadBack(steps: seq<Step>, r: Address)
    ensures Consistent(EMPTY)
    ensures var s := After(EMPTY, steps);
            r in s.heap ==>
              var q := s.heap[r];
              q.sent != [] && q.sent[0] == PROBE && HEADER <= q.wire && q.eventId == |q.sent| % COUNTER_RANGE &&
              ((forall e :: e in q.sent ==> Plain(e)) ==>
                 var ms := Read(q.wire[|HEADER|..], Reader("", "", ""));
                 |ms| == |q.sent| - 1 && forall i :: 0 <= i < |ms| ==> Carries(ms[i], q.sent[i + 1], i + 1))
  {
    hide Wire, Block, Read, Plain, Carries;
    StartIsConsistent();
    AfterGreets(EMPTY, steps);
    var s := After(EMPTY, steps);
    if r in s.heap {
      var q := s.heap[r];
      assert Numbered(q);
      WireBegins(q.sent);
      assert q.wire[|HEADER|..] == Wire(q.sent, 1);
      if forall e :: e in q.sent ==> Plain(e) {
        WireReadsBack(q.sent, 1, "");
      }
    }
  }

  lemma WireBegins(sent: seq<Event>)
    requires sent != []
    ensures Wire(sent, 0) == Block(0, sent[0]) + Wire(sent, 1)
  {
    hide Block;
  }
}
