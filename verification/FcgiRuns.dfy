/** What every callback keeps, and what holds over whole runs of the FastCGI service. */
module FcgiRuns {
  import opened Wrappers
  import opened FcgiState
  import opened EventWriter

  datatype Step =
    | Handle(inc: Incoming)
    | Notify(sub: Address, data: string, passes: bool, writeOk: bool)
    | Tick(ok: set<string>)
    | Stop

  /** A notification callback exists only for a subscription that does, and its event may be held
      back by access control or because of its type. */
  function Next(s: State, step: Step): State
    requires Consistent(s)
  {
    match step
    case Handle(inc) => Handled(s, inc)
    case Notify(u, data, passes, writeOk) => if u in s.subs && passes then Notified(s, u, data, writeOk) else s
    case Tick(ok) => Ticked(s, ok)
    case Stop => Stopped(s)
  }

  // ----- each callback keeps the memory consistent -----

  /** A write keeps bytes, events and counter in step. */
  lemma WriteIsNumbered(r: Request, e: Event)
    requires Numbered(r)
    ensures Numbered(Write(r, e))
  {
    hide Block, Wire;
    WireGrows(r.sent, e, 0);
    assert |Write(r, e).sent| == |r.sent| + 1;
  }

  lemma NewIsNumbered(inc: Incoming)
    ensures Numbered(NewRequest(inc))
  {
  }

  lemma WrittenKeeps(s: State, r: Address, e: Event)
    requires Consistent(s) && r in s.heap
    ensures Consistent(Written(s, r, e))
  {
    hide NoDuplicates, MemoryOk, StreamsOk, LinksOk, SubscriptionsOk, Numbered, Block;
    assert Written(s, r, e).heap.Keys == s.heap.Keys;
    WriteIsNumbered(s.heap[r], e);
  }

  lemma FreedKeeps(s: State, r: Address)
    requires Consistent(s) && r in s.heap
    requires forall b :: b in s.streamHeap ==> s.streamHeap[b].req != Some(r)
    ensures Consistent(Freed(s, r))
  {
    hide NoDuplicates, StreamsOk, SubscriptionsOk, Numbered;
    assert Freed(s, r).heap.Keys == s.heap.Keys - {r};
  }

  lemma AttachedKeeps(s: State, a: Address, r: Option<Address>)
    requires Consistent(s) && a in s.streamHeap
    requires r.Some? ==> r.value in s.heap && forall b :: b in s.streamHeap ==> s.streamHeap[b].req != r
    ensures Consistent(Attached(s, a, r))
  {
    hide RequestsOk, MemoryOk, LinksOk, StreamsOk, SubscriptionsOk;
    var h := s.streamHeap[a := s.streamHeap[a].(req := r)];
    SameStreams(s.streams, s.streamHeap, h, s.next);
    SameTables(s.subs, s.streamHeap, h, s.next);
    Relinked(s.streamHeap, s.heap.Keys, a, r);
  }

  lemma SameStreams(streams: map<string, Address>, h: map<Address, Stream>, g: map<Address, Stream>, next: Address)
    requires StreamsOk(streams, h, next) && h.Keys == g.Keys && forall a :: a in h ==> h[a].key == g[a].key
    ensures StreamsOk(streams, g, next)
  {
  }

  lemma SameTables(subs: map<Address, Subscription>, h: map<Address, Stream>, g: map<Address, Stream>, next: Address)
    requires SubscriptionsOk(subs, h, next) && h.Keys == g.Keys
    requires forall a :: a in h ==> h[a].subscriptions == g[a].subscriptions
    ensures SubscriptionsOk(subs, g, next)
  {
    assert forall b, id, u :: HoldsSubscription(h, b, id, u) <==> HoldsSubscription(g, b, id, u);
  }

  lemma Relinked(h: map<Address, Stream>, alive: set<Address>, a: Address, r: Option<Address>)
    requires LinksOk(h, alive) && a in h
    requires r.Some? ==> r.value in alive && forall b :: b in h ==> h[b].req != r
    ensures LinksOk(h[a := h[a].(req := r)], alive)
  {
  }

  lemma TakenInKeeps(s: State, req: Request)
    requires Consistent(s) && req.kind == OpenStream && Numbered(req)
    ensures Consistent(TakenIn(s, req))
  {
    hide Numbered;
    var t := TakenIn(s, req);
    assert t.heap.Keys == s.heap.Keys + {s.next};
  }

  lemma ShortLivedKeeps(s: State)
    requires Consistent(s)
    ensures Consistent(Passed(s))
  {
    hide RequestsOk, LinksOk;
  }

  lemma CreatedKeeps(s: State, id: string, r: Address)
    requires Consistent(s) && id != "" && id !in s.streams
    requires r in s.heap && forall b :: b in s.streamHeap ==> s.streamHeap[b].req != Some(r)
    ensures Consistent(s.(streams := s.streams[id := s.next],
                          streamHeap := s.streamHeap[s.next := Stream(id, Some(r), map[])], next := s.next + 1))
  {
    hide RequestsOk, SubscriptionsOk;
    CreatedTables(s.subs, s.streamHeap, s.next, Stream(id, Some(r), map[]));
  }

  lemma CreatedTables(subs: map<Address, Subscription>, h: map<Address, Stream>, next: Address, st: Stream)
    requires SubscriptionsOk(subs, h, next) && next !in h && st.subscriptions == map[]
    ensures SubscriptionsOk(subs, h[next := st], next + 1)
  {
    var g := h[next := st];
    assert forall b, k, u :: HoldsSubscription(g, b, k, u) <==> HoldsSubscription(h, b, k, u);
  }

  /** A subscription that starts or ends touches one table and one back link. */
  lemma AddedKeeps(s: State, a: Address, id: string)
    requires Consistent(s) && a in s.streamHeap && id !in s.streamHeap[a].subscriptions && id != ""
    ensures Consistent(AddSubscription(s, a, id))
  {
    hide RequestsOk, LinksOk, StreamsOk, SubscriptionsOk;
    var h := AddSubscription(s, a, id).streamHeap;
    SameStreams(s.streams, s.streamHeap, h, s.next);
    LaterStreams(s.streams, h, s.next);
    SameLinks(s.streamHeap, h, s.heap.Keys);
    AddedTables(s.subs, s.streamHeap, s.next, a, id);
  }

  lemma LaterStreams(streams: map<string, Address>, h: map<Address, Stream>, next: Address)
    requires StreamsOk(streams, h, next)
    ensures StreamsOk(streams, h, next + 1)
  {
  }

  lemma SameLinks(h: map<Address, Stream>, g: map<Address, Stream>, alive: set<Address>)
    requires LinksOk(h, alive) && h.Keys == g.Keys && forall a :: a in h ==> h[a].req == g[a].req
    ensures LinksOk(g, alive)
  {
  }

  lemma AddedTables(subs: map<Address, Subscription>, h: map<Address, Stream>, next: Address, a: Address, id: string)
    requires SubscriptionsOk(subs, h, next) && a in h && id !in h[a].subscriptions && id != ""
    ensures SubscriptionsOk(subs[next := Subscription(a, id)],
                            h[a := h[a].(subscriptions := h[a].subscriptions[id := next])], next + 1)
  {
    var g := h[a := h[a].(subscriptions := h[a].subscriptions[id := next])];
    assert forall b, k, u ::
        HoldsSubscription(g, b, k, u) <==> HoldsSubscription(h, b, k, u) || (b == a && k == id && u == next);
  }

  lemma RemovedKeeps(s: State, a: Address, id: string)
    requires Consistent(s) && a in s.streamHeap && id in s.streamHeap[a].subscriptions
    ensures Consistent(RemoveSubscription(s, a, id))
  {
    hide RequestsOk, MemoryOk, LinksOk, StreamsOk, SubscriptionsOk;
    var h := RemoveSubscription(s, a, id).streamHeap;
    SameStreams(s.streams, s.streamHeap, h, s.next);
    SameLinks(s.streamHeap, h, s.heap.Keys);
    RemovedTables(s.subs, s.streamHeap, s.next, a, id);
  }

  lemma RemovedTables(subs: map<Address, Subscription>, h: map<Address, Stream>, next: Address, a: Address, id: string)
    requires SubscriptionsOk(subs, h, next) && a in h && id in h[a].subscriptions
    ensures SubscriptionsOk(subs - {h[a].subscriptions[id]},
                            h[a := h[a].(subscriptions := h[a].subscriptions - {id})], next)
  {
    var g := h[a := h[a].(subscriptions := h[a].subscriptions - {id})];
    var gone := h[a].subscriptions[id];
    assert HoldsSubscription(h, a, id, gone);
    assert forall b, k, u :: HoldsSubscription(g, b, k, u) <==> HoldsSubscription(h, b, k, u) && !(b == a && k == id);
  }

  lemma DroppedKeeps(s: State, a: Address)
    requires Consistent(s) && a in s.streamHeap && s.streamHeap[a].req.Some?
    ensures s.streamHeap[a].req.value in s.heap && Consistent(Dropped(s, a))
  {
    hide RequestsOk, MemoryOk, StreamsOk, SubscriptionsOk, NoDuplicates;
    var r := s.streamHeap[a].req.value;
    AttachedKeeps(s, a, None);
    FreedKeeps(Attached(s, a, None), r);
    assert Dropped(s, a) == Freed(Attached(s, a, None), r);
  }

  lemma OpenedKeeps(s: State, r: Address, probeOk: bool)
    requires Consistent(s) && r in s.heap
    requires forall b :: b in s.streamHeap ==> s.streamHeap[b].req != Some(r)
    ensures OpenReady(s, r)
    ensures Consistent(Opened(s, r, probeOk).0) && r in Opened(s, r, probeOk).0.heap
  {
    hide RequestsOk, MemoryOk, SubscriptionsOk, Freed;
    var id := s.heap[r].path;
    if id in s.streams {
      var a := s.streams[id];
      var before := s.streamHeap[a].req;
      if before == None {
        AttachedKeeps(s, a, Some(r));
      } else if probeOk {
        WrittenKeeps(s, before.value, PROBE);
      } else {
        TakenOverKeeps(s, a, r);
      }
    } else if id != "" {
      CreatedKeeps(s, id, r);
    }
  }

  lemma TakenOverKeeps(s: State, a: Address, r: Address)
    requires Consistent(s) && a in s.streamHeap && s.streamHeap[a].req.Some? && r in s.heap
    requires forall b :: b in s.streamHeap ==> s.streamHeap[b].req != Some(r)
    ensures var before := s.streamHeap[a].req.value;
            before in s.heap && r in Attached(Freed(s, before), a, Some(r)).heap &&
            Consistent(Attached(Freed(s, before), a, Some(r)))
  {
    hide RequestsOk, MemoryOk, StreamsOk, SubscriptionsOk, NoDuplicates;
    var before := s.streamHeap[a].req.value;
    DroppedKeeps(s, a);
    AttachedKeeps(Dropped(s, a), a, Some(r));
    assert Attached(Freed(s, before), a, Some(r)) == Attached(Dropped(s, a), a, Some(r));
  }

  lemma TablesReachable(s: State)
    requires Consistent(s)
    ensures forall id :: id in s.streams ==> s.streams[id] in s.streamHeap
  {
  }

  /** A request to open a stream: the stream is opened, and the request answered with its first events. */
  lemma HandledOpen(s: State, inc: Incoming)
    requires Consistent(s) && OpensStream(inc)
    ensures OpenReady(TakenIn(s, NewRequest(inc)), s.next)
    ensures var o, t := Opened(TakenIn(s, NewRequest(inc)), s.next, inc.probeOk), Handled(s, inc);
            s.next in o.0.heap && t == StreamAnswer(o.0, s.next, o.1) &&
            t == o.0.(heap := t.heap) && t.heap.Keys == o.0.heap.Keys &&
            forall q :: q in t.heap && q != s.next ==> t.heap[q] == o.0.heap[q]
  {
    hide Consistent, Opened, OpenReady, Write;
    NewIsReady(s, NewRequest(inc), inc.probeOk);
  }

  /** A subscribe handler that changes anything puts one record under one stream. */
  lemma SubscribedIs(s: State, path: string, d: SubscribeData)
    requires forall id :: id in s.streams ==> s.streams[id] in s.streamHeap
    ensures var o := Subscribed(s, path, d);
            if o.1 != 200 then o.0 == s
            else
              path in s.streams && o.0 == s.(subs := o.0.subs, streamHeap := o.0.streamHeap, next := s.next + 1) &&
              var a := s.streams[path];
              o.0.subs == s.subs[s.next := Subscription(a, d.id)] &&
              o.0.streamHeap ==
              s.streamHeap[a := s.streamHeap[a].(subscriptions := s.streamHeap[a].subscriptions[d.id := s.next])]
  {
  }

  lemma UnsubscribedIs(s: State, path: string, info: string)
    requires forall id :: id in s.streams ==> s.streams[id] in s.streamHeap
    ensures var o := Unsubscribed(s, path, info);
            if o.1 != 200 then o.0 == s
            else
              path in s.streams && o.0 == s.(subs := o.0.subs, streamHeap := o.0.streamHeap) &&
              var a := s.streams[path];
              info in s.streamHeap[a].subscriptions &&
              o.0.subs == s.subs - {s.streamHeap[a].subscriptions[info]} &&
              o.0.streamHeap ==
              s.streamHeap[a := s.streamHeap[a].(subscriptions := s.streamHeap[a].subscriptions - {info})]
  {
  }

  /** What any other request comes to. */
  lemma HandledOther(s: State, inc: Incoming)
    requires Consistent(s) && !OpensStream(inc)
    ensures forall id :: id in s.streams ==> s.streams[id] in s.streamHeap
    ensures var t, p, r := Handled(s, inc), Passed(s), s.next;
            if !inc.initOk || !inc.acceptOk then t == p
            else if !inc.inputOk then t == Answered(p, r, 400)
            else if inc.kind == Subscribe then
              var o := Subscribed(p, inc.path, inc.subscription); t == Answered(o.0, r, o.1)
            else if inc.kind == Unsubscribe then
              var o := Unsubscribed(p, inc.path, inc.info); t == Answered(o.0, r, o.1)
            else t == Answered(p, r, inc.status)
  {
    hide Consistent, Opened, Subscribed, Unsubscribed, Answered, Passed;
    TablesReachable(s);
  }

  /** It leaves all memory of requests as it was, and what is connected to what. */
  lemma HandledShort(s: State, inc: Incoming)
    requires Consistent(s) && !OpensStream(inc)
    ensures forall id :: id in s.streams ==> s.streams[id] in s.streamHeap
    ensures var t, accepted := Handled(s, inc), inc.initOk && inc.acceptOk && inc.inputOk;
            t.heap == s.heap && t.list == s.list && t.freed == s.freed + multiset{s.next} && t.streams == s.streams &&
            t.interval == s.interval && t.next > s.next && t.streamHeap.Keys == s.streamHeap.Keys &&
            (forall a :: a in s.streamHeap ==> t.streamHeap[a].req == s.streamHeap[a].req) &&
            (forall a :: a in s.streamHeap && t.streamHeap[a] != s.streamHeap[a] ==>
                           accepted && inc.path in s.streams && a == s.streams[inc.path] &&
                           (inc.kind == Subscribe || inc.kind == Unsubscribe))
  {
    hide Consistent, Opened, Handled, Subscribed, Unsubscribed;
    HandledOther(s, inc);
    SubscribedIs(Passed(s), inc.path, inc.subscription);
    UnsubscribedIs(Passed(s), inc.path, inc.info);
  }

  lemma SubscribeKeeps(s: State, path: string, d: SubscribeData)
    requires Consistent(s)
    ensures forall id :: id in s.streams ==> s.streams[id] in s.streamHeap
    ensures Consistent(Subscribed(s, path, d).0)
  {
    hide Consistent, AddSubscription;
    TablesReachable(s);
    if path in s.streams && d.id !in s.streamHeap[s.streams[path]].subscriptions {
      if d.id != "" {
        AddedKeeps(s, s.streams[path], d.id);
      }
    }
  }

  lemma UnsubscribeKeeps(s: State, path: string, info: string)
    requires Consistent(s)
    ensures forall id :: id in s.streams ==> s.streams[id] in s.streamHeap
    ensures Consistent(Unsubscribed(s, path, info).0)
  {
    hide Consistent, RemoveSubscription;
    TablesReachable(s);
    if path in s.streams && info in s.streamHeap[s.streams[path]].subscriptions {
      RemovedKeeps(s, s.streams[path], info);
    }
  }

  /** The newly accepted request is not yet known to any stream. */
  lemma NewRequestIsUnlinked(s: State)
    requires Consistent(s)
    ensures s.next !in s.heap && forall b :: b in s.streamHeap ==> s.streamHeap[b].req != Some(s.next)
  {
    hide RequestsOk, StreamsOk, SubscriptionsOk;
  }

  lemma AnswerKeeps(s: State, r: Address, status: nat)
    requires Consistent(s) && r in s.heap
    ensures Consistent(StreamAnswer(s, r, status))
  {
    hide Consistent;
    WrittenKeeps(s, r, PROBE);
    WrittenKeeps(Written(s, r, PROBE), r, ErrorEvent(status));
  }

  lemma HandledKeeps(s: State, inc: Incoming)
    requires Consistent(s)
    ensures Consistent(Handled(s, inc))
  {
    hide Consistent, Opened, Subscribed, Unsubscribed, StreamAnswer, Handled, Passed, Answered;
    if OpensStream(inc) {
      HandledOpen(s, inc);
      var req := NewRequest(inc);
      var t := TakenIn(s, req);
      TakenInKeeps(s, req);
      NewRequestIsUnlinked(s);
      OpenedKeeps(t, s.next, inc.probeOk);
      var o := Opened(t, s.next, inc.probeOk);
      AnswerKeeps(o.0, s.next, o.1);
    } else {
      HandledOther(s, inc);
      ShortLivedKeeps(s);
      var t := Passed(s);
      TablesReachable(t);
      SubscribeKeeps(t, inc.path, inc.subscription);
      UnsubscribeKeeps(t, inc.path, inc.info);
      AnsweredKeeps(t, s.next, if inc.inputOk then inc.status else 400);
      var o, q := Subscribed(t, inc.path, inc.subscription), Unsubscribed(t, inc.path, inc.info);
      AnsweredKeeps(o.0, s.next, o.1);
      AnsweredKeeps(q.0, s.next, q.1);
    }
  }

  lemma AnsweredKeeps(s: State, r: Address, status: nat)
    requires Consistent(s)
    ensures Consistent(Answered(s, r, status))
  {
  }

  lemma NotifiedKeeps(s: State, u: Address, data: string, writeOk: bool)
    requires Consistent(s) && u in s.subs
    ensures Consistent(Notified(s, u, data, writeOk))
  {
    hide RequestsOk, MemoryOk, StreamsOk;
    var a := s.subs[u].owner;
    if s.streamHeap[a].req.Some? {
      var r := s.streamHeap[a].req.value;
      var w := Written(s, r, Event(Some(s.subs[u].id), Some(data)));
      WrittenKeeps(s, r, Event(Some(s.subs[u].id), Some(data)));
      DroppedKeeps(w, a);
    }
  }

  // ----- the heart-beat: stream by stream, and all at once -----

  lemma ReapedKeeps(s: State, a: Address)
    requires Consistent(s) && a in s.streamHeap
    ensures Consistent(Reaped(s, a))
  {
    hide RequestsOk, MemoryOk, SubscriptionsOk;
    ReapedTables(s.subs, s.streamHeap, s.next, a);
  }

  lemma ReapedTables(subs: map<Address, Subscription>, h: map<Address, Stream>, next: Address, a: Address)
    requires SubscriptionsOk(subs, h, next) && a in h
    ensures SubscriptionsOk(KeptSubscriptions(subs, {a}), h - {a}, next)
  {
    assert forall b, k, u :: HoldsSubscription(h - {a}, b, k, u) <==> b != a && HoldsSubscription(h, b, k, u);
  }

  lemma BeatKeeps(s: State, id: string, writeOk: bool)
    requires Consistent(s) && id in s.streams
    ensures Consistent(Beat(s, id, writeOk))
  {
    hide RequestsOk, MemoryOk, SubscriptionsOk;
    var a := s.streams[id];
    match s.streamHeap[a].req
    case None => ReapedKeeps(s, a);
    case Some(r) =>
      WrittenKeeps(s, r, HEART_BEAT);
      DroppedKeeps(Written(s, r, HEART_BEAT), a);
  }

  lemma NothingBeaten(s: State)
    ensures BeatenHeap(s.heap, {}, {}) == s.heap
    ensures BeatenStreams(s.streamHeap, {}, {}) == s.streamHeap
    ensures KeptSubscriptions(s.subs, {}) == s.subs
    ensures (map id | id in s.streams && s.streams[id] !in {} :: s.streams[id]) == s.streams
  {
    hide Write;
  }

  lemma BeatenNothing(s: State, ok: set<string>)
    ensures Reachable(s, {}) && Beaten(s, {}, ok) == s
  {
    hide BeatenHeap, BeatenStreams, KeptSubscriptions, Without;
    WithoutNothing(s.list);
    NothingBeaten(s);
    assert Deserted(s, {}) == {} && Connections(s, {}) == {} && {} - ok == {};
    assert s.freed + multiset({}) == s.freed;
  }

  lemma {:induction false} WithoutNothing(l: seq<Address>)
    ensures Without(l, {}) == l
  {
    if l != [] {
      WithoutNothing(l[1..]);
    }
  }

  lemma {:induction false} WithoutTwice(l: seq<Address>, x: set<Address>, y: set<Address>)
    ensures Without(Without(l, x), y) == Without(l, x + y)
  {
    if l != [] {
      WithoutTwice(l[1..], x, y);
    }
  }

  /** How the sets behind the closed form grow with one more stream. */
  lemma SetsGrow(s: State, ids: set<string>, id: string)
    requires Consistent(s) && ids <= s.streams.Keys && id in s.streams && id !in ids
    ensures Reachable(s, ids) && Reachable(s, ids + {id}) && s.streams[id] in s.streamHeap
    ensures var a := s.streams[id];
            a !in Deserted(s, ids) &&
            Deserted(s, ids + {id}) == Deserted(s, ids) + (if s.streamHeap[a].req == None then {a} else {}) &&
            Connections(s, ids + {id}) ==
            Connections(s, ids) + (if s.streamHeap[a].req.Some? then {s.streamHeap[a].req.value} else {}) &&
            (s.streamHeap[a].req.Some? ==> s.streamHeap[a].req.value !in Connections(s, ids))
  {
    hide RequestsOk, MemoryOk, SubscriptionsOk;
  }

  /** The stream whose turn it is was not touched by the turns before. */
  lemma TurnStart(s: State, ids: set<string>, ok: set<string>, id: string)
    requires Consistent(s) && ids <= s.streams.Keys && id in s.streams && id !in ids
    ensures Reachable(s, ids) && Reachable(s, ids - ok) && s.streams[id] in s.streamHeap
    ensures var t, a := Beaten(s, ids, ok), s.streams[id];
            id in t.streams && t.streams[id] == a && a in t.streamHeap && t.streamHeap[a] == s.streamHeap[a] &&
            t.streamHeap[a].key == id &&
            (s.streamHeap[a].req.Some? ==>
               var r := s.streamHeap[a].req.value;
               r in t.heap && r in s.heap && t.heap[r] == s.heap[r] &&
               r !in Connections(s, ids) && r !in Connections(s, ids - ok))
  {
    hide RequestsOk, MemoryOk, SubscriptionsOk, Deserted, Connections, Write;
    SetsGrow(s, ids, id);
    SetsGrow(s, ids - ok, id);
  }

  lemma BeatenHeapGrows(heap: map<Address, Request>, beaten: set<Address>, lost: set<Address>, r: Address)
    requires r in heap && r !in beaten && r !in lost
    ensures BeatenHeap(heap, beaten + {r}, lost) == BeatenHeap(heap, beaten, lost)[r := Write(heap[r], HEART_BEAT)]
    ensures BeatenHeap(heap, beaten + {r}, lost + {r}) ==
            BeatenHeap(heap, beaten, lost)[r := Write(heap[r], HEART_BEAT)] - {r}
  {
    hide Write;
  }

  lemma BeatenStreamsGrow(h: map<Address, Stream>, deserted: set<Address>, lost: set<Address>, a: Address, r: Address)
    requires a in h && a !in deserted && r !in lost && h[a].req == Some(r)
    requires forall b :: b in h && h[b].req == Some(r) ==> b == a
    ensures a in BeatenStreams(h, deserted, lost)
    ensures BeatenStreams(h, deserted, lost + {r}) ==
            var g := BeatenStreams(h, deserted, lost); g[a := g[a].(req := None)]
  {
  }

  lemma FreedGrows(freed: multiset<Address>, lost: set<Address>, r: Address)
    requires r !in lost
    ensures freed + multiset(lost + {r}) == freed + multiset(lost) + multiset{r}
  {
  }

  /** The closed form follows the loop: one more stream, one more turn. */
  lemma BeatenStep(s: State, ids: set<string>, ok: set<string>, id: string)
    requires Consistent(s) && ids <= s.streams.Keys && id in s.streams && id !in ids
    requires Reachable(s, ids) && Consistent(Beaten(s, ids, ok))
    ensures Reachable(s, ids + {id}) && id in Beaten(s, ids, ok).streams
    ensures Beat(Beaten(s, ids, ok), id, id in ok) == Beaten(s, ids + {id}, ok)
  {
    hide Consistent, Write, Deserted, Connections, Reachable, BeatenHeap, BeatenStreams, KeptSubscriptions, Without;
    SetsGrow(s, ids, id);
    SetsGrowOk(s, ids, ok, id);
    TurnStart(s, ids, ok, id);
    var a := s.streams[id];
    var d, b, l := Deserted(s, ids), Connections(s, ids), Connections(s, ids - ok);
    match s.streamHeap[a].req
    case None =>
      ReapGrows(s, d, b, l, a, id);
    case Some(r) =>
      OneOwner(s, a, r);
      BeatenHeapGrows(s.heap, b, l, r);
      BeatenStreamsGrow(s.streamHeap, d, l, a, r);
      FreedGrows(s.freed, l, r);
      WithoutTwice(s.list, l, {r});
      assert d + {} == d && b + {} == b && l + {} == l;
  }

  lemma OneOwner(s: State, a: Address, r: Address)
    requires Consistent(s) && a in s.streamHeap && s.streamHeap[a].req == Some(r)
    ensures forall b :: b in s.streamHeap && s.streamHeap[b].req == Some(r) ==> b == a
  {
  }

  lemma SetsGrowOk(s: State, ids: set<string>, ok: set<string>, id: string)
    requires Consistent(s) && ids <= s.streams.Keys && id in s.streams && id !in ids
    ensures Reachable(s, (ids + {id}) - ok) && Reachable(s, ids - ok) && s.streams[id] in s.streamHeap
    ensures var a := s.streams[id];
            Connections(s, (ids + {id}) - ok) ==
            Connections(s, ids - ok) +
            (if id !in ok && s.streamHeap[a].req.Some? then {s.streamHeap[a].req.value} else {})
  {
    hide Consistent, Connections, Deserted;
    SetsGrow(s, ids - ok, id);
    if id in ok {
      assert (ids + {id}) - ok == ids - ok;
    } else {
      assert (ids + {id}) - ok == (ids - ok) + {id};
    }
  }

  lemma ReapGrows(s: State, d: set<Address>, b: set<Address>, l: set<Address>, a: Address, id: string)
    requires Consistent(s) && id in s.streams && s.streams[id] == a && a in s.streamHeap && a !in d
    requires s.streamHeap[a].req == None && s.streamHeap[a].key == id
    ensures BeatenStreams(s.streamHeap, d + {a}, l) == BeatenStreams(s.streamHeap, d, l) - {a}
    ensures KeptSubscriptions(s.subs, d + {a}) == KeptSubscriptions(KeptSubscriptions(s.subs, d), {a})
    ensures (map i | i in s.streams && s.streams[i] !in d + {a} :: s.streams[i]) ==
            (map i | i in s.streams && s.streams[i] !in d :: s.streams[i]) - {id}
    ensures b + {} == b && l + {} == l
  {
    hide RequestsOk, MemoryOk, LinksOk, SubscriptionsOk;
  }

  lemma {:induction false} BeatenKeeps(s: State, ids: set<string>, ok: set<string>)
    requires Consistent(s) && ids <= s.streams.Keys
    ensures Reachable(s, ids) && Consistent(Beaten(s, ids, ok))
    decreases |ids|
  {
    hide RequestsOk, MemoryOk, LinksOk, SubscriptionsOk, Beaten, Beat;
    if ids == {} {
      BeatenNothing(s, ok);
    } else {
      var id :| id in ids;
      BeatenKeeps(s, ids - {id}, ok);
      BeatenStep(s, ids - {id}, ok, id);
      BeatKeeps(Beaten(s, ids - {id}, ok), id, id in ok);
      assert (ids - {id}) + {id} == ids;
    }
  }

  lemma TickedKeeps(s: State, ok: set<string>)
    requires Consistent(s)
    ensures Consistent(Ticked(s, ok))
  {
    hide RequestsOk, MemoryOk, StreamsOk, LinksOk, SubscriptionsOk, Beaten;
    BeatenKeeps(s, s.streams.Keys, ok);
  }

  lemma {:induction false} ListedOnce(l: seq<Address>)
    requires NoDuplicates(l)
    ensures multiset(l) == multiset(set a | a in l)
  {
    if l != [] {
      ListedOnce(l[1..]);
      var rest := set a | a in l[1..];
      assert l == [l[0]] + l[1..];
      assert (set a | a in l) == rest + {l[0]};
      assert l[0] !in l[1..];
    }
  }

  lemma StoppedKeeps(s: State)
    requires Consistent(s)
    ensures Consistent(Stopped(s)) && Stopped(s).freed == s.freed + multiset(s.heap.Keys)
  {
    hide StreamsOk, LinksOk, SubscriptionsOk, MemoryOk;
    ListedOnce(s.list);
    assert (set a | a in s.list) == s.heap.Keys;
    AllFreed(s.heap.Keys, s.freed, s.next);
    NothingIsConsistent(s.next);
    assert Stopped(s).heap.Keys == {};
  }

  lemma AllFreed(alive: set<Address>, freed: multiset<Address>, next: Address)
    requires MemoryOk(alive, freed, next)
    ensures MemoryOk({}, freed + multiset(alive), next)
  {
  }

  lemma NothingIsConsistent(next: Address)
    ensures RequestsOk(map[], []) && StreamsOk(map[], map[], next) && LinksOk(map[], {}) &&
            SubscriptionsOk(map[], map[], next)
  {
  }

  lemma NextKeeps(s: State, step: Step)
    requires Consistent(s)
    ensures Consistent(Next(s, step))
  {
    hide Consistent, Handled, Notified, Ticked, Stopped;
    match step
    case Handle(inc) => HandledKeeps(s, inc);
    case Notify(u, data, passes, writeOk) =>
      if u in s.subs {
        NotifiedKeeps(s, u, data, writeOk);
      }
    case Tick(ok) => TickedKeeps(s, ok);
    case Stop => StoppedKeeps(s);
  }

  // ----- whole runs -----

  function After(s: State, steps: seq<Step>): (t: State)
    requires Consistent(s)
    ensures Consistent(t)
    decreases |steps|
  {
    if steps == [] then s
    else
      NextKeeps(s, steps[0]);
      After(Next(s, steps[0]), steps[1..])
  }

  lemma StartIsConsistent()
    ensures Consistent(EMPTY)
  {
    NothingIsConsistent(0);
  }

  /** In every reachable state: a stream's request is alive, listed once, an open-stream request and
      no other stream's; every subscription is found in the table of the stream it points back to. */
  lemma ReachableStates(steps: seq<Step>)
    ensures Consistent(EMPTY)
    ensures var s := After(EMPTY, steps);
            (forall a :: a in s.streamHeap && s.streamHeap[a].req.Some? ==>
                           var r := s.streamHeap[a].req.value;
                           r in s.heap && r in s.list && s.heap[r].kind == OpenStream && r !in s.freed &&
                           forall b :: b in s.streamHeap && s.streamHeap[b].req == Some(r) ==> b == a) &&
            (forall u :: u in s.subs ==>
                           var a := s.subs[u].owner;
                           a in s.streamHeap && s.streamHeap[a].key in s.streams &&
                           HoldsSubscription(s.streamHeap, a, s.subs[u].id, u))
  {
    StartIsConsistent();
    var s := After(EMPTY, steps);
    LivesFacts(s);
  }

  lemma LivesFacts(s: State)
    requires Consistent(s)
    ensures forall a :: a in s.streamHeap && s.streamHeap[a].req.Some? ==>
                          var r := s.streamHeap[a].req.value;
                          r in s.heap && r in s.list && s.heap[r].kind == OpenStream && r !in s.freed &&
                          forall b :: b in s.streamHeap && s.streamHeap[b].req == Some(r) ==> b == a
    ensures forall u :: u in s.subs ==>
                          var a := s.subs[u].owner;
                          a in s.streamHeap && s.streamHeap[a].key in s.streams &&
                          HoldsSubscription(s.streamHeap, a, s.subs[u].id, u)
  {
    hide NoDuplicates;
  }

  // ----- nothing leaks, nothing is freed twice -----

  /** The request that a step brings in, if it brings one in. */
  function Issued(s: State, step: Step): set<Address> {
    if step.Handle? then {s.next} else {}
  }

  /** All requests that a run brings in. */
  function IssuedBy(s: State, steps: seq<Step>): set<Address>
    requires Consistent(s)
    decreases |steps|
  {
    if steps == [] then {}
    else
      NextKeeps(s, steps[0]);
      Issued(s, steps[0]) + IssuedBy(Next(s, steps[0]), steps[1..])
  }

  /** What has been freed and what is alive, each counted once per address. */
  ghost function Accounted(s: State): multiset<Address> { s.freed + multiset(s.heap.Keys) }

  lemma FreedConserves(s: State, r: Address)
    requires r in s.heap
    ensures Accounted(Freed(s, r)) == Accounted(s)
  {
    assert Freed(s, r).heap.Keys == s.heap.Keys - {r};
  }

  lemma WrittenConserves(s: State, r: Address, e: Event)
    requires r in s.heap
    ensures Accounted(Written(s, r, e)) == Accounted(s)
  {
    assert Written(s, r, e).heap.Keys == s.heap.Keys;
  }

  lemma OpenedConserves(s: State, r: Address, probeOk: bool)
    requires Consistent(s) && r in s.heap
    requires forall b :: b in s.streamHeap ==> s.streamHeap[b].req != Some(r)
    ensures OpenReady(s, r)
    ensures Accounted(Opened(s, r, probeOk).0) == Accounted(s) && r in Opened(s, r, probeOk).0.heap
  {
    hide Consistent, Accounted, Freed, Written;
    OpenedKeeps(s, r, probeOk);
    var id := s.heap[r].path;
    if id in s.streams && s.streamHeap[s.streams[id]].req.Some? {
      var before := s.streamHeap[s.streams[id]].req.value;
      FreedConserves(s, before);
      WrittenConserves(s, before, PROBE);
    }
    SameMemory(s, Opened(s, r, probeOk).0);
    SameMemory(Freed(s, if id in s.streams && s.streamHeap[s.streams[id]].req.Some?
                        then s.streamHeap[s.streams[id]].req.value else r),
               Opened(s, r, probeOk).0);
  }

  lemma SameMemory(s: State, t: State)
    ensures s.heap == t.heap && s.freed == t.freed ==> Accounted(s) == Accounted(t)
  {
  }

  lemma HandledConserves(s: State, inc: Incoming)
    requires Consistent(s)
    ensures Accounted(Handled(s, inc)) == Accounted(s) + multiset{s.next}
  {
    hide Consistent, Opened, Accounted, Handled;
    if OpensStream(inc) {
      HandledOpen(s, inc);
      var req := NewRequest(inc);
      var t := TakenIn(s, req);
      TakenInKeeps(s, req);
      NewRequestIsUnlinked(s);
      TakenInAccounted(s, t, req);
      OpenedKeeps(t, s.next, inc.probeOk);
      OpenedConserves(t, s.next, inc.probeOk);
      var o := Opened(t, s.next, inc.probeOk);
      WrittenConserves(o.0, s.next, PROBE);
      WrittenConserves(Written(o.0, s.next, PROBE), s.next, ErrorEvent(o.1));
    } else {
      var t := Passed(s);
      ShortLivedAccounted(s, t);
      HandledShort(s, inc);
      SameMemory(t, Handled(s, inc));
    }
  }

  lemma TakenInAccounted(s: State, t: State, req: Request)
    requires s.next !in s.heap && t.heap == s.heap[s.next := req] && t.freed == s.freed
    ensures Accounted(t) == Accounted(s) + multiset{s.next}
  {
    assert t.heap.Keys == s.heap.Keys + {s.next};
  }

  lemma ShortLivedAccounted(s: State, t: State)
    requires t.heap == s.heap && t.freed == s.freed + multiset{s.next}
    ensures Accounted(t) == Accounted(s) + multiset{s.next}
  {
  }

  lemma BeatConserves(s: State, id: string, writeOk: bool)
    requires Consistent(s) && id in s.streams
    ensures Accounted(Beat(s, id, writeOk)) == Accounted(s)
  {
    hide RequestsOk, MemoryOk, SubscriptionsOk, Accounted;
    var a := s.streams[id];
    match s.streamHeap[a].req
    case None => SameMemory(s, Reaped(s, a));
    case Some(r) =>
      var w := Written(s, r, HEART_BEAT);
      WrittenConserves(s, r, HEART_BEAT);
      FreedConserves(w, r);
      SameMemory(Freed(w, r), Dropped(w, a));
  }

  lemma {:induction false} BeatenConserves(s: State, ids: set<string>, ok: set<string>)
    requires Consistent(s) && ids <= s.streams.Keys
    ensures Reachable(s, ids) && Accounted(Beaten(s, ids, ok)) == Accounted(s)
    decreases |ids|
  {
    hide RequestsOk, MemoryOk, LinksOk, SubscriptionsOk, Beaten, Beat, Accounted;
    if ids == {} {
      BeatenNothing(s, ok);
    } else {
      var id :| id in ids;
      BeatenConserves(s, ids - {id}, ok);
      BeatenKeeps(s, ids - {id}, ok);
      BeatenStep(s, ids - {id}, ok, id);
      BeatConserves(Beaten(s, ids - {id}, ok), id, id in ok);
      assert (ids - {id}) + {id} == ids;
    }
  }

  lemma NotifiedConserves(s: State, u: Address, data: string, writeOk: bool)
    requires Consistent(s) && u in s.subs
    ensures Accounted(Notified(s, u, data, writeOk)) == Accounted(s)
  {
    hide RequestsOk, MemoryOk, StreamsOk, Accounted;
    var a := s.subs[u].owner;
    if s.streamHeap[a].req.Some? {
      var r := s.streamHeap[a].req.value;
      var e := Event(Some(s.subs[u].id), Some(data));
      WrittenConserves(s, r, e);
      FreedConserves(Written(s, r, e), r);
      SameMemory(Freed(Written(s, r, e), r), Dropped(Written(s, r, e), a));
    }
  }

  /** One step: alive plus freed grows by exactly the request that the step brings in. */
  lemma NextConserves(s: State, step: Step)
    requires Consistent(s)
    ensures Accounted(Next(s, step)) == Accounted(s) + multiset(Issued(s, step))
  {
    hide Consistent, Handled, Notified, Beaten, Stopped, Accounted;
    var none: set<Address> := {};
    assert multiset(none) == multiset{};
    assert Accounted(s) + multiset{} == Accounted(s);
    match step
    case Handle(inc) =>
      HandledConserves(s, inc);
      assert multiset({s.next}) == multiset{s.next};
    case Notify(u, data, passes, writeOk) =>
      if u in s.subs {
        NotifiedConserves(s, u, data, writeOk);
      }
    case Tick(ok) =>
      BeatenConserves(s, s.streams.Keys, ok);
      SameMemory(Beaten(s, s.streams.Keys, ok), Ticked(s, ok));
    case Stop =>
      StopConserves(s);
  }

  lemma StopConserves(s: State)
    requires Consistent(s)
    ensures Accounted(Stopped(s)) == Accounted(s)
  {
    hide Consistent;
    StoppedKeeps(s);
    assert Stopped(s).heap.Keys == {};
  }
}
