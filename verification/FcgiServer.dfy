/** The callbacks of the FastCGI service as they work on its memory, one small change at a time.
    Reading or freeing a record needs its address to be in the heap, so each method's proof includes
    that it touches nothing that was freed. */
module FcgiServer {
  import opened Wrappers
  import opened FcgiState
  import opened EventWriter
  import opened FcgiRuns

  class Server {
    var heap: map<Address, Request>
    var requests: seq<Address>
    var streams: map<string, Address>
    var streamHeap: map<Address, Stream>
    var subs: map<Address, Subscription>
    var next: Address
    var keepAlive: Option<nat>
    ghost var answers: map<Address, nat>
    ghost var freed: multiset<Address>

    ghost function State(): FcgiState.State
      reads this
    {
      FcgiState.State(heap, requests, streams, streamHeap, subs, next, freed, keepAlive, answers)
    }

    constructor ()
      ensures State() == EMPTY && Consistent(State())
    {
      heap, requests, streams, streamHeap, subs, next, keepAlive := map[], [], map[], map[], map[], 0, None;
      freed, answers := multiset{}, map[];
      new;
      StartIsConsistent();
    }

    // ----- primitives -----

    /** `amx_fcgi_send_event`: a request is there; 0 when the write got through, -1 otherwise. */
    method SendEvent(r: Address, e: Event, writeOk: bool) returns (rv: int)
      requires r in heap
      modifies `heap
      ensures State() == Written(old(State()), r, e) && rv == (if writeOk then 0 else -1)
    {
      var req := heap[r];
      var out := req.wire + Line("Content-type", "text/event-stream");
      out := out + Line("Cache-Control", "no-cache");
      if e.data == None {
        out := out + Line("id", Printed(req.eventId));
        if e.name.Some? && e.name.value != "" {
          out := out + Line("event", e.name.value);
        }
        out := out + (Line("data", "") + CRLF);
      } else {
        out := out + Line("id", Printed(req.eventId));
        out := out + Line("event", NameText(e));
        out := out + (Line("data", e.data.value) + CRLF);
      }
      BlockIsWritten(req.wire, req.eventId, e);
      heap := heap[r := req.(sent := req.sent + [e], eventId := (req.eventId + 1) % COUNTER_RANGE, wire := out)];
      rv := if writeOk then 0 else -1;
    }

    /** Takes the request out of the list and frees it. */
    method FreeRequest(r: Address)
      requires r in heap
      modifies `heap, `requests, `freed
      ensures State() == Freed(old(State()), r)
      ensures streams == old(streams) && streamHeap == old(streamHeap) && subs == old(subs) &&
              keepAlive == old(keepAlive)
    {
      requests := Without(requests, {r});
      heap := heap - {r};
      freed := freed + multiset{r};
    }

    method CloseStreamRequest(a: Address)
      requires a in streamHeap && streamHeap[a].req.Some? && streamHeap[a].req.value in heap
      modifies `heap, `requests, `freed, `streamHeap
      ensures State() == Dropped(old(State()), a)
    {
      FreeRequest(streamHeap[a].req.value);
      streamHeap := streamHeap[a := streamHeap[a].(req := None)];
    }

    /** Frees the subscriptions in the table of stream `a`. */
    method CleanSubscriptions(a: Address)
      requires Consistent(State()) && a in streamHeap
      modifies `subs
      ensures subs == KeptSubscriptions(old(subs), {a})
    {
      hide Consistent, KeptSubscriptions;
      ghost var s := State();
      OwnedAreListed(s, a);
      var todo := streamHeap[a].subscriptions;
      while todo != map[]
        invariant forall id :: id in todo ==>
                    id in s.streamHeap[a].subscriptions && todo[id] == s.streamHeap[a].subscriptions[id]
        invariant forall u :: u in subs <==> u in s.subs && (s.subs[u].owner == a ==> s.subs[u].id in todo)
        invariant forall u :: u in subs ==> subs[u] == s.subs[u]
        decreases |todo|
      {
        var id :| id in todo;
        DistinctSubscriptions(s, a, id);
        subs := subs - {todo[id]};
        todo := todo - {id};
      }
      KeptAre(s.subs, subs, a);
    }

    /** Takes the stream out of the table and frees it with all its subscriptions. */
    method CleanStream(a: Address)
      requires Consistent(State()) && a in streamHeap
      modifies `streams, `streamHeap, `subs
      ensures State() == Reaped(old(State()), a)
    {
      var key := streamHeap[a].key;
      CleanSubscriptions(a);
      streams := streams - {key};
      streamHeap := streamHeap - {a};
    }

    // ----- the handlers that differ -----

    method OpenStream(r: Address, probeOk: bool) returns (status: nat)
      requires OpenReady(State(), r)
      modifies this
      ensures (State(), status) == Opened(old(State()), r, probeOk)
    {
      hide Without, Write;
      status := 200;
      var id := heap[r].path;
      if id in streams {
        var a := streams[id];
        if streamHeap[a].req.Some? {
          var before := streamHeap[a].req.value;
          var rv := SendEvent(before, PROBE, probeOk);
          if rv >= 0 {
            status := 400;
            return;
          }
          WrittenThenFreed(old(State()), before, PROBE);
          FreeRequest(before);
          streamHeap := streamHeap[a := streamHeap[a].(req := None)];
        }
        streamHeap := streamHeap[a := streamHeap[a].(req := Some(r))];
        assert streamHeap == old(streamHeap)[a := old(streamHeap)[a].(req := Some(r))];
      } else if id != "" {
        var a := next;
        streams := streams[id := a];
        streamHeap := streamHeap[a := Stream(id, Some(r), map[])];
        next := next + 1;
      }
      if keepAlive == None {
        keepAlive := Some(HEART_BEAT_TIME);
      }
    }

    method Subscribe(path: string, d: SubscribeData) returns (status: nat)
      requires forall id :: id in streams ==> streams[id] in streamHeap
      modifies `subs, `streamHeap, `next
      ensures (State(), status) == Subscribed(old(State()), path, d)
    {
      if !d.hasPath || path == "" || d.id == "" || !d.listOk {
        return 400;
      }
      if path !in streams {
        return 400;
      }
      var a := streams[path];
      if d.id in streamHeap[a].subscriptions {
        return 400;
      }
      if !d.onBus {
        return 404;
      }
      if !d.allowed {
        return 403;
      }
      var u := next;
      if !d.accepted {
        return 400;
      }
      subs := subs[u := Subscription(a, d.id)];
      streamHeap := streamHeap[a := streamHeap[a].(subscriptions := streamHeap[a].subscriptions[d.id := u])];
      next := next + 1;
      status := 200;
    }

    method Unsubscribe(path: string, info: string) returns (status: nat)
      requires forall id :: id in streams ==> streams[id] in streamHeap
      modifies `subs, `streamHeap
      ensures (State(), status) == Unsubscribed(old(State()), path, info)
    {
      if path == "" || info == "" || path !in streams {
        return 400;
      }
      var a := streams[path];
      if info !in streamHeap[a].subscriptions {
        return 404;
      }
      var u := streamHeap[a].subscriptions[info];
      streamHeap := streamHeap[a := streamHeap[a].(subscriptions := streamHeap[a].subscriptions - {info})];
      subs := subs - {u};
      status := 200;
    }

    // ----- the callbacks -----

    /** 0: the request was taken care of, otherwise the caller still has to free it. */
    method Respond(r: Address, status: nat) returns (rv: int)
      requires r in heap
      modifies this
      ensures heap.Keys <= old(heap.Keys)
      ensures old(heap[r]).kind == FcgiState.OpenStream ==> rv == 0 && State() == StreamAnswer(old(State()), r, status)
      ensures old(heap[r]).kind != FcgiState.OpenStream ==>
                (rv == 0 <==> status < 400) &&
                State() == if rv == 0 then Freed(Answered(old(State()), r, status), r)
                           else Answered(old(State()), r, status)
    {
      rv := -1;
      if heap[r].kind != FcgiState.OpenStream {
        PutStatus(r, status);
        if status >= 400 {
          return;
        }
        FreeRequest(r);
      } else {
        var sent := SendEvent(r, PROBE, true);
        if status >= 400 {
          sent := SendEvent(r, ErrorEvent(status), true);
        }
      }
      rv := 0;
    }

    /** `amx_fcgi_handle`: from the new request to its answer; every exit path frees what has to go. */
    method Handle(inc: Incoming)
      requires Consistent(State())
      modifies this
      ensures State() == Handled(old(State()), inc) && Consistent(State())
    {
      hide Consistent, Handled, TakenIn, Allocated, Freed, Answered, NewRequest;
      HandledKeeps(State(), inc);
      ghost var s := State();
      EarlyExits(s, inc);
      var r := Allocate(inc);
      if !inc.initOk {
        FreeRequest(r);
        return;
      }
      requests := requests + [r];
      if !inc.acceptOk {
        FreeRequest(r);
        return;
      }
      if !inc.inputOk {
        PutStatus(r, 400);
        FreeRequest(r);
        return;
      }
      var rv;
      if inc.kind == FcgiState.OpenStream {
        rv := HandleOpen(s, r, inc);
      } else {
        rv := HandleOther(s, r, inc);
      }
      if rv != 0 {
        FreeRequest(r);
      }
    }

    /** The `calloc`: the request is not in the list yet. */
    method Allocate(inc: Incoming) returns (r: Address)
      modifies `heap, `next
      ensures r == old(next) && State() == Allocated(old(State()), inc) && r in heap
    {
      r := next;
      next := next + 1;
      heap := heap[r := NewRequest(inc)];
    }

    /** The status line of a response. */
    method PutStatus(r: Address, status: nat)
      modifies `answers
      ensures State() == Answered(old(State()), r, status)
    {
      answers := answers[r := status];
    }

    /** All the other handlers; when the answer is an error the caller still has to free the request. */
    method HandleOther(ghost s: FcgiState.State, r: Address, inc: Incoming) returns (rv: int)
      requires Consistent(s) && r == s.next && inc.initOk && inc.acceptOk && inc.inputOk
      requires inc.kind != FcgiState.OpenStream
      requires State() == TakenIn(s, NewRequest(inc))
      modifies this
      ensures rv == 0 ==> State() == Handled(s, inc)
      ensures rv != 0 ==> r in heap && Freed(State(), r) == Handled(s, inc)
    {
      hide Consistent, Handled, TakenIn, Subscribed, Unsubscribed, Freed;
      HandlersLeaveRequests(s, inc);
      TakenInHas(s, inc);
      var status := inc.status;
      if inc.kind == FcgiState.Subscribe {
        status := Subscribe(inc.path, inc.subscription);
      } else if inc.kind == FcgiState.Unsubscribe {
        status := Unsubscribe(inc.path, inc.info);
      }
      rv := Respond(r, status);
    }

    method HandleOpen(ghost s: FcgiState.State, r: Address, inc: Incoming) returns (rv: int)
      requires Consistent(s) && r == s.next && inc.initOk && inc.acceptOk && inc.inputOk
      requires inc.kind == FcgiState.OpenStream
      requires State() == TakenIn(s, NewRequest(inc))
      modifies this
      ensures rv == 0 && State() == Handled(s, inc)
    {
      hide Numbered, Block;
      ghost var t := State();
      NewIsNumbered(inc);
      TakenInKeeps(s, NewRequest(inc));
      NewRequestIsUnlinked(s);
      OpenedKeeps(t, r, inc.probeOk);
      var status := OpenStream(r, inc.probeOk);
      OpenedKeepsKind(t, r, inc.probeOk);
      rv := Respond(r, status);
    }

    /** `amx_fcgi_handle_event` for one subscription; its stream is found through the subscription. */
    method HandleEvent(u: Address, data: string, passes: bool, writeOk: bool)
      requires Consistent(State()) && u in subs
      modifies this
      ensures State() == (if passes then Notified(old(State()), u, data, writeOk) else old(State()))
      ensures Consistent(State())
    {
      NotifiedKeeps(State(), u, data, writeOk);
      LivesFacts(State());
      if passes {
        var a := subs[u].owner;
        var rv := 0;
        if streamHeap[a].req.Some? {
          rv := SendEvent(streamHeap[a].req.value, Event(Some(subs[u].id), Some(data)), writeOk);
        }
        if rv < 0 {
          CloseStreamRequest(a);
        }
      }
    }

    /** The timer's work on one stream; `calm` when it had a connection and the write got through. */
    method BeatStream(id: string, writeOk: bool) returns (calm: bool)
      requires Consistent(State()) && id in streams
      modifies this
      ensures State() == Beat(old(State()), id, writeOk)
      ensures calm <==> old(streams[id] in streamHeap && streamHeap[streams[id]].req.Some?) && writeOk
    {
      hide Consistent, Reaped, Write;
      TablesReachable(State());
      LivesFacts(State());
      var a := streams[id];
      if streamHeap[a].req == None {
        CleanStream(a);
        return false;
      }
      var rv := SendEvent(streamHeap[a].req.value, HEART_BEAT, writeOk);
      if rv < 0 {
        CloseStreamRequest(a);
      }
      calm := rv >= 0;
    }

    /** `amx_fcgi_send_empty`: the streams in some order; reaping and failing writes shorten the interval. */
    method SendEmpty(ok: set<string>)
      requires Consistent(State())
      modifies this
      ensures State() == Ticked(old(State()), ok) && Consistent(State())
    {
      hide Consistent, Beaten, Beat, Reachable;
      ghost var s := State();
      TickedKeeps(s, ok);
      TablesReachable(s);
      BeatenNothing(s, ok);
      var interval := HEART_BEAT_TIME;
      var todo := streams.Keys;
      ghost var done: set<string> := {};
      while todo != {}
        invariant todo !! done && todo + done == s.streams.Keys
        invariant Reachable(s, done) && Consistent(State()) && State() == Beaten(s, done, ok)
        invariant interval ==
                  if forall id :: id in done ==> s.streamHeap[s.streams[id]].req.Some? && id in ok
                  then HEART_BEAT_TIME else HEART_BEAT_CHECK
        decreases todo
      {
        var id :| id in todo;
        TurnStart(s, done, ok, id);
        BeatenStep(s, done, ok, id);
        BeatKeeps(State(), id, id in ok);
        var calm := BeatStream(id, id in ok);
        if !calm {
          interval := HEART_BEAT_CHECK;
        }
        todo, done := todo - {id}, done + {id};
      }
      assert done == s.streams.Keys;
      keepAlive := Some(interval);
    }

    /** The end of the service: every listed request is finished and freed, then the streams go. */
    method Stop()
      requires Consistent(State())
      modifies this
      ensures State() == Stopped(old(State())) && Consistent(State())
    {
      assert Consistent(Stopped(State())) by {
        StoppedKeeps(State());
      }
      hide Consistent, NoDuplicates;
      FreeAllRequests();
      CleanAllStreams();
      requests, keepAlive := [], None;
    }

    method CleanAllStreams()
      modifies `streams, `streamHeap, `subs
      ensures streams == map[] && streamHeap == map[] && subs == map[]
    {
      streams, streamHeap, subs := map[], map[], map[];
    }

    method FreeAllRequests()
      requires Consistent(State())
      modifies `heap, `freed
      ensures heap == map[] && freed == old(freed) + multiset(requests)
    {
      ghost var s := State();
      ListIsHeap(s);
      hide Consistent;
      var list := requests;
      while list != []
        invariant NoDuplicates(list)
        invariant freed + multiset(list) == s.freed + multiset(s.list)
        invariant forall r :: r in heap <==> r in list
      {
        var r := list[0];
        FirstGoes(list);
        heap := heap - {r};
        freed := freed + multiset{r};
        list := list[1..];
      }
    }
  }

  // ----- facts the methods rely on -----

  lemma TakenInHas(s: State, inc: Incoming)
    ensures var t := TakenIn(s, NewRequest(inc)); s.next in t.heap && t.heap[s.next].kind == inc.kind
  {
  }

  function Allocated(s: State, inc: Incoming): State {
    s.(heap := s.heap[s.next := NewRequest(inc)], next := s.next + 1)
  }

  /** The exits before the handlers: the request is freed, listed or not, and answered or not. */
  lemma EarlyExits(s: State, inc: Incoming)
    requires Consistent(s)
    ensures var r, a, t := s.next, Allocated(s, inc), TakenIn(s, NewRequest(inc));
            r in a.heap && r in t.heap && a.(list := a.list + [r]) == t && Answered(t, r, 400).heap == t.heap &&
            (!inc.initOk ==> Freed(a, r) == Handled(s, inc)) &&
            (inc.initOk && !inc.acceptOk ==> Freed(t, r) == Handled(s, inc)) &&
            (inc.initOk && inc.acceptOk && !inc.inputOk ==> Freed(Answered(t, r, 400), r) == Handled(s, inc))
  {
    hide Consistent, Without, Handled, NewRequest;
    NewThenFreed(s, NewRequest(inc));
    if !inc.initOk || !inc.acceptOk || !inc.inputOk {
      HandledOther(s, inc);
    }
  }

  lemma BlockIsWritten(wire: string, id: nat, e: Event)
    ensures var out := wire + Line("Content-type", "text/event-stream") + Line("Cache-Control", "no-cache") +
                       Line("id", Printed(id));
            var last := Line("data", DataText(e)) + CRLF;
            wire + Block(id, e) == out + EventLine(e) + last &&
            (EventLine(e) == "" ==> wire + Block(id, e) == out + last)
  {
    hide Line, Printed;
    var a, b, c := Line("Content-type", "text/event-stream"), Line("Cache-Control", "no-cache"),
        Line("id", Printed(id));
    var d := Line("data", DataText(e)) + CRLF;
    assert wire + (a + (b + (c + (EventLine(e) + d)))) == wire + a + b + c + EventLine(e) + d;
    if EventLine(e) == "" {
      assert wire + a + b + c + "" == wire + a + b + c;
    }
  }

  lemma NewThenFreed(s: State, req: Request)
    requires Consistent(s)
    ensures s.heap[s.next := req] - {s.next} == s.heap
    ensures Without(s.list, {s.next}) == s.list && Without(s.list + [s.next], {s.next}) == s.list
  {
    hide StreamsOk, LinksOk, SubscriptionsOk, Without;
    WithoutStranger(s.list, s.next);
    WithoutLast(s.list, s.next);
  }

  lemma {:induction false} WithoutStranger(l: seq<Address>, r: Address)
    requires r !in l
    ensures Without(l, {r}) == l
  {
    if l != [] {
      WithoutStranger(l[1..], r);
    }
  }

  lemma {:induction false} WithoutLast(l: seq<Address>, r: Address)
    ensures Without(l + [r], {r}) == Without(l, {r})
  {
    if l != [] {
      WithoutLast(l[1..], r);
      assert (l + [r])[1..] == l[1..] + [r];
    }
  }

  /** Neither of the two table handlers reads or writes requests. */
  lemma TablesOnly(t: State, p: State, inc: Incoming)
    requires forall id :: id in t.streams ==> t.streams[id] in t.streamHeap
    requires t == p.(heap := t.heap, list := t.list, freed := t.freed)
    ensures var u, v := Subscribed(t, inc.path, inc.subscription), Subscribed(p, inc.path, inc.subscription);
            u.1 == v.1 && u.0 == v.0.(heap := t.heap, list := t.list, freed := t.freed)
    ensures var u, v := Unsubscribed(t, inc.path, inc.info), Unsubscribed(p, inc.path, inc.info);
            u.1 == v.1 && u.0 == v.0.(heap := t.heap, list := t.list, freed := t.freed) &&
            v.0 == p.(subs := v.0.subs, streamHeap := v.0.streamHeap)
    ensures var v := Subscribed(p, inc.path, inc.subscription).0;
            v == p.(subs := v.subs, streamHeap := v.streamHeap, next := v.next)
  {
  }

  lemma HandlersLeaveRequests(s: State, inc: Incoming)
    requires Consistent(s) && !OpensStream(inc) && inc.initOk && inc.acceptOk && inc.inputOk
    ensures var t, r := TakenIn(s, NewRequest(inc)), s.next;
            (forall id :: id in t.streams ==> t.streams[id] in t.streamHeap) &&
            var u := if inc.kind == FcgiState.Subscribe then Subscribed(t, inc.path, inc.subscription)
                     else if inc.kind == FcgiState.Unsubscribe then Unsubscribed(t, inc.path, inc.info)
                     else (t, inc.status);
            u.0.heap == t.heap && Freed(Answered(u.0, r, u.1), r) == Handled(s, inc)
  {
    hide Consistent, Without, Handled, Subscribed, Unsubscribed;
    HandledOther(s, inc);
    NewThenFreed(s, NewRequest(inc));
    TablesOnly(TakenIn(s, NewRequest(inc)), Passed(s), inc);
  }

  lemma WrittenThenFreed(s: State, r: Address, e: Event)
    requires r in s.heap
    ensures Freed(Written(s, r, e), r) == Freed(s, r)
  {
    assert s.heap[r := Write(s.heap[r], e)] - {r} == s.heap - {r};
  }

  lemma OpenedKeepsKind(s: State, r: Address, probeOk: bool)
    requires Consistent(s) && r in s.heap
    requires forall b :: b in s.streamHeap ==> s.streamHeap[b].req != Some(r)
    ensures OpenReady(s, r)
    ensures r in Opened(s, r, probeOk).0.heap && Opened(s, r, probeOk).0.heap[r].kind == s.heap[r].kind
  {
    hide RequestsOk, MemoryOk, SubscriptionsOk, Without;
  }

  /** A table entry and its subscription belong to each other alone. */
  lemma DistinctSubscriptions(s: State, a: Address, id: string)
    requires Consistent(s) && a in s.streamHeap && id in s.streamHeap[a].subscriptions
    ensures var u := s.streamHeap[a].subscriptions[id];
            u in s.subs && s.subs[u] == Subscription(a, id) &&
            forall v :: v in s.subs && s.subs[v] == Subscription(a, id) ==> v == u
  {
    hide RequestsOk, MemoryOk, StreamsOk, LinksOk;
    assert HoldsSubscription(s.streamHeap, a, id, s.streamHeap[a].subscriptions[id]);
  }

  lemma OwnedAreListed(s: State, a: Address)
    requires Consistent(s)
    ensures forall u :: u in s.subs && s.subs[u].owner == a ==>
              a in s.streamHeap && s.subs[u].id in s.streamHeap[a].subscriptions
  {
  }

  lemma KeptAre(before: map<Address, Subscription>, after: map<Address, Subscription>, a: Address)
    requires forall u :: u in after <==> u in before && before[u].owner != a
    requires forall u :: u in after ==> after[u] == before[u]
    ensures after == KeptSubscriptions(before, {a})
  {
  }

  lemma ListIsHeap(s: State)
    requires Consistent(s)
    ensures NoDuplicates(s.list) && forall r :: r in s.list <==> r in s.heap
  {
  }

  lemma FirstGoes(l: seq<Address>)
    requires NoDuplicates(l) && l != []
    ensures NoDuplicates(l[1..]) && l[0] !in l[1..] && l == [l[0]] + l[1..]
    ensures multiset(l) == multiset{l[0]} + multiset(l[1..])
  {
    assert l == [l[0]] + l[1..];
  }
}
