/** What single steps of the FastCGI service do, said of the state before and after. */
module FcgiSteps {
  import opened Wrappers
  import opened EventWriter
  import opened EventText
  import opened FcgiState
  import opened FcgiRuns
  import opened FcgiProperties

  // ----- subscribing -----

  predicate Accepted(inc: Incoming) { inc.initOk && inc.acceptOk && inc.inputOk }

  predicate Taken(s: State, path: string, id: string) { Known(s, path) && id in Table(s, path) }

  /** Everything that a subscription needs: an existing stream, a free id, a resource that is on the bus,
      a caller who may see it, and a backend that agrees. */
  predicate MaySubscribe(s: State, inc: Incoming) {
    var d := inc.subscription;
    Accepted(inc) && inc.kind == Subscribe && Known(s, inc.path) && !Taken(s, inc.path, d.id) &&
    d.id != "" && d.hasPath && d.listOk && d.onBus && d.allowed && d.accepted
  }

  /** A request adds a subscription exactly when it may, namely the one it names under the stream it
      names; a subscribe request that may not changes no table. */
  lemma SubscribeExactly(s: State, inc: Incoming)
    requires Consistent(s)
    ensures var t := Next(s, Handle(inc));
            (exists u :: u in t.subs && u !in s.subs) <==> MaySubscribe(s, inc)
    ensures var t := Next(s, Handle(inc));
            MaySubscribe(s, inc) ==>
              var a, id := s.streams[inc.path], inc.subscription.id;
              exists u: Address :: u !in s.subs && t.subs == s.subs[u := Subscription(a, id)] &&
                          t.streams == s.streams &&
                          t.streamHeap ==
                          s.streamHeap[a := s.streamHeap[a].(subscriptions := s.streamHeap[a].subscriptions[id := u])]
    ensures var t := Next(s, Handle(inc));
            inc.kind == Subscribe && !MaySubscribe(s, inc) ==>
              t.subs == s.subs && t.streamHeap == s.streamHeap && t.streams == s.streams
  {
    hide Consistent, Handled, Subscribed, Unsubscribed, Opened;
    NextIsNew(s);
    TablesReachable(s);
    if OpensStream(inc) {
      HandledOpen(s, inc);
      OpenedIs(TakenIn(s, NewRequest(inc)), s.next, inc.probeOk);
    } else {
      HandledOther(s, inc);
      SubscribesWhenAllowed(Passed(s), inc.path, inc.subscription);
      SubscribedIs(Passed(s), inc.path, inc.subscription);
      UnsubscribedIs(Passed(s), inc.path, inc.info);
      TableFacts(s);
      if MaySubscribe(s, inc) {
        assert s.next + 1 !in s.subs && s.next + 1 in Next(s, Handle(inc)).subs;
      }
    }
  }

  lemma TableFacts(s: State)
    requires Consistent(s)
    ensures "" !in s.streams
    ensures forall id :: id in s.streams ==> Known(s, id)
    ensures (forall u :: u in s.subs ==> u < s.next) && forall a :: a in s.streamHeap ==> a < s.next
  {
  }

  lemma SubscribesWhenAllowed(s: State, path: string, d: SubscribeData)
    requires forall id :: id in s.streams ==> s.streams[id] in s.streamHeap
    ensures Subscribed(s, path, d).1 == 200 <==>
            path != "" && Known(s, path) && !Taken(s, path, d.id) && d.id != "" && d.hasPath && d.listOk && d.onBus &&
            d.allowed && d.accepted
  {
  }

  /** The answers to a subscribe request. */
  lemma SubscribeAnswers(s: State, inc: Incoming)
    requires Consistent(s) && Accepted(inc) && inc.kind == Subscribe
    ensures var d := inc.subscription;
            var bad := !d.hasPath || d.id == "" || !d.listOk || inc.path !in s.streams || Taken(s, inc.path, d.id);
            Next(s, Handle(inc)).answers ==
            s.answers[s.next := if bad then 400 else if !d.onBus then 404 else if !d.allowed then 403
                                else if !d.accepted then 400 else 200]
  {
    hide Consistent, Handled, Unsubscribed, Opened;
    HandledOther(s, inc);
    TableFacts(s);
    SubscribedIs(Passed(s), inc.path, inc.subscription);
  }

  // ----- unsubscribing -----

  predicate MayUnsubscribe(s: State, inc: Incoming) {
    Accepted(inc) && inc.kind == Unsubscribe && inc.info != "" && Taken(s, inc.path, inc.info)
  }

  /** A request ends a subscription exactly when it names one, and then that one alone. */
  lemma UnsubscribeExactly(s: State, inc: Incoming)
    requires Consistent(s)
    ensures var t := Next(s, Handle(inc));
            (exists u :: u in s.subs && u !in t.subs) <==> MayUnsubscribe(s, inc)
    ensures var t := Next(s, Handle(inc));
            MayUnsubscribe(s, inc) ==>
              var a := s.streams[inc.path];
              var u := s.streamHeap[a].subscriptions[inc.info];
              u in s.subs && s.subs[u] == Subscription(a, inc.info) && t.subs == s.subs - {u} &&
              t.streams == s.streams &&
              t.streamHeap ==
              s.streamHeap[a := s.streamHeap[a].(subscriptions := s.streamHeap[a].subscriptions - {inc.info})]
    ensures var t := Next(s, Handle(inc));
            inc.kind == Unsubscribe && !MayUnsubscribe(s, inc) ==>
              t.subs == s.subs && t.streamHeap == s.streamHeap && t.streams == s.streams
    ensures Accepted(inc) && inc.kind == Unsubscribe ==>
              Next(s, Handle(inc)).answers ==
              s.answers[s.next := if inc.info == "" || inc.path !in s.streams then 400
                                  else if !Taken(s, inc.path, inc.info) then 404 else 200]
  {
    hide Consistent, Handled, Subscribed, Unsubscribed, Opened;
    TableFacts(s);
    if OpensStream(inc) {
      HandledOpen(s, inc);
      OpenedIs(TakenIn(s, NewRequest(inc)), s.next, inc.probeOk);
    } else {
      HandledOther(s, inc);
      UnsubscribesWhenThere(Passed(s), inc.path, inc.info);
      UnsubscribedIs(Passed(s), inc.path, inc.info);
      SubscribedIs(Passed(s), inc.path, inc.subscription);
      if MayUnsubscribe(s, inc) {
        EntryIsRecord(s, s.streams[inc.path], inc.info);
      }
    }
  }

  lemma UnsubscribesWhenThere(s: State, path: string, info: string)
    requires forall id :: id in s.streams ==> s.streams[id] in s.streamHeap
    requires "" !in s.streams
    ensures Unsubscribed(s, path, info).1 ==
            if info == "" || path !in s.streams then 400 else if !Taken(s, path, info) then 404 else 200
  {
  }

  lemma EntryIsRecord(s: State, a: Address, id: string)
    requires Consistent(s) && a in s.streamHeap && id in s.streamHeap[a].subscriptions
    ensures var u := s.streamHeap[a].subscriptions[id]; u in s.subs && s.subs[u] == Subscription(a, id)
  {
    hide RequestsOk, MemoryOk, StreamsOk, LinksOk;
    assert HoldsSubscription(s.streamHeap, a, id, s.streamHeap[a].subscriptions[id]);
  }

  /** The answers to all requests that neither open streams nor change subscriptions. */
  lemma OtherAnswers(s: State, inc: Incoming)
    requires Consistent(s) && !OpensStream(inc)
    requires !(Accepted(inc) && (inc.kind == Subscribe || inc.kind == Unsubscribe))
    ensures Next(s, Handle(inc)).answers ==
            if !inc.initOk || !inc.acceptOk then s.answers
            else s.answers[s.next := if inc.inputOk then inc.status else 400]
  {
    hide Consistent, Handled, Subscribed, Unsubscribed;
    HandledOther(s, inc);
  }

  // ----- opening a stream -----

  /** The request that holds stream `id`. */
  function Holder(s: State, id: string): Option<Address> {
    if Known(s, id) then s.streamHeap[s.streams[id]].req else None
  }

  /** A request to open a stream gets the stream it names, a new one if need be, unless it names none or
      the stream is held by a connection that takes the probe; nothing else about streams changes. */
  lemma OpeningExactly(s: State, inc: Incoming)
    requires Consistent(s) && OpensStream(inc)
    ensures Known(s, inc.path) || inc.path !in s.streams
    ensures var t, r, id := Next(s, Handle(inc)), s.next, inc.path;
            t.subs == s.subs && t.answers == s.answers &&
            if id == "" || (Holder(s, id).Some? && inc.probeOk) then
              t.streams == s.streams && t.streamHeap == s.streamHeap
            else if id in s.streams then
              var a := s.streams[id];
              t.streams == s.streams && t.streamHeap == s.streamHeap[a := s.streamHeap[a].(req := Some(r))]
            else
              t.streams.Keys == s.streams.Keys + {id} &&
              var a := t.streams[id];
              a !in s.streamHeap && t.streams == s.streams[id := a] &&
              t.streamHeap == s.streamHeap[a := Stream(id, Some(r), map[])]
  {
    hide Consistent, Handled, Opened, Write, StreamAnswer;
    var t := TakenIn(s, NewRequest(inc));
    NewRequestIsUnlinked(s);
    HandledOpen(s, inc);
    OpenedIs(t, s.next, inc.probeOk);
    NextIsNew(s);
    TableFacts(s);
  }

  /** Of the requests that were there, only the holder of the stream is touched: it gets the probe, and
      when the probe does not get through it is freed. */
  lemma OpeningRequests(s: State, inc: Incoming)
    requires Consistent(s) && OpensStream(inc)
    ensures var t, r, h := Next(s, Handle(inc)), s.next, Holder(s, inc.path);
            r !in s.heap && r in t.heap && (h.Some? ==> h.value in s.heap) &&
            (forall q :: q in t.heap <==> q == r || (q in s.heap && !(h == Some(q) && !inc.probeOk))) &&
            (forall q :: q in s.heap && q in t.heap && h != Some(q) ==> t.heap[q] == s.heap[q]) &&
            (h.Some? && inc.probeOk ==>
               h.value in t.heap && t.heap[h.value].sent == s.heap[h.value].sent + [Event(None, None)])
  {
    hide Consistent, Handled, Opened, Write, StreamAnswer;
    var t := TakenIn(s, NewRequest(inc));
    NewRequestIsUnlinked(s);
    HandledOpen(s, inc);
    OpenedIs(t, s.next, inc.probeOk);
    TableFacts(s);
    LinkIsAlive(s, inc.path);
    if Connected(s, inc.path) {
      ProbeIsWritten(s.heap[s.streamHeap[s.streams[inc.path]].req.value]);
    }
  }

  /** What the newcomer is told, and when the heart-beat is started. */
  lemma OpeningTells(s: State, inc: Incoming)
    requires Consistent(s) && OpensStream(inc)
    ensures var t, held := Next(s, Handle(inc)), Connected(s, inc.path) && inc.probeOk;
            s.next in t.heap && t.heap[s.next].path == inc.path &&
            t.heap[s.next].sent ==
            (if held then [Event(None, None), Event(Some("error"), Some("400"))] else [Event(None, None)]) &&
            t.interval == if s.interval == None && !held then Some(120000) else s.interval
  {
    hide Consistent, Handled, Opened, Write, StreamAnswer;
    var t, r := TakenIn(s, NewRequest(inc)), s.next;
    NewRequestIsUnlinked(s);
    HandledOpen(s, inc);
    OpenedIs(t, r, inc.probeOk);
    TableFacts(s);
    var o := Opened(t, r, inc.probeOk);
    AnswerTells(o.0, r, o.1);
    AnswerKeepsPath(o.0, r, o.1);
    ErrorText();
  }

  lemma LinkIsAlive(s: State, id: string)
    requires Consistent(s)
    ensures Connected(s, id) ==> s.streamHeap[s.streams[id]].req.value in s.heap
  {
    hide RequestsOk, MemoryOk, SubscriptionsOk;
  }

  lemma AnswerKeepsPath(s: State, r: Address, status: nat)
    requires r in s.heap
    ensures r in StreamAnswer(s, r, status).heap && StreamAnswer(s, r, status).heap[r].path == s.heap[r].path
  {
    hide Block;
  }

  lemma ErrorText()
    ensures ErrorEvent(400) == Event(Some("error"), Some("400"))
  {
    assert Decimal(4) == "4" && Decimal(40) == "40" && Decimal(400) == "400";
  }

  lemma ProbeIsWritten(q: Request)
    ensures Write(q, PROBE).sent == q.sent + [Event(None, None)]
  {
    hide Block;
  }

  // ----- notifications -----

  /** A notification reaches the stream whose table holds the subscription: its connection gets one more
      event, with the subscription's id for a name, and nothing else changes.  When the write fails, the
      request is freed and the stream loses it; all tables stay. */
  lemma NotificationDelivers(s: State, u: Address, data: string, writeOk: bool)
    requires Consistent(s) && u in s.subs
    ensures var a, id, t := s.subs[u].owner, s.subs[u].id, Next(s, Notify(u, data, true, writeOk));
            HoldsSubscription(s.streamHeap, a, id, u) && id != "" &&
            match s.streamHeap[a].req
            case None => t == s
            case Some(r) =>
              r in s.heap &&
              if writeOk
              then r in t.heap && t == s.(heap := s.heap[r := t.heap[r]]) && Numbered(t.heap[r]) &&
                   t.heap[r] == s.heap[r].(sent := s.heap[r].sent + [Event(Some(id), Some(data))],
                                           eventId := t.heap[r].eventId, wire := t.heap[r].wire)
              else t == s.(heap := s.heap - {r}, list := t.list, freed := s.freed + multiset{r},
                           streamHeap := s.streamHeap[a := s.streamHeap[a].(req := None)]) &&
                   r !in s.freed && forall q :: q in t.list <==> q in s.list && q != r
    ensures Next(s, Notify(u, data, false, writeOk)) == s
  {
    hide Write, Without, Numbered, NoDuplicates;
    var a, id := s.subs[u].owner, s.subs[u].id;
    assert HoldsSubscription(s.streamHeap, a, id, u);
    if s.streamHeap[a].req.Some? {
      var r := s.streamHeap[a].req.value;
      assert r in s.heap && Numbered(s.heap[r]);
      WriteAdds(s.heap[r], Event(Some(id), Some(data)));
      WriteIsNumbered(s.heap[r], Event(Some(id), Some(data)));
      assert s.heap[r := Write(s.heap[r], Event(Some(id), Some(data)))] - {r} == s.heap - {r};
    }
  }

  lemma WriteAdds(q: Request, e: Event)
    ensures var w := Write(q, e); w == q.(sent := q.sent + [e], eventId := w.eventId, wire := w.wire)
  {
    hide Block;
  }

  /** And it is read at the other end: in every reachable state, after the notification the last message
      on the connection is the subscription's id with the data. */
  lemma NotificationIsRead(steps: seq<Step>, u: Address, data: string)
    ensures Consistent(EMPTY)
    ensures var s := After(EMPTY, steps);
            u in s.subs && s.subs[u].owner in s.streamHeap && s.streamHeap[s.subs[u].owner].req.Some? ==>
              var r, t := s.streamHeap[s.subs[u].owner].req.value, Next(s, Notify(u, data, true, true));
              r in s.heap && r in t.heap && HEADER <= t.heap[r].wire &&
              ((forall e :: e in s.heap[r].sent ==> Plain(e)) && NoBreaks(s.subs[u].id) && NoBreaks(data) ==>
                 var ms := Read(t.heap[r].wire[|HEADER|..], Reader("", "", ""));
                 ms != [] && ms[|ms| - 1].kind == s.subs[u].id && ms[|ms| - 1].data == data)
  {
    hide Consistent, Next, Read, Numbered;
    StartIsConsistent();
    var s, step := After(EMPTY, steps), Notify(u, data, true, true);
    if u in s.subs && s.subs[u].owner in s.streamHeap && s.streamHeap[s.subs[u].owner].req.Some? {
      var r, t := s.streamHeap[s.subs[u].owner].req.value, Next(s, step);
      NotificationDelivers(s, u, data, true);
      AfterMore(EMPTY, steps, step);
      ConnectionsReadBack(steps, r);
      ConnectionsReadBack(steps + [step], r);
    }
  }

  lemma {:induction false} AfterMore(s: State, steps: seq<Step>, step: Step)
    requires Consistent(s)
    ensures After(s, steps + [step]) == Next(After(s, steps), step)
    decreases |steps|
  {
    hide Consistent, Next;
    if steps == [] {
      NextKeeps(s, step);
      assert [] + [step] == [step] && [step][1..] == [];
    } else {
      NextKeeps(s, steps[0]);
      AfterMore(Next(s, steps[0]), steps[1..], step);
      assert (steps + [step])[1..] == steps[1..] + [step];
    }
  }

  // ----- the heart-beat -----

  /** The next heart-beat comes after five seconds when a stream had no connection or lost it, and after
      two minutes otherwise; a connection that took it got one event named "heart-beat" without data. */
  lemma HeartBeat(s: State, ok: set<string>)
    requires Consistent(s)
    ensures Next(s, Tick(ok)).interval ==
            if exists id :: id in s.streams && !(Connected(s, id) && id in ok) then Some(5000) else Some(120000)
    ensures var t := Next(s, Tick(ok));
            forall id :: Connected(s, id) && id in ok ==>
              var r := s.streamHeap[s.streams[id]].req.value;
              r in s.heap && r in t.heap && t.heap[r].sent == s.heap[r].sent + [Event(Some("heart-beat"), None)]
    ensures Next(s, Tick(ok)).answers == s.answers
  {
    hide Consistent, Beaten, Write;
    TableFacts(s);
    TickParts(s, ok);
    TickIsExact(s, ok);
    var t := Ticked(s, ok);
    forall id | Connected(s, id) && id in ok
      ensures var r := s.streamHeap[s.streams[id]].req.value;
              r in s.heap && r in t.heap && t.heap[r].sent == s.heap[r].sent + [Event(Some("heart-beat"), None)]
    {
      WriteAdds(s.heap[s.streamHeap[s.streams[id]].req.value], HEART_BEAT);
    }
  }

  lemma TickParts(s: State, ok: set<string>)
    requires Consistent(s)
    ensures Ticked(s, ok).answers == s.answers
  {
    hide RequestsOk, MemoryOk, LinksOk, SubscriptionsOk, BeatenHeap, BeatenStreams, KeptSubscriptions, Without;
  }
}
