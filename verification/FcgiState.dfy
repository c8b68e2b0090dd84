/** The memory of the FastCGI service: requests, event streams and subscriptions, and the effect of
    every callback on it.  The C heap is a map from addresses to records, so that touching or freeing
    something already freed is a failed proof, not a modelling choice. */
module FcgiState {
  import opened Wrappers
  import opened EventWriter

  type Address = nat

  const HEART_BEAT_TIME: nat := 120000
  const HEART_BEAT_CHECK: nat := 5000

  /** The methods that differ in what they do with the request; all other handlers are `Other`. */
  datatype Method = OpenStream | Subscribe | Unsubscribe | Other

  /** `amx_fcgi_request_t`; `sent` is the history of events written to it, and `wire` all the bytes. */
  datatype Request = Request(kind: Method, path: string, info: string, eventId: nat, sent: seq<Event>, wire: string)

  /** `event_stream_t`; `key` is the name under which its table iterator is linked in.  The table of
      subscriptions maps a subscription's id to its address. */
  datatype Stream = Stream(key: string, req: Option<Address>, subscriptions: map<string, Address>)

  /** `subscription_t`; `owner` is the stream whose table its table iterator is linked into. */
  datatype Subscription = Subscription(owner: Address, id: string)

  datatype State = State(
    heap: map<Address, Request>,
    list: seq<Address>,
    streams: map<string, Address>,
    streamHeap: map<Address, Stream>,
    subs: map<Address, Subscription>,
    next: Address,
    freed: multiset<Address>,
    interval: Option<nat>,
    answers: map<Address, nat>)   // the status that each request got which is not an event stream

  const EMPTY := State(map[], [], map[], map[], map[], 0, multiset{}, None, map[])

  // ----- small pieces -----

  function Without(s: seq<Address>, gone: set<Address>): (r: seq<Address>)
    ensures forall a :: a in r <==> a in s && a !in gone
    ensures NoDuplicates(s) ==> NoDuplicates(r)
  {
    if s == [] then [] else
    var rest := Without(s[1..], gone);
    assert forall a :: a in s <==> a == s[0] || a in s[1..];
    assert NoDuplicates(s) ==> NoDuplicates(s[1..]) && s[0] !in s[1..];
    if s[0] in gone then rest else [s[0]] + rest
  }

  ghost predicate NoDuplicates(s: seq<Address>) {
    forall i, j :: 0 <= i < j < |s| ==> s[i] != s[j]
  }

  /** A request as it is allocated. */
  function NewRequest(inc: Incoming): Request { Request(inc.kind, inc.path, inc.info, 0, [], "") }

  /** The event writer: a block with the current id; the counter moves on whether or not the write gets
      through. */
  function Write(r: Request, e: Event): Request {
    r.(eventId := (r.eventId + 1) % COUNTER_RANGE, sent := r.sent + [e], wire := r.wire + Block(r.eventId, e))
  }

  /** The id counter counts the events, and the bytes are their blocks, numbered from 0. */
  predicate Numbered(r: Request) {
    r.eventId == |r.sent| % COUNTER_RANGE && r.wire == Wire(r.sent, 0)
  }

  function Written(s: State, r: Address, e: Event): State
    requires r in s.heap
  {
    s.(heap := s.heap[r := Write(s.heap[r], e)])
  }

  function Freed(s: State, r: Address): State
    requires r in s.heap
  {
    s.(heap := s.heap - {r}, list := Without(s.list, {r}), freed := s.freed + multiset{r})
  }

  /** A response with its status line. */
  function Answered(s: State, r: Address, status: nat): State { s.(answers := s.answers[r := status]) }

  function Attached(s: State, a: Address, r: Option<Address>): State
    requires a in s.streamHeap
  {
    s.(streamHeap := s.streamHeap[a := s.streamHeap[a].(req := r)])
  }

  // ----- consistency between callbacks -----

  /** The list holds each living request once; all that live between callbacks are event streams. */
  ghost predicate RequestsOk(heap: map<Address, Request>, list: seq<Address>) {
    NoDuplicates(list) && (forall r :: r in list <==> r in heap) &&
    (forall r :: r in heap ==> heap[r].kind == OpenStream && Numbered(heap[r]))
  }

  /** Nothing alive was freed, and nothing was freed twice. */
  ghost predicate MemoryOk(alive: set<Address>, freed: multiset<Address>, next: Address) {
    (forall r :: r in alive ==> r !in freed && r < next) &&
    (forall r :: r in freed ==> freed[r] == 1 && r < next)
  }

  /** The table of streams and the streams agree on who has which name. */
  ghost predicate StreamsOk(streams: map<string, Address>, streamHeap: map<Address, Stream>, next: Address) {
    (forall id :: id in streams ==> id != "" && streams[id] in streamHeap && streamHeap[streams[id]].key == id) &&
    (forall a :: a in streamHeap ==> a < next && streamHeap[a].key in streams && streams[streamHeap[a].key] == a)
  }

  /** A stream's request is alive, and no other stream refers to it. */
  ghost predicate LinksOk(streamHeap: map<Address, Stream>, alive: set<Address>) {
    (forall a :: a in streamHeap && streamHeap[a].req.Some? ==> streamHeap[a].req.value in alive) &&
    (forall a, b ::
       (a in streamHeap && b in streamHeap && streamHeap[a].req.Some? && streamHeap[a].req == streamHeap[b].req) ==>
         a == b)
  }

  /** The table of a stream holds exactly the subscriptions that point back to it. */
  ghost predicate SubscriptionsOk(subs: map<Address, Subscription>, streamHeap: map<Address, Stream>, next: Address) {
    (forall u :: u in subs ==>
       u < next && subs[u].id != "" && HoldsSubscription(streamHeap, subs[u].owner, subs[u].id, u)) &&
    (forall a, id, u :: HoldsSubscription(streamHeap, a, id, u) ==> u in subs && subs[u] == Subscription(a, id))
  }

  predicate HoldsSubscription(streamHeap: map<Address, Stream>, a: Address, id: string, u: Address) {
    a in streamHeap && id in streamHeap[a].subscriptions && streamHeap[a].subscriptions[id] == u
  }

  ghost predicate Consistent(s: State) {
    RequestsOk(s.heap, s.list) && MemoryOk(s.heap.Keys, s.freed, s.next) &&
    StreamsOk(s.streams, s.streamHeap, s.next) && LinksOk(s.streamHeap, s.heap.Keys) &&
    SubscriptionsOk(s.subs, s.streamHeap, s.next)
  }

  // ----- one incoming request -----

  /** What the outside contributes to a request: which calls succeed, and what its headers say. */
  datatype Incoming = Incoming(
    initOk: bool, acceptOk: bool, inputOk: bool, kind: Method, path: string, info: string,
    probeOk: bool,          // the write to the request that already holds the stream
    subscription: SubscribeData,
    status: nat)            // what a handler of the other methods answers

  /** The body of a subscribe request and the answers of bus and access control. */
  datatype SubscribeData = SubscribeData(
    id: string, hasPath: bool, listOk: bool, onBus: bool, allowed: bool, accepted: bool)

  /** The request is accepted, and asks to open a stream. */
  predicate OpensStream(inc: Incoming) { inc.initOk && inc.acceptOk && inc.inputOk && inc.kind == OpenStream }

  /** The request is alive, and so is every stream's request, which is another one. */
  predicate OpenReady(s: State, r: Address) {
    r in s.heap &&
    forall id :: id in s.streams ==>
                   s.streams[id] in s.streamHeap &&
                   (s.streamHeap[s.streams[id]].req.Some? ==>
                      s.streamHeap[s.streams[id]].req.value in s.heap && s.streamHeap[s.streams[id]].req.value != r)
  }

  /** Opening a stream for request `r`: refused while the previous connection still takes data. */
  function Opened(s: State, r: Address, probeOk: bool): (o: (State, nat))
    requires OpenReady(s, r)
  {
    var id := s.heap[r].path;
    if id in s.streams then
      var a := s.streams[id];
      match s.streamHeap[a].req
      case None => (WithTimer(Attached(s, a, Some(r))), 200)
      case Some(before) =>
        if probeOk then (Written(s, before, PROBE), 400)
        else (WithTimer(Attached(Freed(s, before), a, Some(r))), 200)
    else if id == "" then (WithTimer(s), 200)
    else
      var a := s.next;
      (WithTimer(s.(streams := s.streams[id := a], streamHeap := s.streamHeap[a := Stream(id, Some(r), map[])],
                    next := s.next + 1)), 200)
  }

  /** What opening a stream changes, part by part. */
  lemma OpenedIs(s: State, r: Address, probeOk: bool)
    requires OpenReady(s, r)
    ensures var id, t := s.heap[r].path, Opened(s, r, probeOk).0;
            r in t.heap && t.heap[r] == s.heap[r] && t.subs == s.subs && t.answers == s.answers &&
            (if id in s.streams then
               var a := s.streams[id];
               t.streams == s.streams && t.next == s.next &&
               match s.streamHeap[a].req
               case None => t.heap == s.heap && t.streamHeap == s.streamHeap[a := s.streamHeap[a].(req := Some(r))]
               case Some(before) =>
                 if probeOk
                 then t.heap == s.heap[before := Write(s.heap[before], PROBE)] && t.streamHeap == s.streamHeap
                 else t.heap == s.heap - {before} && t.streamHeap == s.streamHeap[a := s.streamHeap[a].(req := Some(r))]
             else if id == "" then
               t.heap == s.heap && t.streams == s.streams && t.streamHeap == s.streamHeap && t.next == s.next
             else
               t.heap == s.heap && t.streams == s.streams[id := s.next] && t.next == s.next + 1 &&
               t.streamHeap == s.streamHeap[s.next := Stream(id, Some(r), map[])])
    ensures var id, o := s.heap[r].path, Opened(s, r, probeOk);
            if id in s.streams && s.streamHeap[s.streams[id]].req.Some? && probeOk
            then o.1 == 400 && o.0.interval == s.interval
            else o.1 == 200 && o.0.interval == if s.interval == None then Some(HEART_BEAT_TIME) else s.interval
  {
    hide Without, Write;
  }

  /** A request that was just accepted is ready to open a stream. */
  lemma NewIsReady(s: State, req: Request, probeOk: bool)
    requires Consistent(s)
    ensures OpenReady(TakenIn(s, req), s.next) && s.next in Opened(TakenIn(s, req), s.next, probeOk).0.heap
    ensures forall id :: id in s.streams ==> s.streams[id] in s.streamHeap
  {
    hide RequestsOk, SubscriptionsOk, Opened;
    OpenedIs(TakenIn(s, req), s.next, probeOk);
  }

  function WithTimer(s: State): State {
    if s.interval == None then s.(interval := Some(HEART_BEAT_TIME)) else s
  }

  function Subscribed(s: State, path: string, d: SubscribeData): (State, nat)
    requires forall id :: id in s.streams ==> s.streams[id] in s.streamHeap
  {
    if !d.hasPath || path == "" || d.id == "" || !d.listOk then (s, 400)
    else if path !in s.streams then (s, 400)
    else
      var a := s.streams[path];
      if d.id in s.streamHeap[a].subscriptions then (s, 400)
      else if !d.onBus then (s, 404)
      else if !d.allowed then (s, 403)
      else if !d.accepted then (s, 400)
      else (AddSubscription(s, a, d.id), 200)
  }

  function AddSubscription(s: State, a: Address, id: string): State
    requires a in s.streamHeap
  {
    var u := s.next;
    s.(subs := s.subs[u := Subscription(a, id)],
       streamHeap := s.streamHeap[a := s.streamHeap[a].(subscriptions := s.streamHeap[a].subscriptions[id := u])],
       next := s.next + 1)
  }

  function Unsubscribed(s: State, path: string, info: string): (State, nat)
    requires forall id :: id in s.streams ==> s.streams[id] in s.streamHeap
  {
    if path == "" || info == "" then (s, 400)
    else if path !in s.streams then (s, 400)
    else
      var a := s.streams[path];
      if info !in s.streamHeap[a].subscriptions then (s, 404)
      else (RemoveSubscription(s, a, info), 200)
  }

  function RemoveSubscription(s: State, a: Address, id: string): State
    requires a in s.streamHeap && id in s.streamHeap[a].subscriptions
  {
    var st := s.streamHeap[a];
    s.(subs := s.subs - {st.subscriptions[id]},
       streamHeap := s.streamHeap[a := st.(subscriptions := st.subscriptions - {id})])
  }

  function ErrorEvent(status: nat): Event { Event(Some("error"), Some(Decimal(status))) }

  /** The answer to an open-stream request is the start of its event stream. */
  function StreamAnswer(s: State, r: Address, status: nat): State
    requires r in s.heap
  {
    var greeted := Written(s, r, PROBE);
    if status >= 400 then Written(greeted, r, ErrorEvent(status)) else greeted
  }

  /** A request that was accepted: allocated and listed. */
  function TakenIn(s: State, req: Request): State {
    s.(heap := s.heap[s.next := req], list := s.list + [s.next], next := s.next + 1)
  }

  /** A request that came and went: allocated and freed again. */
  function Passed(s: State): State {
    s.(next := s.next + 1, freed := s.freed + multiset{s.next})
  }

  /** The request callback as a whole: only an open-stream request outlives it. */
  function Handled(s: State, inc: Incoming): State
    requires Consistent(s)
  {
    hide Consistent, Opened, OpenReady;
    var r := s.next;
    var req := NewRequest(inc);
    NewIsReady(s, req, inc.probeOk);
    if !inc.initOk || !inc.acceptOk then Passed(s)
    else if !inc.inputOk then Answered(Passed(s), r, 400)
    else
      match inc.kind
      case OpenStream =>
        var o := Opened(TakenIn(s, req), r, inc.probeOk);
        StreamAnswer(o.0, r, o.1)
      case Subscribe =>
        var o := Subscribed(Passed(s), inc.path, inc.subscription);
        Answered(o.0, r, o.1)
      case Unsubscribe =>
        var o := Unsubscribed(Passed(s), inc.path, inc.info);
        Answered(o.0, r, o.1)
      case Other => Answered(Passed(s), r, inc.status)
  }

  // ----- notifications, the heart-beat and the end -----

  /** The connection of stream `a` is given up: its request goes, the stream and its subscriptions stay. */
  function Dropped(s: State, a: Address): State
    requires a in s.streamHeap && s.streamHeap[a].req.Some? && s.streamHeap[a].req.value in s.heap
  {
    Attached(Freed(s, s.streamHeap[a].req.value), a, None)
  }

  /** A notification for subscription `u` that access control and the type filter let through. */
  function Notified(s: State, u: Address, data: string, writeOk: bool): State
    requires Consistent(s) && u in s.subs
  {
    var a := s.subs[u].owner;
    match s.streamHeap[a].req
    case None => s
    case Some(r) =>
      var w := Written(s, r, Event(Some(s.subs[u].id), Some(data)));
      if writeOk then w else Dropped(w, a)
  }

  /** A stream without a connection goes, and its subscriptions with it. */
  function Reaped(s: State, a: Address): State
    requires a in s.streamHeap
  {
    s.(streams := s.streams - {s.streamHeap[a].key}, streamHeap := s.streamHeap - {a},
       subs := KeptSubscriptions(s.subs, {a}))
  }

  /** What the timer does with one stream. */
  function Beat(s: State, id: string, writeOk: bool): State
    requires Consistent(s) && id in s.streams
  {
    var a := s.streams[id];
    match s.streamHeap[a].req
    case None => Reaped(s, a)
    case Some(r) =>
      var w := Written(s, r, HEART_BEAT);
      if writeOk then w else Dropped(w, a)
  }

  predicate Reachable(s: State, ids: set<string>) {
    forall id :: id in ids ==> id in s.streams && s.streams[id] in s.streamHeap
  }

  /** Streams of `ids` that have no connection. */
  function Deserted(s: State, ids: set<string>): set<Address>
    requires Reachable(s, ids)
  {
    set id | id in ids && s.streamHeap[s.streams[id]].req == None :: s.streams[id]
  }

  /** Requests that streams of `ids` are connected to. */
  function Connections(s: State, ids: set<string>): set<Address>
    requires Reachable(s, ids)
  {
    set id | id in ids && s.streamHeap[s.streams[id]].req.Some? :: s.streamHeap[s.streams[id]].req.value
  }

  /** One heart-beat for the streams in `ids`, all at once; `ok` are those whose connection takes the write. */
  function Beaten(s: State, ids: set<string>, ok: set<string>): State
    requires Reachable(s, ids)
  {
    var deserted, beaten, lost := Deserted(s, ids), Connections(s, ids), Connections(s, ids - ok);
    s.(heap := BeatenHeap(s.heap, beaten, lost),
       list := Without(s.list, lost),
       streams := map id | id in s.streams && s.streams[id] !in deserted :: s.streams[id],
       streamHeap := BeatenStreams(s.streamHeap, deserted, lost),
       subs := KeptSubscriptions(s.subs, deserted),
       freed := s.freed + multiset(lost))
  }

  function BeatenHeap(heap: map<Address, Request>, beaten: set<Address>, lost: set<Address>): map<Address, Request> {
    map r | r in heap && r !in lost :: if r in beaten then Write(heap[r], HEART_BEAT) else heap[r]
  }

  function BeatenStreams(h: map<Address, Stream>, deserted: set<Address>, lost: set<Address>): map<Address, Stream> {
    map a | a in h && a !in deserted :: if h[a].req.Some? && h[a].req.value in lost then h[a].(req := None) else h[a]
  }

  function KeptSubscriptions(subs: map<Address, Subscription>, deserted: set<Address>): map<Address, Subscription> {
    map u | u in subs && subs[u].owner !in deserted :: subs[u]
  }

  /** The timer callback: the next check comes soon when a stream was found without a connection. */
  function Ticked(s: State, ok: set<string>): State
    requires Consistent(s)
  {
    var quiet := forall id :: id in s.streams ==> s.streamHeap[s.streams[id]].req.Some? && id in ok;
    Beaten(s, s.streams.Keys, ok).(interval := Some(if quiet then HEART_BEAT_TIME else HEART_BEAT_CHECK))
  }

  /** The end of the service: the list of requests is emptied, then the streams are. */
  function Stopped(s: State): State {
    s.(heap := map[], list := [], streams := map[], streamHeap := map[], subs := map[],
       freed := s.freed + multiset(s.list), interval := None)
  }
}
