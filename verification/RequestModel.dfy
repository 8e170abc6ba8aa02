/**
  The request path of the API client as a transition system, while the device stays online or
  not: cached reads with a fresh and a stale window, the copy in localStorage, in-flight sharing,
  background refreshes, live reads that bypass the cache, and everything that can happen between
  two of a request's asynchronous steps.

  One `Event` is one uninterrupted stretch of JavaScript (or of the world outside it). The class
  in ApiClient.dfy performs the same events in place; ApiSharing, ApiAge and ApiLive prove what
  holds over all runs.
 */
module RequestModel {
  import opened Wrappers
  import opened MemoryCache

  const PERSIST_GET_CACHE_TTL_MS: int := 345600000

  // What a cached GET asks for: its fresh and stale windows, and how old a saved copy it shows
  // first when it has nothing else (0 for none).
  datatype Init = Init(ttl: nat, staleMs: nat, savedMaxAgeMs: nat)

  // The localStorage copy of one request.
  datatype DiskCopy = DiskCopy(storedAt: int, expiresAt: int, retainUntil: int, response: Response)

  // A write to localStorage that waits for the response's text.
  datatype Save = Save(key: Key, response: Response, ttl: nat)

  datatype Kind =
    | Plain                         // no usable copy: the caller waits
    | Background(captured: Response) // answered with `captured`, refreshing behind it
    | Live(keeps: bool)             // bypasses the cache; `keeps` unless liveOnly or refresh=true

  datatype Outcome = Ok(response: Response) | NotOk | Failed

  // `outcome` is None while the request is on the network.
  datatype Request = Request(key: Key, ttl: nat, kind: Kind, outcome: Option<Outcome>)

  // A read suspended on a storage lookup: before the in-flight check (for a saved copy to show
  // first), or after it (offline). `copy` is what the lookup found before it paused.
  datatype Parked = Parked(key: Key, ttl: nat, checked: bool, copy: Option<Response>)

  // A read waiting for a request; `owner` is the one that started it.
  datatype Waiter = Waiter(request: nat, owner: bool)

  datatype Source = FreshCopy | StaleCopy | Network | Captured | Saved

  datatype Served = Served(read: nat, key: Key, source: Source, response: Response, at: int)

  // The two copies of answers, and the writes to the second that are still to happen.
  datatype Store = Store(mem: seq<Slot>, disk: map<Key, DiskCopy>, saves: seq<Save>)

  datatype Net = Net(
    inflight: map<Key, nat>,
    requests: map<nat, Request>,
    parked: map<nat, Parked>,
    waiting: map<nat, Waiter>,
    nextId: nat)

  // `served` is every copy a cached read has been given so far.
  datatype State = State(now: int, store: Store, net: Net, served: set<Served>)

  datatype Landing = Arrives(content: string) | Refused | Lost

  datatype Event =
    | Tick(ms: nat)
    | CachedRead(key: Key, init: Init)
    | OfflineRead(key: Key, init: Init)
    | Resume(read: nat, offline: bool)
    | LiveRead(key: Key, keeps: bool)
    | Land(request: nat, landing: Landing)
    | Settle(request: nat)
    | SaveLands(index: nat, stored: bool)
    | Fallback(read: nat)
    | Seed(key: Key, content: string, ttl: nat)
    | Vanish(key: Key)
    | Reload

  const NO_REQUESTS := Net(map[], map[], map[], map[], 0)

  const START := State(0, Store([], map[], []), NO_REQUESTS, {})

  // ---------- Reading the two caches ----------

  function AgeSec(now: int, storedAt: int): nat {
    if now - storedAt <= 0 then 0 else (now - storedAt) / 1000
  }

  function DiskHit(disk: map<Key, DiskCopy>, key: Key, now: int, staleMs: nat): Option<DiskCopy> {
    if key in disk && Usable(disk[key].expiresAt, now, staleMs) then Some(disk[key]) else None
  }

  // A lookup past both windows removes the copy once its retention is over too.
  function DiskKept(disk: map<Key, DiskCopy>, key: Key, now: int, staleMs: nat): (r: map<Key, DiskCopy>)
    ensures forall k :: k in r ==> k in disk && r[k] == disk[k]
  {
    if key in disk && DiskHit(disk, key, now, staleMs).None? && disk[key].retainUntil <= now
    then disk - {key} else disk
  }

  // A localStorage hit goes back into memory: with a whole new TTL while it is fresh, else as
  // already expired.
  function Promoted(copy: DiskCopy, now: int, ttl: nat): Cached {
    Cached(var t := now - AgeSec(now, copy.storedAt) * 1000; if t < 0 then 0 else t,
           if Fresh(copy.expiresAt, now) then now + ttl else now - 1,
           copy.response)
  }

  datatype Stored = Stored(at: int, response: Response)

  // The most recently stored copy, whatever its age.
  function LastStored(store: Store, key: Key): Option<Stored> {
    match Find(store.mem, key)
    case Some(c) =>
      if key in store.disk && store.disk[key].storedAt > c.storedAt
      then Some(Stored(store.disk[key].storedAt, store.disk[key].response))
      else Some(Stored(c.storedAt, c.response))
    case None =>
      if key in store.disk then Some(Stored(store.disk[key].storedAt, store.disk[key].response)) else None
  }

  function AnyAge(store: Store, key: Key): Option<Response> {
    match LastStored(store, key)
    case Some(last) => Some(last.response)
    case None => None
  }

  function SavedWithin(store: Store, now: int, key: Key, maxAgeMs: nat): Option<Response> {
    match LastStored(store, key)
    case Some(last) => if AgeSec(now, last.at) * 1000 <= maxAgeMs then Some(last.response) else None
    case None => None
  }

  // ---------- A cached read's two lookups ----------

  // A fresh copy answers the read. A stale one becomes the candidate, memory's before
  // localStorage's.
  datatype Lookup = Answer(response: Response) | Candidate(copy: Option<Response>)

  predicate MemAnswers(store: Store, now: int, key: Key, staleMs: nat) {
    var hit := Hit(store.mem, key, now, staleMs);
    hit.Some? && Fresh(hit.value.expiresAt, now)
  }

  function Found(store: Store, now: int, key: Key, staleMs: nat): Lookup {
    var mem := Hit(store.mem, key, now, staleMs);
    var disk := DiskHit(store.disk, key, now, staleMs);
    if MemAnswers(store, now, key, staleMs) then Answer(mem.value.response)
    else if disk.Some? && Fresh(disk.value.expiresAt, now) then Answer(disk.value.response)
    else if mem.Some? then Candidate(Some(mem.value.response))
    else if disk.Some? then Candidate(Some(disk.value.response))
    else Candidate(None)
  }

  function MemAfterRead(store: Store, now: int, key: Key, init: Init): seq<Slot> {
    var mem := Kept(store.mem, key, now, init.staleMs);
    var disk := DiskHit(store.disk, key, now, init.staleMs);
    if MemAnswers(store, now, key, init.staleMs) || disk.None? then mem
    else Written(mem, key, Promoted(disk.value, now, init.ttl), now)
  }

  function StoreAfterRead(store: Store, now: int, key: Key, init: Init): Store {
    Store(MemAfterRead(store, now, key, init),
          if MemAnswers(store, now, key, init.staleMs) then store.disk
          else DiskKept(store.disk, key, now, init.staleMs),
          store.saves)
  }

  // ---------- Starting and sharing requests ----------

  function Started(net: Net, request: Request): Net {
    net.(requests := net.requests[net.nextId := request], nextId := net.nextId + 1)
  }

  function StartedShared(net: Net, key: Key, ttl: nat, kind: Kind): Net {
    Started(net, Request(key, ttl, kind, None)).(inflight := net.inflight[key := net.nextId])
  }

  // With a candidate the read was answered and a refresh runs behind it; without, it waits.
  function Begun(net: Net, read: nat, key: Key, ttl: nat, candidate: Option<Response>): Net {
    match candidate
    case Some(r) => StartedShared(net, key, ttl, Background(r))
    case None =>
      StartedShared(net, key, ttl, Plain).(waiting := net.waiting[read := Waiter(net.nextId, true)])
  }

  // The in-flight check and what follows it without a pause.
  function Dispatched(net: Net, read: nat, key: Key, ttl: nat, candidate: Option<Response>): Net {
    if key !in net.inflight then Begun(net, read, key, ttl, candidate)
    else if candidate.Some? then net
    else net.(waiting := net.waiting[read := Waiter(net.inflight[key], false)])
  }

  // A read that has to pause takes its copy first: `saved` to show one before the request,
  // `last` because the device is offline.
  function Paused(key: Key, init: Init, inflight: bool, offline: bool, saved: Option<Response>,
                  last: Option<Response>): Option<Parked>
  {
    if init.savedMaxAgeMs > 0 then Some(Parked(key, init.ttl, false, saved))
    else if offline && !inflight then Some(Parked(key, init.ttl, true, last))
    else None
  }

  function NetAfterRead(net0: Net, key: Key, init: Init, found: Lookup, paused: Option<Parked>): Net {
    var read, net := net0.nextId, net0.(nextId := net0.nextId + 1);
    match found
    case Answer(_) => net
    case Candidate(c) =>
      if c.None? && paused.Some? then net.(parked := net.parked[read := paused.value])
      else Dispatched(net, read, key, init.ttl, c)
  }

  // Why a read of `store`, which its lookups have already changed, pauses.
  function PauseOf(store: Store, net: Net, now: int, key: Key, init: Init, offline: bool): Option<Parked> {
    Paused(key, init, key in net.inflight, offline, SavedWithin(store, now, key, init.savedMaxAgeMs),
        AnyAge(store, key))
  }

  // `last` is the copy of any age at this moment.
  function NetAfterResume(net0: Net, read: nat, offline: bool, last: Option<Response>): Net
    requires read in net0.parked
  {
    var p, net := net0.parked[read], net0.(parked := net0.parked - {read});
    if p.checked then (if p.copy.Some? then net else Begun(net, read, p.key, p.ttl, None))
    else if offline && p.copy.None? && p.key !in net.inflight
    then net.(parked := net.parked[read := Parked(p.key, p.ttl, true, last)])
    else Dispatched(net, read, p.key, p.ttl, p.copy)
  }

  // ---------- A request's end ----------

  function OutcomeOf(landing: Landing, now: int): Outcome {
    match landing
    case Arrives(content) => Ok(Response(content, now))
    case Refused => NotOk
    case Lost => Failed
  }

  function NetAfterLanding(net: Net, id: nat, landing: Landing, now: int): Net
    requires id in net.requests
  {
    var q := net.requests[id];
    net.(requests := if q.kind.Live? then net.requests - {id}
                     else net.requests[id := q.(outcome := Some(OutcomeOf(landing, now)))])
  }

  // A cached answer goes into memory and, later, into localStorage. A live one drops memory's
  // copy and is saved as never fresh.
  function StoreAfterLanding(store: Store, q: Request, landing: Landing, now: int): Store {
    if !landing.Arrives? then store else
      var r := Response(landing.content, now);
      match q.kind
      case Live(keeps) =>
        if keeps then Store(Without(store.mem, q.key), store.disk, store.saves + [Save(q.key, r, 1)]) else store
      case _ =>
        Store(Written(store.mem, q.key, Cached(now, now + q.ttl, r), now), store.disk,
              if q.ttl <= 0 then store.saves else store.saves + [Save(q.key, r, q.ttl)])
  }

  // What the readers of a settled request are given, if anything.
  function Delivered(q: Request): Option<(Source, Response)> {
    match q.outcome
    case Some(Ok(r)) => Some((Network, r))
    case Some(Failed) => if q.kind.Background? then Some((Captured, q.kind.captured)) else None
    case _ => None
  }

  function ReadersOf(net: Net, id: nat): set<nat> {
    set r | r in net.waiting && net.waiting[r].request == id
  }

  function Deliveries(readers: set<nat>, q: Request, now: int): set<Served> {
    match Delivered(q)
    case None => {}
    case Some((source, response)) => set r | r in readers :: Served(r, q.key, source, response, now)
  }

  function NetAfterSettle(net: Net, id: nat): Net
    requires id in net.requests
  {
    net.(requests := net.requests - {id},
         inflight := net.inflight - {net.requests[id].key},
         waiting := net.waiting - ReadersOf(net, id))
  }

  function Retention(ttl: nat): int {
    if ttl > PERSIST_GET_CACHE_TTL_MS then ttl else PERSIST_GET_CACHE_TTL_MS
  }

  // A save that localStorage does not take leaves its older copy where it is.
  function StoreAfterSave(store: Store, i: nat, stored: bool, now: int): Store
    requires i < |store.saves|
  {
    var save := store.saves[i];
    Store(store.mem,
          if !stored then store.disk
          else store.disk[save.key := DiskCopy(now, now + save.ttl, now + Retention(save.ttl), save.response)],
          store.saves[..i] + store.saves[i + 1..])
  }

  function StoreAfterSeed(store: Store, key: Key, content: string, ttl: nat, now: int): Store {
    var r := Response(content, now);
    Store(Written(store.mem, key, Cached(now, now + ttl, r), now), store.disk,
          if ttl <= 0 then store.saves else store.saves + [Save(key, r, ttl)])
  }

  // ---------- Runs ----------

  predicate Enabled(s: State, e: Event) {
    match e
    case CachedRead(_, init) => init.ttl > 0
    case OfflineRead(_, init) => init.ttl > 0
    case Resume(read, _) => read in s.net.parked
    case Land(id, _) => id in s.net.requests && s.net.requests[id].outcome.None?
    case Settle(id) => id in s.net.requests && s.net.requests[id].outcome.Some?
    case SaveLands(i, _) => i < |s.store.saves|
    case Fallback(read) =>
      read in s.net.waiting && s.net.waiting[read].owner && s.net.waiting[read].request in s.net.requests
    case _ => true
  }

  function StoreAfter(s: State, e: Event): Store
    requires Enabled(s, e)
  {
    match e
    case CachedRead(key, init) => StoreAfterRead(s.store, s.now, key, init)
    case OfflineRead(key, init) => StoreAfterRead(s.store, s.now, key, init)
    case Land(id, landing) => StoreAfterLanding(s.store, s.net.requests[id], landing, s.now)
    case SaveLands(i, stored) => StoreAfterSave(s.store, i, stored, s.now)
    case Seed(key, content, ttl) => StoreAfterSeed(s.store, key, content, ttl, s.now)
    case Vanish(key) => s.store.(disk := s.store.disk - {key})
    case Reload => Store([], s.store.disk, [])
    case _ => s.store
  }

  function NetAfterReading(s: State, key: Key, init: Init, offline: bool): Net {
    NetAfterRead(s.net, key, init, Found(s.store, s.now, key, init.staleMs),
                 PauseOf(StoreAfterRead(s.store, s.now, key, init), s.net, s.now, key, init, offline))
  }

  function NetAfter(s: State, e: Event): Net
    requires Enabled(s, e)
  {
    match e
    case CachedRead(key, init) => NetAfterReading(s, key, init, false)
    case OfflineRead(key, init) => NetAfterReading(s, key, init, true)
    case Resume(read, offline) => NetAfterResume(s.net, read, offline, AnyAge(s.store, s.net.parked[read].key))
    case LiveRead(key, keeps) => Started(s.net, Request(key, 0, Live(keeps), None))
    case Land(id, landing) => NetAfterLanding(s.net, id, landing, s.now)
    case Settle(id) => NetAfterSettle(s.net, id)
    case Fallback(read) =>
      if AnyAge(s.store, s.net.requests[s.net.waiting[read].request].key).None? then s.net
      else s.net.(waiting := s.net.waiting - {read})
    case Reload => NO_REQUESTS.(nextId := s.net.nextId)
    case _ => s.net
  }

  // The copy a read is answered with at once.
  function FoundServed(read: nat, key: Key, found: Lookup, now: int): set<Served> {
    match found
    case Answer(r) => {Served(read, key, FreshCopy, r, now)}
    case Candidate(c) => if c.Some? then {Served(read, key, StaleCopy, c.value, now)} else {}
  }

  function ServedByRead(s: State, key: Key, staleMs: nat): set<Served> {
    FoundServed(s.net.nextId, key, Found(s.store, s.now, key, staleMs), s.now)
  }

  // The copies an event hands to cached reads.
  function ServedBy(s: State, e: Event): set<Served>
    requires Enabled(s, e)
  {
    match e
    case CachedRead(key, init) => ServedByRead(s, key, init.staleMs)
    case OfflineRead(key, init) => ServedByRead(s, key, init.staleMs)
    case Resume(read, _) =>
      var p := s.net.parked[read];
      (match p.copy
       case None => {}
       case Some(r) => {Served(read, p.key, Saved, r, s.now)})
    case Settle(id) => Deliveries(ReadersOf(s.net, id), s.net.requests[id], s.now)
    case Fallback(read) =>
      var key := s.net.requests[s.net.waiting[read].request].key;
      (match AnyAge(s.store, key)
       case None => {}
       case Some(r) => {Served(read, key, Saved, r, s.now)})
    case _ => {}
  }

  function Step(s: State, e: Event): State
    requires Enabled(s, e)
  {
    State(if e.Tick? then s.now + e.ms else s.now, StoreAfter(s, e), NetAfter(s, e), s.served + ServedBy(s, e))
  }

  // Every event can happen when its turn comes.
  predicate Possible(s: State, events: seq<Event>)
    decreases |events|
  {
    events == [] || (Enabled(s, events[0]) && Possible(Step(s, events[0]), events[1..]))
  }

  function Run(s: State, events: seq<Event>): State
    requires Possible(s, events)
    decreases |events|
  {
    if events == [] then s else Run(Step(s, events[0]), events[1..])
  }

  lemma {:induction false} Append(s: State, events: seq<Event>, e: Event)
    requires Possible(s, events) && Enabled(Run(s, events), e)
    ensures Possible(s, events + [e]) && Run(s, events + [e]) == Step(Run(s, events), e)
    decreases |events|
  {
    if events == [] {
      assert [e][1..] == [];
    } else {
      Append(Step(s, events[0]), events[1..], e);
      assert (events + [e])[1..] == events[1..] + [e];
    }
  }
}
