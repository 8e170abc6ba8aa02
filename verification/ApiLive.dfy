/**
  Live reads bypass the cache; afterwards, cached reads must not go back to what was there before.
  `Floor` says that no copy of a key received before `r` can still reach a read begun since then.
  It is exactly the condition under which no such read ever is given one. `Clear` is the same but
  for localStorage, whose copy the live read's own save replaces later.
 */
module ApiLive {
  import opened Wrappers
  import opened MemoryCache
  import opened RequestModel
  import opened ApiSharing

  // ---------- Where an old copy can still be ----------

  ghost predicate MemFloor(mem: seq<Slot>, key: Key, r: int) {
    forall x :: x in mem && x.key == key ==> x.cached.response.receivedAt >= r
  }

  ghost predicate DiskFloor(disk: map<Key, DiskCopy>, key: Key, r: int) {
    key in disk ==> disk[key].response.receivedAt >= r
  }

  ghost predicate SavesFloor(saves: seq<Save>, key: Key, r: int) {
    forall v :: v in saves && v.key == key ==> v.response.receivedAt >= r
  }

  predicate NotOlder(copy: Option<Response>, r: int) {
    copy.Some? ==> copy.value.receivedAt >= r
  }

  // A copy a running request may still hand to its readers: a failed background refresh hands
  // out the one it captured.
  function Holds(q: Request): Option<Response> {
    match q.outcome
    case None => if q.kind.Background? then Some(q.kind.captured) else None
    case Some(Failed) => if q.kind.Background? then Some(q.kind.captured) else None
    case Some(Ok(response)) => Some(response)
    case Some(NotOk) => None
  }

  // The request later reads of the key would share.
  ghost predicate TableFloor(net: Net, key: Key, r: int) {
    key in net.inflight && net.inflight[key] in net.requests ==> NotOlder(Holds(net.requests[net.inflight[key]]), r)
  }

  // The requests that reads begun since `since` wait for.
  ghost predicate WaitingFloor(net: Net, key: Key, r: int, since: nat) {
    forall w :: w in net.waiting && w >= since && net.waiting[w].request in net.requests &&
                net.requests[net.waiting[w].request].key == key ==>
                  NotOlder(Holds(net.requests[net.waiting[w].request]), r)
  }

  // A suspended read keeps its copy for itself once it is past the in-flight check; before, it may
  // start a background refresh that others share.
  ghost predicate ParkedFloor(net: Net, key: Key, r: int, since: nat) {
    forall p :: p in net.parked && net.parked[p].key == key && (p >= since || !net.parked[p].checked) ==>
      NotOlder(net.parked[p].copy, r)
  }

  ghost predicate ServedFloor(served: set<Served>, key: Key, r: int, since: nat) {
    forall x :: x in served && x.read >= since && x.key == key ==> x.response.receivedAt >= r
  }

  ghost predicate NetFloor(net: Net, key: Key, r: int, since: nat) {
    TableFloor(net, key, r) && WaitingFloor(net, key, r, since) && ParkedFloor(net, key, r, since)
  }

  ghost predicate Clear(s: State, key: Key, r: int, since: nat) {
    && r <= s.now && since <= s.net.nextId
    && MemFloor(s.store.mem, key, r) && SavesFloor(s.store.saves, key, r)
    && NetFloor(s.net, key, r, since) && ServedFloor(s.served, key, r, since)
  }

  ghost predicate Floor(s: State, key: Key, r: int, since: nat) {
    Clear(s, key, r, since) && DiskFloor(s.store.disk, key, r)
  }

  // No cached read of the key begun since `since` was given an older copy or, however the run goes
  // on, ever will be.
  ghost predicate NeverOlder(s: State, key: Key, r: int, since: nat) {
    forall events :: Possible(s, events) ==> ServedFloor(Run(s, events).served, key, r, since)
  }

  // ---------- What takes an old copy out of localStorage ----------

  // A read that memory does not answer takes localStorage's copy up when it is inside the read's
  // windows, or when the read pauses with it.
  predicate ReadTakesUp(s: State, key: Key, init: Init, offline: bool, r: int) {
    var hit := DiskHit(s.store.disk, key, s.now, init.staleMs);
    var paused := PauseOf(StoreAfterRead(s.store, s.now, key, init), s.net, s.now, key, init, offline);
    && !MemAnswers(s.store, s.now, key, init.staleMs)
    && ((hit.Some? && hit.value.response.receivedAt < r) ||
        (Found(s.store, s.now, key, init.staleMs) == Candidate(None) &&
         paused.Some? && !NotOlder(paused.value.copy, r)))
  }

  // An event that makes a read begun since `since` take up an older copy.
  predicate TakesUp(s: State, e: Event, key: Key, r: int, since: nat)
    requires Enabled(s, e)
  {
    match e
    case CachedRead(k, init) => k == key && ReadTakesUp(s, key, init, false, r)
    case OfflineRead(k, init) => k == key && ReadTakesUp(s, key, init, true, r)
    case Resume(read, offline) =>
      var p := s.net.parked[read];
      && read >= since && p.key == key && !p.checked && p.copy.None? && offline && key !in s.net.inflight
      && !NotOlder(AnyAge(s.store, key), r)
    case Fallback(read) =>
      && read >= since && s.net.requests[s.net.waiting[read].request].key == key
      && !NotOlder(AnyAge(s.store, key), r)
    case _ => false
  }

  ghost predicate NoneTakesUp(s: State, events: seq<Event>, key: Key, r: int, since: nat)
    requires Possible(s, events)
    decreases |events|
  {
    events == [] ||
    (!TakesUp(s, events[0], key, r, since) && NoneTakesUp(Step(s, events[0]), events[1..], key, r, since))
  }

  // ---------- One event ----------

  lemma MemKeepsFloor(s: State, e: Event, key: Key, r: int, since: nat)
    requires Enabled(s, e) && r <= s.now && MemFloor(s.store.mem, key, r) && !TakesUp(s, e, key, r, since)
    ensures MemFloor(StoreAfter(s, e).mem, key, r)
  {
  }

  lemma SavesKeepFloor(s: State, e: Event, key: Key, r: int)
    requires Enabled(s, e) && r <= s.now && SavesFloor(s.store.saves, key, r)
    ensures SavesFloor(StoreAfter(s, e).saves, key, r)
    ensures DiskFloor(s.store.disk, key, r) ==> DiskFloor(StoreAfter(s, e).disk, key, r)
  {
    match e
    case SaveLands(i, stored) => assert s.store.saves[i] in s.store.saves;
    case _ =>
  }

  lemma BeginKeepsFloor(net: Net, read: nat, k: Key, ttl: nat, c: Option<Response>, key: Key, r: int, since: nat)
    requires Sound(net) && NetFloor(net, key, r, since) && (k == key ==> NotOlder(c, r))
    ensures NetFloor(Begun(net, read, k, ttl, c), key, r, since)
  {
  }

  lemma DispatchKeepsFloor(net: Net, read: nat, k: Key, ttl: nat, c: Option<Response>, key: Key, r: int, since: nat)
    requires Sound(net) && NetFloor(net, key, r, since) && (k == key ==> NotOlder(c, r))
    ensures NetFloor(Dispatched(net, read, k, ttl, c), key, r, since)
  {
    if k !in net.inflight {
      BeginKeepsFloor(net, read, k, ttl, c, key, r, since);
    }
  }

  lemma ParkKeepsFloor(net: Net, read: nat, p: Parked, key: Key, r: int, since: nat)
    requires NetFloor(net, key, r, since) && (p.key == key && (read >= since || !p.checked) ==> NotOlder(p.copy, r))
    ensures NetFloor(net.(parked := net.parked[read := p]), key, r, since)
    ensures NetFloor(net.(parked := net.parked - {read}), key, r, since)
  {
  }

  lemma ReadKeepsFloor(net: Net, k: Key, init: Init, found: Lookup, paused: Option<Parked>, key: Key, r: int,
                       since: nat)
    requires Sound(net) && NetFloor(net, key, r, since)
    requires k == key && found.Candidate? ==>
               NotOlder(found.copy, r) && (found.copy.None? && paused.Some? ==> NotOlder(paused.value.copy, r))
    requires paused.Some? ==> paused.value.key == k
    ensures NetFloor(NetAfterRead(net, k, init, found, paused), key, r, since)
  {
    var net1 := net.(nextId := net.nextId + 1);
    NextIdSound(net);
    if found.Candidate? {
      if found.copy.None? && paused.Some? {
        ParkKeepsFloor(net1, net.nextId, paused.value, key, r, since);
      } else {
        DispatchKeepsFloor(net1, net.nextId, k, init.ttl, found.copy, key, r, since);
      }
    }
  }

  lemma ResumeKeepsFloor(net: Net, read: nat, offline: bool, last: Option<Response>, key: Key, r: int, since: nat)
    requires Sound(net) && read in net.parked && NetFloor(net, key, r, since)
    requires var p := net.parked[read];
             read >= since && p.key == key && !p.checked && p.copy.None? && offline && key !in net.inflight ==>
               NotOlder(last, r)
    ensures NetFloor(NetAfterResume(net, read, offline, last), key, r, since)
  {
    var p := net.parked[read];
    var net1 := net.(parked := net.parked - {read});
    ParkSound(net, read, p);
    assert NetFloor(net1, key, r, since);
    if p.checked {
      BeginKeepsFloor(net1, read, p.key, p.ttl, None, key, r, since);
    } else if offline && p.copy.None? && p.key !in net.inflight {
      ParkKeepsFloor(net1, read, Parked(p.key, p.ttl, true, last), key, r, since);
    } else {
      DispatchKeepsFloor(net1, read, p.key, p.ttl, p.copy, key, r, since);
    }
  }

  // What the lookups of a read find that takes up no older copy.
  lemma FoundAboveFloor(s: State, key: Key, init: Init, offline: bool, r: int)
    requires MemFloor(s.store.mem, key, r) && !ReadTakesUp(s, key, init, offline, r)
    ensures match Found(s.store, s.now, key, init.staleMs)
            case Answer(x) => x.receivedAt >= r
            case Candidate(c) => NotOlder(c, r)
  {
    var mem := Hit(s.store.mem, key, s.now, init.staleMs);
    if mem.Some? {
      assert Slot(key, mem.value) in s.store.mem;
    }
  }

  lemma ReadingKeepsFloor(s: State, k: Key, init: Init, offline: bool, key: Key, r: int, since: nat)
    requires Sound(s.net) && MemFloor(s.store.mem, key, r) && NetFloor(s.net, key, r, since)
    requires k == key ==> !ReadTakesUp(s, key, init, offline, r)
    ensures NetFloor(NetAfterReading(s, k, init, offline), key, r, since)
  {
    if k == key {
      FoundAboveFloor(s, key, init, offline, r);
    }
    ReadKeepsFloor(s.net, k, init, Found(s.store, s.now, k, init.staleMs),
                   PauseOf(StoreAfterRead(s.store, s.now, k, init), s.net, s.now, k, init, offline), key, r, since);
  }

  lemma LandKeepsFloor(net: Net, id: nat, landing: Landing, now: int, key: Key, r: int, since: nat)
    requires Sound(net) && id in net.requests && r <= now && net.requests[id].outcome.None?
    requires NetFloor(net, key, r, since)
    ensures NetFloor(NetAfterLanding(net, id, landing, now), key, r, since)
  {
  }

  lemma NetKeepsFloor(s: State, e: Event, key: Key, r: int, since: nat)
    requires Enabled(s, e) && Sound(s.net) && Clear(s, key, r, since) && !TakesUp(s, e, key, r, since)
    ensures NetFloor(NetAfter(s, e), key, r, since)
  {
    match e
    case CachedRead(k, init) => ReadingKeepsFloor(s, k, init, false, key, r, since);
    case OfflineRead(k, init) => ReadingKeepsFloor(s, k, init, true, key, r, since);
    case Resume(read, offline) =>
      ResumeKeepsFloor(s.net, read, offline, AnyAge(s.store, s.net.parked[read].key), key, r, since);
    case Land(id, landing) => LandKeepsFloor(s.net, id, landing, s.now, key, r, since);
    case _ =>
  }

  lemma ServedAboveFloor(s: State, e: Event, key: Key, r: int, since: nat)
    requires Enabled(s, e) && Clear(s, key, r, since) && !TakesUp(s, e, key, r, since)
    ensures ServedFloor(ServedBy(s, e), key, r, since)
  {
    match e
    case CachedRead(k, init) =>
      if k == key {
        FoundAboveFloor(s, key, init, false, r);
      }
    case OfflineRead(k, init) =>
      if k == key {
        FoundAboveFloor(s, key, init, true, r);
      }
    case _ =>
  }

  // An event that takes up an older copy leaves it in memory, with the suspended read, or served.
  lemma TakenUpShows(s: State, e: Event, key: Key, r: int, since: nat)
    requires Enabled(s, e) && since <= s.net.nextId && TakesUp(s, e, key, r, since)
    ensures !MemFloor(StoreAfter(s, e).mem, key, r) || !ParkedFloor(NetAfter(s, e), key, r, since)
            || !ServedFloor(ServedBy(s, e), key, r, since)
  {
    match e
    case CachedRead(k, init) => ReadShows(s, key, init, false, r, since);
    case OfflineRead(k, init) => ReadShows(s, key, init, true, r, since);
    case Resume(read, offline) => assert NetAfter(s, e).parked[read].copy == AnyAge(s.store, key);
    case Fallback(read) =>
      assert Served(read, key, Saved, AnyAge(s.store, key).value, s.now) in ServedBy(s, e);
  }

  lemma ReadShows(s: State, key: Key, init: Init, offline: bool, r: int, since: nat)
    requires since <= s.net.nextId && ReadTakesUp(s, key, init, offline, r)
    ensures !MemFloor(MemAfterRead(s.store, s.now, key, init), key, r)
            || !ParkedFloor(NetAfterReading(s, key, init, offline), key, r, since)
  {
    var hit := DiskHit(s.store.disk, key, s.now, init.staleMs);
    if hit.Some? && hit.value.response.receivedAt < r {
      var mem := MemAfterRead(s.store, s.now, key, init);
      assert mem[|mem| - 1] == Slot(key, Promoted(hit.value, s.now, init.ttl));
      assert Slot(key, Promoted(hit.value, s.now, init.ttl)) in mem;
    } else {
      var paused := PauseOf(StoreAfterRead(s.store, s.now, key, init), s.net, s.now, key, init, offline);
      assert NetAfterReading(s, key, init, offline).parked[s.net.nextId] == paused.value;
    }
  }

  lemma ReadIdGrows(net: Net, key: Key, init: Init, found: Lookup, paused: Option<Parked>)
    ensures NetAfterRead(net, key, init, found, paused).nextId > net.nextId
  {
  }

  lemma ResumeIdsGrow(net: Net, read: nat, offline: bool, last: Option<Response>)
    requires read in net.parked
    ensures NetAfterResume(net, read, offline, last).nextId >= net.nextId
  {
  }

  lemma IdsGrow(s: State, e: Event)
    requires Enabled(s, e)
    ensures NetAfter(s, e).nextId >= s.net.nextId
    ensures e.CachedRead? || e.OfflineRead? ==> NetAfter(s, e).nextId > s.net.nextId
  {
    match e
    case CachedRead(key, init) =>
      ReadIdGrows(s.net, key, init, Found(s.store, s.now, key, init.staleMs),
                  PauseOf(StoreAfterRead(s.store, s.now, key, init), s.net, s.now, key, init, false));
    case OfflineRead(key, init) =>
      ReadIdGrows(s.net, key, init, Found(s.store, s.now, key, init.staleMs),
                  PauseOf(StoreAfterRead(s.store, s.now, key, init), s.net, s.now, key, init, true));
    case Resume(read, offline) => ResumeIdsGrow(s.net, read, offline, AnyAge(s.store, s.net.parked[read].key));
    case _ =>
  }

  // Each event keeps every place but localStorage free of older copies exactly unless it takes one
  // up from there.
  lemma ClearUnlessTakenUp(s: State, e: Event, key: Key, r: int, since: nat)
    requires Enabled(s, e) && Sound(s.net) && Clear(s, key, r, since)
    ensures Clear(Step(s, e), key, r, since) <==> !TakesUp(s, e, key, r, since)
  {
    IdsGrow(s, e);
    if TakesUp(s, e, key, r, since) {
      TakenUpShows(s, e, key, r, since);
    } else {
      MemKeepsFloor(s, e, key, r, since);
      SavesKeepFloor(s, e, key, r);
      NetKeepsFloor(s, e, key, r, since);
      ServedAboveFloor(s, e, key, r, since);
    }
  }

  lemma {:induction false} GapStaysClear(s: State, events: seq<Event>, key: Key, r: int, since: nat)
    requires Sound(s.net) && Clear(s, key, r, since)
    requires Possible(s, events) && NoneTakesUp(s, events, key, r, since)
    ensures Clear(Run(s, events), key, r, since)
    decreases |events|
  {
    if events == [] {
    } else {
      ClearUnlessTakenUp(s, events[0], key, r, since);
      ExactUnlessOverlap(s, events[0]);
      GapStaysClear(Step(s, events[0]), events[1..], key, r, since);
    }
  }

  lemma NothingToTakeUp(s: State, e: Event, key: Key, r: int, since: nat)
    requires Enabled(s, e) && Floor(s, key, r, since)
    ensures !TakesUp(s, e, key, r, since)
  {
  }

  lemma {:induction false} FloorRun(s: State, events: seq<Event>, key: Key, r: int, since: nat)
    requires Possible(s, events) && Sound(s.net) && Floor(s, key, r, since)
    ensures ServedFloor(Run(s, events).served, key, r, since)
    decreases |events|
  {
    if events == [] {
    } else {
      NothingToTakeUp(s, events[0], key, r, since);
      ClearUnlessTakenUp(s, events[0], key, r, since);
      SavesKeepFloor(s, events[0], key, r);
      ExactUnlessOverlap(s, events[0]);
      FloorRun(Step(s, events[0]), events[1..], key, r, since);
    }
  }

  // ---------- Every run ----------

  // What every reachable state satisfies, online or not.
  ghost predicate Sane(s: State) {
    && Sound(s.net) && DistinctKeys(s.store.mem)
    && (forall x :: x in s.served ==> x.read < s.net.nextId)
  }

  lemma MemStaysDistinct(s: State, e: Event)
    requires Enabled(s, e) && DistinctKeys(s.store.mem)
    ensures DistinctKeys(StoreAfter(s, e).mem)
  {
    match e
    case CachedRead(key, init) => ReadStaysDistinct(s.store, s.now, key, init);
    case OfflineRead(key, init) => ReadStaysDistinct(s.store, s.now, key, init);
    case Land(id, landing) => LandingStaysDistinct(s.store, s.net.requests[id], landing, s.now);
    case Seed(key, content, ttl) => SeedStaysDistinct(s.store, key, content, ttl, s.now);
    case SaveLands(i, stored) => SaveKeepsMem(s.store, i, stored, s.now);
    case _ =>
  }

  lemma SaveKeepsMem(store: Store, i: nat, stored: bool, now: int)
    requires i < |store.saves|
    ensures StoreAfterSave(store, i, stored, now).mem == store.mem
  {
  }

  lemma SeedStaysDistinct(store: Store, key: Key, content: string, ttl: nat, now: int)
    requires DistinctKeys(store.mem)
    ensures DistinctKeys(StoreAfterSeed(store, key, content, ttl, now).mem)
  {
    WrittenDistinct(store.mem, key, Cached(now, now + ttl, Response(content, now)), now);
  }

  lemma LandingStaysDistinct(store: Store, q: Request, landing: Landing, now: int)
    requires DistinctKeys(store.mem)
    ensures DistinctKeys(StoreAfterLanding(store, q, landing, now).mem)
  {
    var mem := StoreAfterLanding(store, q, landing, now).mem;
    var cached := Cached(now, now + q.ttl, Response(if landing.Arrives? then landing.content else "", now));
    WithoutDistinct(store.mem, q.key);
    WrittenDistinct(store.mem, q.key, cached, now);
    assert mem == store.mem || mem == Without(store.mem, q.key) || mem == Written(store.mem, q.key, cached, now);
  }

  lemma ReadStaysDistinct(store: Store, now: int, key: Key, init: Init)
    requires DistinctKeys(store.mem)
    ensures DistinctKeys(MemAfterRead(store, now, key, init))
  {
    WithoutDistinct(store.mem, key);
    var mem := Kept(store.mem, key, now, init.staleMs);
    var disk := DiskHit(store.disk, key, now, init.staleMs);
    if disk.Some? {
      WrittenDistinct(mem, key, Promoted(disk.value, now, init.ttl), now);
    }
  }

  lemma ServedIdsKnown(s: State, e: Event)
    requires Enabled(s, e) && WellFormed(s.net)
    ensures forall x :: x in ServedBy(s, e) ==>
              x.read < s.net.nextId || (x.read == s.net.nextId && (e.CachedRead? || e.OfflineRead?))
  {
  }

  lemma StaysSane(s: State, e: Event)
    requires Sane(s) && Enabled(s, e)
    ensures Sane(Step(s, e))
  {
    ExactUnlessOverlap(s, e);
    MemStaysDistinct(s, e);
    IdsGrow(s, e);
    ServedIdsKnown(s, e);
  }

  lemma {:induction false} RunStaysSane(s: State, events: seq<Event>)
    requires Sane(s) && Possible(s, events)
    ensures Sane(Run(s, events))
    decreases |events|
  {
    if events == [] {
    } else {
      StaysSane(s, events[0]);
      RunStaysSane(Step(s, events[0]), events[1..]);
    }
  }

  // ---------- Below the floor, some later read is given the old copy ----------

  // A run that ends with an older copy given to a read begun since `since`.
  ghost predicate GivesOlder(s: State, events: seq<Event>, key: Key, r: int, since: nat) {
    Possible(s, events) && !ServedFloor(Run(s, events).served, key, r, since)
  }

  lemma First(s: State, e: Event, rest: seq<Event>, key: Key, r: int, since: nat) returns (events: seq<Event>)
    requires Enabled(s, e) && GivesOlder(Step(s, e), rest, key, r, since)
    ensures GivesOlder(s, events, key, r, since)
  {
    events := [e] + rest;
    assert events[1..] == rest;
  }

  lemma Last(s: State, e: Event, x: Served, key: Key, r: int, since: nat) returns (events: seq<Event>)
    requires Enabled(s, e) && x in ServedBy(s, e)
    requires x.read >= since && x.key == key && x.response.receivedAt < r
    ensures GivesOlder(s, events, key, r, since)
  {
    assert x in Step(s, e).served;
    events := First(s, e, [], key, r, since);
  }

  lemma {:induction false} FindDistinct(slots: seq<Slot>, x: Slot)
    requires DistinctKeys(slots) && x in slots
    ensures Find(slots, x.key) == Some(x.cached)
  {
    if slots[0] != x {
      assert x in slots[1..];
      FindDistinct(slots[1..], x);
    }
  }

  // A stale window long enough for any copy.
  function AnyStale(expiresAt: int, now: int): nat {
    if now - expiresAt > 0 then now - expiresAt else 1
  }

  lemma OldInMemory(s: State, key: Key, r: int, since: nat, x: Slot) returns (events: seq<Event>)
    requires Sane(s) && since <= s.net.nextId && x in s.store.mem && x.key == key && x.cached.response.receivedAt < r
    ensures GivesOlder(s, events, key, r, since)
  {
    FindDistinct(s.store.mem, x);
    var c := x.cached;
    var read := CachedRead(key, Init(1, AnyStale(c.expiresAt, s.now), 0));
    var s1 := Step(s, Vanish(key));
    assert Found(s1.store, s1.now, key, read.init.staleMs) ==
        if Fresh(c.expiresAt, s.now) then Answer(c.response) else Candidate(Some(c.response));
    var source := if Fresh(c.expiresAt, s.now) then FreshCopy else StaleCopy;
    events := Last(s1, read, Served(s.net.nextId, key, source, c.response, s.now), key, r, since);
    events := First(s, Vanish(key), events, key, r, since);
  }

  lemma OldOnDisk(s: State, key: Key, r: int, since: nat) returns (events: seq<Event>)
    requires since <= s.net.nextId && !DiskFloor(s.store.disk, key, r)
    ensures GivesOlder(s, events, key, r, since)
  {
    var copy := s.store.disk[key];
    var read := CachedRead(key, Init(1, AnyStale(copy.expiresAt, s.now), 0));
    var source := if Fresh(copy.expiresAt, s.now) then FreshCopy else StaleCopy;
    events := Last(Step(s, Reload), read, Served(s.net.nextId, key, source, copy.response, s.now), key, r, since);
    events := First(s, Reload, events, key, r, since);
  }

  lemma OldInSave(s: State, key: Key, r: int, since: nat, i: nat) returns (events: seq<Event>)
    requires since <= s.net.nextId && i < |s.store.saves|
    requires s.store.saves[i].key == key && s.store.saves[i].response.receivedAt < r
    ensures GivesOlder(s, events, key, r, since)
  {
    var e := SaveLands(i, true);
    events := OldOnDisk(Step(s, e), key, r, since);
    events := First(s, e, events, key, r, since);
  }

  // A later read waits for a request that holds an older copy: the request fails, or has ended.
  lemma WaiterIsGiven(s: State, key: Key, r: int, since: nat, w: nat) returns (events: seq<Event>)
    requires w in s.net.waiting && w >= since && s.net.waiting[w].request in s.net.requests
    requires var q := s.net.requests[s.net.waiting[w].request]; q.key == key && !NotOlder(Holds(q), r)
    ensures GivesOlder(s, events, key, r, since)
  {
    var id := s.net.waiting[w].request;
    var fail := Land(id, Lost);
    var s1 := if s.net.requests[id].outcome.None? then Step(s, fail) else s;
    var q := s1.net.requests[id];
    assert w in ReadersOf(s1.net, id);
    var x := Served(w, key, Delivered(q).value.0, Delivered(q).value.1, s1.now);
    events := Last(s1, Settle(id), x, key, r, since);
    if s.net.requests[id].outcome.None? {
      events := First(s, fail, events, key, r, since);
    }
  }

  // The table's request holds an older copy: wait until memory's copy is past its fresh window and
  // localStorage's is gone, then read with no stale window and share the request.
  lemma OldInTable(s: State, key: Key, r: int, since: nat) returns (events: seq<Event>)
    requires Sane(s) && since <= s.net.nextId && !TableFloor(s.net, key, r)
    ensures GivesOlder(s, events, key, r, since)
  {
    var hit := Find(s.store.mem, key);
    var wait: nat := if hit.Some? && hit.value.expiresAt > s.now then hit.value.expiresAt - s.now else 0;
    var s1 := Step(s, Vanish(key));
    var s2 := Step(s1, Tick(wait));
    var read := CachedRead(key, Init(1, 0, 0));
    NothingLeft(s2, key);
    events := WaiterIsGiven(Step(s2, read), key, r, since, s.net.nextId);
    events := First(s2, read, events, key, r, since);
    events := First(s1, Tick(wait), events, key, r, since);
    events := First(s, Vanish(key), events, key, r, since);
  }

  lemma {:induction false} NothingLeft(s: State, key: Key)
    requires key in s.net.inflight && key !in s.store.disk
    requires Find(s.store.mem, key).Some? ==> Find(s.store.mem, key).value.expiresAt <= s.now
    ensures Step(s, CachedRead(key, Init(1, 0, 0))).net ==
            s.net.(nextId := s.net.nextId + 1,
                   waiting := s.net.waiting[s.net.nextId := Waiter(s.net.inflight[key], false)])
  {
    assert Found(s.store, s.now, key, 0) == Candidate(None);
  }

  // A suspended read with an older copy: a later one is given it; one that has not checked the
  // table starts a background refresh with it, once no request for the key is running.
  lemma OldWithParked(s: State, key: Key, r: int, since: nat, p: nat) returns (events: seq<Event>)
    requires Sane(s) && since <= s.net.nextId && p in s.net.parked
    requires var parked := s.net.parked[p];
             parked.key == key && (p >= since || !parked.checked) && !NotOlder(parked.copy, r)
    ensures GivesOlder(s, events, key, r, since)
    decreases key in s.net.inflight, key in s.net.inflight && s.net.requests[s.net.inflight[key]].outcome.None?
  {
    var e := Resume(p, false);
    if p >= since {
      events := Last(s, e, Served(p, key, Saved, s.net.parked[p].copy.value, s.now), key, r, since);
    } else if key !in s.net.inflight {
      StaysSane(s, e);
      events := OldInTable(Step(s, e), key, r, since);
      events := First(s, e, events, key, r, since);
    } else {
      var id := s.net.inflight[key];
      e := if s.net.requests[id].outcome.None? then Land(id, Lost) else Settle(id);
      StaysSane(s, e);
      events := OldWithParked(Step(s, e), key, r, since, p);
      events := First(s, e, events, key, r, since);
    }
  }

  lemma OldSomewhere(s: State, key: Key, r: int, since: nat) returns (events: seq<Event>)
    requires Sane(s) && since <= s.net.nextId && r <= s.now && !Floor(s, key, r, since)
    ensures GivesOlder(s, events, key, r, since)
  {
    if !ServedFloor(s.served, key, r, since) {
      events := [];
    } else if x :| x in s.store.mem && x.key == key && x.cached.response.receivedAt < r {
      events := OldInMemory(s, key, r, since, x);
    } else if !DiskFloor(s.store.disk, key, r) {
      events := OldOnDisk(s, key, r, since);
    } else if v :| v in s.store.saves && v.key == key && v.response.receivedAt < r {
      var i :| 0 <= i < |s.store.saves| && s.store.saves[i] == v;
      events := OldInSave(s, key, r, since, i);
    } else {
      events := OldInNet(s, key, r, since);
    }
  }

  lemma OldInNet(s: State, key: Key, r: int, since: nat) returns (events: seq<Event>)
    requires Sane(s) && since <= s.net.nextId && !NetFloor(s.net, key, r, since)
    ensures GivesOlder(s, events, key, r, since)
  {
    if !TableFloor(s.net, key, r) {
      events := OldInTable(s, key, r, since);
    } else if !WaitingFloor(s.net, key, r, since) {
      var w :| w in s.net.waiting && w >= since && s.net.waiting[w].request in s.net.requests &&
               s.net.requests[s.net.waiting[w].request].key == key &&
               !NotOlder(Holds(s.net.requests[s.net.waiting[w].request]), r);
      events := WaiterIsGiven(s, key, r, since, w);
    } else {
      var p :| p in s.net.parked && s.net.parked[p].key == key && (p >= since || !s.net.parked[p].checked) &&
               !NotOlder(s.net.parked[p].copy, r);
      events := OldWithParked(s, key, r, since, p);
    }
  }

  // In any state a run reaches, whatever events follow: no cached read begun since `since` was or
  // will be given a copy received before `r` exactly when none is left in memory, in localStorage,
  // in a save on its way there, with the request the table has for the key or one such a read waits
  // for, or with a suspended read that may still start a refresh or was begun since.
  lemma {:induction false} FloorIsExact(past: seq<Event>, key: Key, r: int, since: nat)
    requires Possible(START, past) && r <= Run(START, past).now && since <= Run(START, past).net.nextId
    ensures NeverOlder(Run(START, past), key, r, since) <==> Floor(Run(START, past), key, r, since)
  {
    RunStaysSane(START, past);
    ExactFloor(Run(START, past), key, r, since);
  }

  lemma ExactFloor(s: State, key: Key, r: int, since: nat)
    requires Sane(s) && r <= s.now && since <= s.net.nextId
    ensures NeverOlder(s, key, r, since) <==> Floor(s, key, r, since)
  {
    if Floor(s, key, r, since) {
      forall events | Possible(s, events) ensures ServedFloor(Run(s, events).served, key, r, since) {
        FloorRun(s, events, key, r, since);
      }
    } else {
      var events := OldSomewhere(s, key, r, since);
      assert GivesOlder(s, events, key, r, since);
    }
  }

  // ---------- After a live read ----------

  predicate LiveRunning(s: State, id: nat) {
    id in s.net.requests && s.net.requests[id].kind == Live(true) && s.net.requests[id].outcome.None?
  }

  // The save a live read leaves: never fresh.
  function LiveSave(key: Key, content: string, now: int): Save {
    Save(key, Response(content, now), 1)
  }

  predicate IsLiveSave(u: State, i: nat, key: Key, content: string, r: int) {
    i < |u.store.saves| && u.store.saves[i] == LiveSave(key, content, r)
  }

  // As a live read lands: no older save is still to happen, the request the table has for the key
  // holds no older copy, and neither does a suspended read that may still start one.
  ghost predicate Quiet(s: State, key: Key, r: int) {
    SavesFloor(s.store.saves, key, r) && TableFloor(s.net, key, r) && ParkedFloor(s.net, key, r, s.net.nextId)
  }

  lemma LandingClears(s: State, id: nat, content: string)
    requires Sane(s) && LiveRunning(s, id)
    ensures var s1, key := Step(s, Land(id, Arrives(content))), s.net.requests[id].key;
            && s1.now == s.now && s1.net.nextId == s.net.nextId
            && s1.store.saves == s.store.saves + [LiveSave(key, content, s.now)]
            && (Clear(s1, key, s.now, s.net.nextId) <==> Quiet(s, key, s.now))
  {
    var s1, key := Step(s, Land(id, Arrives(content))), s.net.requests[id].key;
    assert s1.net.requests == s.net.requests - {id};
    LandedSaves(s.store.saves, LiveSave(key, content, s.now), key, s.now);
    if key in s.net.inflight {
      assert s.net.inflight[key] != id;
    }
  }

  lemma LandedSaves(saves: seq<Save>, v: Save, key: Key, r: int)
    requires v.response.receivedAt >= r
    ensures SavesFloor(saves + [v], key, r) <==> SavesFloor(saves, key, r)
  {
    if SavesFloor(saves + [v], key, r) {
      forall x | x in saves && x.key == key ensures x.response.receivedAt >= r {
        assert x in saves + [v];
      }
    }
  }

  // When the live read's save lands, everything not in localStorage decides.
  lemma SaveDecides(u: State, key: Key, content: string, r: int, since: nat, i: nat)
    requires Sane(u) && r <= u.now && since <= u.net.nextId
    requires IsLiveSave(u, i, key, content, r)
    ensures NeverOlder(Step(u, SaveLands(i, true)), key, r, since) <==> Clear(u, key, r, since)
  {
    var t := Step(u, SaveLands(i, true));
    StaysSane(u, SaveLands(i, true));
    ExactFloor(t, key, r, since);
    assert t.store.disk[key].response == Response(content, r);
    SavesAround(u.store.saves, i, key, r);
  }

  lemma SavesAround(saves: seq<Save>, i: nat, key: Key, r: int)
    requires i < |saves| && saves[i].response.receivedAt >= r
    ensures SavesFloor(saves[..i] + saves[i + 1..], key, r) <==> SavesFloor(saves, key, r)
  {
    assert forall k :: 0 <= k < i ==> (saves[..i] + saves[i + 1..])[k] == saves[k];
    assert forall k :: i < k < |saves| ==> (saves[..i] + saves[i + 1..])[k - 1] == saves[k];
    if SavesFloor(saves[..i] + saves[i + 1..], key, r) {
      forall v | v in saves && v.key == key ensures v.response.receivedAt >= r {
        var k :| 0 <= k < |saves| && saves[k] == v;
        assert k != i ==> v in saves[..i] + saves[i + 1..];
      }
    }
  }

  // After any run, a live read of a key lands at time r, anything happens in the gap, and its save
  // lands. No cached read begun since the landing, or since any later moment, was or will be given a
  // copy received before r exactly when, as the save lands, none is left for it outside localStorage.
  // None is, when the landing was quiet and no read in the gap took one up from localStorage.
  lemma {:induction false} LiveReadsDoNotGoBack(past: seq<Event>, id: nat, content: string, gap: seq<Event>,
                                                i: nat, since: nat)
    requires Possible(START, past) && LiveRunning(Run(START, past), id)
    requires Possible(Step(Run(START, past), Land(id, Arrives(content))), gap)
    requires var s := Run(START, past);
             var u := Run(Step(s, Land(id, Arrives(content))), gap);
             IsLiveSave(u, i, s.net.requests[id].key, content, s.now) && since <= u.net.nextId
    ensures var s := Run(START, past);
            var s1, key := Step(s, Land(id, Arrives(content))), s.net.requests[id].key;
            var u := Run(s1, gap);
            && (NeverOlder(Step(u, SaveLands(i, true)), key, s.now, since) <==> Clear(u, key, s.now, since))
            && (Quiet(s, key, s.now) && NoneTakesUp(s1, gap, key, s.now, s.net.nextId) ==>
                  Clear(u, key, s.now, s.net.nextId))
  {
    RunStaysSane(START, past);
    GapDecides(Run(START, past), id, content, gap, i, since);
  }

  lemma {:induction false} GapDecides(s: State, id: nat, content: string, gap: seq<Event>, i: nat, since: nat)
    requires Sane(s) && LiveRunning(s, id) && Possible(Step(s, Land(id, Arrives(content))), gap)
    requires var u := Run(Step(s, Land(id, Arrives(content))), gap);
             IsLiveSave(u, i, s.net.requests[id].key, content, s.now) && since <= u.net.nextId
    ensures var s1, key := Step(s, Land(id, Arrives(content))), s.net.requests[id].key;
            var u := Run(s1, gap);
            && (NeverOlder(Step(u, SaveLands(i, true)), key, s.now, since) <==> Clear(u, key, s.now, since))
            && (Quiet(s, key, s.now) && NoneTakesUp(s1, gap, key, s.now, s.net.nextId) ==>
                  Clear(u, key, s.now, s.net.nextId))
  {
    var land := Land(id, Arrives(content));
    var s1, key := Step(s, land), s.net.requests[id].key;
    StaysSane(s, land);
    LandingClears(s, id, content);
    RunStaysSane(s1, gap);
    TimeGrows(s1, gap);
    SaveDecides(Run(s1, gap), key, content, s.now, since, i);
    if Quiet(s, key, s.now) && NoneTakesUp(s1, gap, key, s.now, s.net.nextId) {
      GapStaysClear(s1, gap, key, s.now, s.net.nextId);
    }
  }

  lemma {:induction false} TimeGrows(s: State, events: seq<Event>)
    requires Possible(s, events)
    ensures Run(s, events).now >= s.now && Run(s, events).net.nextId >= s.net.nextId
    decreases |events|
  {
    if events == [] {
    } else {
      IdsGrow(s, events[0]);
      TimeGrows(Step(s, events[0]), events[1..]);
    }
  }

  // A gap without a read that takes an older copy up, with the save still to happen at its end.
  ghost predicate HarmlessGap(s: State, gap: seq<Event>, key: Key, content: string, r: int, since: nat, i: nat) {
    && Possible(s, gap) && NoneTakesUp(s, gap, key, r, since)
    && IsLiveSave(Run(s, gap), i, key, content, r)
  }

  // Quiet as the live read lands is just what it takes for every gap without such a read.
  lemma {:induction false} QuietIsExact(past: seq<Event>, id: nat, content: string)
    requires Possible(START, past) && LiveRunning(Run(START, past), id)
    ensures var s := Run(START, past);
            var s1, key, since := Step(s, Land(id, Arrives(content))), s.net.requests[id].key, s.net.nextId;
            Quiet(s, key, s.now) <==>
            forall gap, i: nat :: HarmlessGap(s1, gap, key, content, s.now, since, i) ==>
                                    NeverOlder(Step(Run(s1, gap), SaveLands(i, true)), key, s.now, since)
  {
    RunStaysSane(START, past);
    var s := Run(START, past);
    var s1, key, since := Step(s, Land(id, Arrives(content))), s.net.requests[id].key, s.net.nextId;
    forall gap, i: nat | HarmlessGap(s1, gap, key, content, s.now, since, i)
      ensures Quiet(s, key, s.now) ==> NeverOlder(Step(Run(s1, gap), SaveLands(i, true)), key, s.now, since)
    {
      TimeGrows(s1, gap);
      GapDecides(s, id, content, gap, i, since);
    }
    LandingClears(s, id, content);
    var last: nat := |s.store.saves|;
    assert Run(s1, []) == s1 && HarmlessGap(s1, [], key, content, s.now, since, last);
    GapDecides(s, id, content, [], last, since);
  }

  // After a quiet landing, the next event of the gap decides if the save follows it: it does harm
  // exactly when it takes an older copy up from localStorage.
  lemma {:induction false} TakingUpDecides(s: State, id: nat, content: string, gap: seq<Event>, e: Event, i: nat)
    requires Sane(s) && LiveRunning(s, id) && Quiet(s, s.net.requests[id].key, s.now)
    requires var s1 := Step(s, Land(id, Arrives(content)));
             && Possible(s1, gap) && NoneTakesUp(s1, gap, s.net.requests[id].key, s.now, s.net.nextId)
             && Enabled(Run(s1, gap), e)
    requires var u := Step(Run(Step(s, Land(id, Arrives(content))), gap), e);
             IsLiveSave(u, i, s.net.requests[id].key, content, s.now)
    ensures var key, since := s.net.requests[id].key, s.net.nextId;
            var u := Run(Step(s, Land(id, Arrives(content))), gap);
            NeverOlder(Step(Step(u, e), SaveLands(i, true)), key, s.now, since) <==> !TakesUp(u, e, key, s.now, since)
  {
    var key, since := s.net.requests[id].key, s.net.nextId;
    var s1 := Step(s, Land(id, Arrives(content)));
    var u := Run(s1, gap);
    StaysSane(s, Land(id, Arrives(content)));
    LandingClears(s, id, content);
    RunStaysSane(s1, gap);
    TimeGrows(s1, gap);
    GapStaysClear(s1, gap, key, s.now, since);
    ClearUnlessTakenUp(u, e, key, s.now, since);
    StaysSane(u, e);
    IdsGrow(u, e);
    SaveDecides(Step(u, e), key, content, s.now, since, i);
  }

  // A page that has only an old copy, still fresh in localStorage, and a live read on the network.
  lemma OldCopyAndLiveRead(key: Key, ttl: nat, wait: nat) returns (past: seq<Event>)
    requires 0 < wait < ttl
    ensures Possible(START, past)
    ensures var s := Run(START, past);
            && s.now == wait
            && s.store == Store([], map[key := DiskCopy(0, ttl, Retention(ttl), Response("old", 0))], [])
            && s.net == Net(map[], map[0 := Request(key, 0, Live(true), None)], map[], map[], 1)
  {
    var seed, save, live := Seed(key, "old", ttl), SaveLands(0, true), LiveRead(key, true);
    Append(START, [], seed);
    past := [] + [seed];
    assert Run(START, past).store.saves == [Save(key, Response("old", 0), ttl)];
    Append(START, past, save);
    past := past + [save];
    Append(START, past, Reload);
    past := past + [Reload];
    Append(START, past, live);
    past := past + [live];
    Append(START, past, Tick(wait));
    past := past + [Tick(wait)];
  }

  // So a cached read between the landing and its save harms even reads begun after the save: it
  // moves the old copy from localStorage into memory with a whole new TTL.
  lemma GapReadGoesBack(key: Key, ttl: nat, wait: nat, init: Init) returns (past: seq<Event>)
    requires 0 < wait < ttl && init.ttl > 0
    ensures Possible(START, past) && LiveRunning(Run(START, past), 0)
    ensures var s := Run(START, past);
            var u := Step(Step(s, Land(0, Arrives("new"))), CachedRead(key, init));
            && Quiet(s, key, s.now) && IsLiveSave(u, 0, key, "new", s.now)
            && !NeverOlder(Step(u, SaveLands(0, true)), key, s.now, u.net.nextId)
  {
    past := OldCopyAndLiveRead(key, ttl, wait);
    var s := Run(START, past);
    RunStaysSane(START, past);
    var s1 := Step(s, Land(0, Arrives("new")));
    LandingClears(s, 0, "new");
    assert s1.store.saves == [LiveSave(key, "new", s.now)];
    var read := CachedRead(key, init);
    FreshCopyIsPromoted(s1, key, init);
    StaysSane(s, Land(0, Arrives("new")));
    StaysSane(s1, read);
    SaveDecides(Step(s1, read), key, "new", s.now, Step(s1, read).net.nextId, 0);
  }

  // A read with nothing in memory moves a fresh saved copy there, as old as it is.
  lemma FreshCopyIsPromoted(s: State, key: Key, init: Init)
    requires init.ttl > 0 && s.store.mem == [] && key in s.store.disk && s.store.disk[key].expiresAt > s.now
    ensures Step(s, CachedRead(key, init)).store.saves == s.store.saves && Step(s, CachedRead(key, init)).now == s.now
    ensures var mem := Step(s, CachedRead(key, init)).store.mem;
            mem != [] && mem[0] in mem && mem[0].key == key && mem[0].cached.response == s.store.disk[key].response
  {
  }
}
