/**
  How old a copy can be when it is served. A key is read with one TTL `T` and one stale window `S`
  throughout, and a save reaches localStorage within `D` of its response (D is 0 when saves are
  instantaneous).
 */
module ApiAge {
  import opened Integers
  import opened Wrappers
  import opened MemoryCache
  import opened RequestModel

  datatype Windows = Windows(T: nat, S: nat, D: nat)

  // Every read and every stored copy of `key` uses these windows. Other keys are free.
  predicate Uniform(e: Event, key: Key, w: Windows) {
    match e
    case CachedRead(k, init) => k == key ==> init.ttl == w.T && init.staleMs == w.S
    case OfflineRead(k, init) => k == key ==> init.ttl == w.T && init.staleMs == w.S
    case Seed(k, _, ttl) => k == key ==> ttl <= w.T
    case _ => true
  }

  ghost predicate SavesPrompt(s: State, key: Key, D: nat) {
    forall v :: v in s.store.saves && v.key == key ==> s.now - v.response.receivedAt <= D
  }

  ghost predicate UniformRun(s: State, events: seq<Event>, key: Key, w: Windows)
    requires Possible(s, events)
    decreases |events|
  {
    SavesPrompt(s, key, w.D) &&
    (events != [] ==> Uniform(events[0], key, w) && UniformRun(Step(s, events[0]), events[1..], key, w))
  }

  // ---------- What every copy of the key satisfies ----------

  // A memory copy is within its first or promoted fresh window, or already out of it.
  predicate SlotAged(c: Cached, now: int, w: Windows) {
    && c.response.receivedAt <= now
    && (c.expiresAt < c.response.receivedAt + 2 * w.T + w.D || c.expiresAt < now)
    && c.expiresAt < c.response.receivedAt + w.T + w.D + Max(w.T, w.S)
  }

  predicate DiskAged(c: DiskCopy, now: int, w: Windows) {
    c.response.receivedAt <= now && c.expiresAt <= c.response.receivedAt + w.D + w.T
  }

  ghost predicate StoreAged(store: Store, now: int, key: Key, w: Windows) {
    && (forall x :: x in store.mem && x.key == key ==> SlotAged(x.cached, now, w))
    && (key in store.disk ==> DiskAged(store.disk[key], now, w))
    && (forall v :: v in store.saves && v.key == key ==> v.response.receivedAt <= now && v.ttl <= w.T)
  }

  // Requests for the key carry its TTL, and so do reads that are still suspended.
  ghost predicate NetAged(net: Net, key: Key, w: Windows) {
    && (forall id :: id in net.requests && net.requests[id].key == key && !net.requests[id].kind.Live? ==>
          net.requests[id].ttl == w.T)
    && (forall r :: r in net.parked && net.parked[r].key == key ==> net.parked[r].ttl == w.T)
  }

  predicate AgeBound(x: Served, w: Windows) {
    var age := x.at - x.response.receivedAt;
    && (x.source.FreshCopy? ==> age <= 2 * w.T + w.D - 2)
    && (x.source.StaleCopy? ==> age <= w.T + w.D + Max(w.T, w.S) + w.S - 1)
  }

  // ---------- Each event keeps it ----------

  lemma ReadAged(store: Store, now: int, key: Key, k: Key, init: Init, w: Windows)
    requires w.T > 0 && StoreAged(store, now, key, w)
    requires k == key ==> init.ttl == w.T && init.staleMs == w.S
    ensures StoreAged(StoreAfterRead(store, now, k, init), now, key, w)
  {
    var hit := DiskHit(store.disk, k, now, init.staleMs);
    if k == key && hit.Some? {
      assert SlotAged(Promoted(hit.value, now, init.ttl), now, w);
    }
  }

  lemma ReadServesInBound(s: State, key: Key, k: Key, staleMs: nat, w: Windows)
    requires w.T > 0 && StoreAged(s.store, s.now, key, w)
    requires k == key ==> staleMs == w.S
    ensures forall x :: x in ServedByRead(s, k, staleMs) && x.key == key ==> AgeBound(x, w)
  {
    if k == key {
      var mem, disk := Hit(s.store.mem, k, s.now, staleMs), DiskHit(s.store.disk, k, s.now, staleMs);
      if mem.Some? {
        assert SlotAged(mem.value, s.now, w);
      }
      if disk.Some? {
        assert DiskAged(disk.value, s.now, w);
      }
    }
  }

  lemma LandingAged(store: Store, q: Request, landing: Landing, now: int, key: Key, w: Windows)
    requires w.T > 0 && StoreAged(store, now, key, w)
    requires q.key == key && !q.kind.Live? ==> q.ttl == w.T
    ensures StoreAged(StoreAfterLanding(store, q, landing, now), now, key, w)
  {
  }

  lemma SaveAged(store: Store, i: nat, stored: bool, now: int, key: Key, w: Windows)
    requires w.T > 0 && StoreAged(store, now, key, w) && i < |store.saves|
    requires store.saves[i].key == key ==> now - store.saves[i].response.receivedAt <= w.D
    ensures StoreAged(StoreAfterSave(store, i, stored, now), now, key, w)
  {
    var save := store.saves[i];
    assert save in store.saves;
  }

  lemma StoreKeepsAge(s: State, e: Event, key: Key, w: Windows)
    requires w.T > 0 && Enabled(s, e) && Uniform(e, key, w) && SavesPrompt(s, key, w.D)
    requires StoreAged(s.store, s.now, key, w) && NetAged(s.net, key, w)
    ensures StoreAged(StoreAfter(s, e), Step(s, e).now, key, w)
  {
    match e
    case CachedRead(k, init) => ReadAged(s.store, s.now, key, k, init, w);
    case OfflineRead(k, init) => ReadAged(s.store, s.now, key, k, init, w);
    case Land(id, landing) => LandingAged(s.store, s.net.requests[id], landing, s.now, key, w);
    case SaveLands(i, stored) =>
      assert s.store.saves[i] in s.store.saves;
      SaveAged(s.store, i, stored, s.now, key, w);
    case _ =>
  }

  lemma DispatchKeepsAge(net: Net, read: nat, k: Key, ttl: nat, c: Option<Response>, key: Key, w: Windows)
    requires NetAged(net, key, w) && (k == key ==> ttl == w.T)
    ensures NetAged(Dispatched(net, read, k, ttl, c), key, w) && NetAged(Begun(net, read, k, ttl, c), key, w)
  {
  }

  lemma ReadKeepsAge(s: State, k: Key, init: Init, offline: bool, key: Key, w: Windows)
    requires NetAged(s.net, key, w) && (k == key ==> init.ttl == w.T)
    ensures NetAged(NetAfterReading(s, k, init, offline), key, w)
  {
    var found := Found(s.store, s.now, k, init.staleMs);
    if found.Candidate? {
      DispatchKeepsAge(s.net.(nextId := s.net.nextId + 1), s.net.nextId, k, init.ttl, found.copy, key, w);
    }
  }

  lemma NetKeepsAge(s: State, e: Event, key: Key, w: Windows)
    requires Enabled(s, e) && Uniform(e, key, w) && NetAged(s.net, key, w)
    ensures NetAged(NetAfter(s, e), key, w)
  {
    match e
    case CachedRead(k, init) => ReadKeepsAge(s, k, init, false, key, w);
    case OfflineRead(k, init) => ReadKeepsAge(s, k, init, true, key, w);
    case Resume(read, _) =>
      var p := s.net.parked[read];
      DispatchKeepsAge(s.net.(parked := s.net.parked - {read}), read, p.key, p.ttl, p.copy, key, w);
      DispatchKeepsAge(s.net.(parked := s.net.parked - {read}), read, p.key, p.ttl, None, key, w);
    case _ =>
  }

  lemma ServesInBound(s: State, e: Event, key: Key, w: Windows)
    requires w.T > 0 && Enabled(s, e) && Uniform(e, key, w) && StoreAged(s.store, s.now, key, w)
    ensures forall x :: x in ServedBy(s, e) && x.key == key ==> AgeBound(x, w)
  {
    match e
    case CachedRead(k, init) => ReadServesInBound(s, key, k, init.staleMs, w);
    case OfflineRead(k, init) => ReadServesInBound(s, key, k, init.staleMs, w);
    case _ =>
  }

  lemma {:induction false} BoundKept(s: State, events: seq<Event>, key: Key, w: Windows)
    requires w.T > 0 && Possible(s, events) && UniformRun(s, events, key, w)
    requires StoreAged(s.store, s.now, key, w) && NetAged(s.net, key, w)
    requires forall x :: x in s.served && x.key == key ==> AgeBound(x, w)
    ensures forall x :: x in Run(s, events).served && x.key == key ==> AgeBound(x, w)
    decreases |events|
  {
    if events == [] {
    } else {
      var e := events[0];
      StoreKeepsAge(s, e, key, w);
      NetKeepsAge(s, e, key, w);
      ServesInBound(s, e, key, w);
      BoundKept(Step(s, e), events[1..], key, w);
    }
  }

  // Over all runs of reads, live reads, refreshes, saves, seeds, evictions, lost entries and page
  // reloads: a copy served as fresh is less than 2T + D old (not less than T), one served from
  // the stale window less than T + max(T, S) + S + D. Both bounds are reached.
  lemma {:induction false} ServedCopiesAreYoung(events: seq<Event>, key: Key, w: Windows)
    requires w.T > 0 && Possible(START, events) && UniformRun(START, events, key, w)
    ensures forall x :: x in Run(START, events).served && x.key == key ==> AgeBound(x, w)
  {
    BoundKept(START, events, key, w);
  }

  // ---------- The bounds are tight ----------

  lemma {:induction false} AppendUniform(s: State, events: seq<Event>, e: Event, key: Key, w: Windows)
    requires Possible(s, events) && UniformRun(s, events, key, w)
    requires Enabled(Run(s, events), e) && Uniform(e, key, w) && SavesPrompt(Step(Run(s, events), e), key, w.D)
    ensures Possible(s, events + [e]) && UniformRun(s, events + [e], key, w)
    ensures Run(s, events + [e]) == Step(Run(s, events), e)
    decreases |events|
  {
    if events == [] {
      assert [e][1..] == [];
    } else {
      AppendUniform(Step(s, events[0]), events[1..], e, key, w);
      assert (events + [e])[1..] == events[1..] + [e];
    }
  }

  function SavedAt(w: Windows): DiskCopy {
    DiskCopy(w.D, w.D + w.T, w.D + Retention(w.T), Response("", 0))
  }

  // A copy received at 0 whose save took the whole of D, on a freshly loaded page.
  lemma OnlyOnDisk(key: Key, w: Windows) returns (events: seq<Event>)
    requires w.T > 0
    ensures Possible(START, events) && UniformRun(START, events, key, w)
    ensures Run(START, events).now == w.D
    ensures Run(START, events).store ==
            Store([], map[key := SavedAt(w)], [])
  {
    var s0 := START;
    var e := Seed(key, "", w.T);
    AppendUniform(s0, [], e, key, w);
    events := [] + [e];
    assert Run(s0, events).store.saves == [Save(key, Response("", 0), w.T)];
    AppendUniform(s0, events, Tick(w.D), key, w);
    events := events + [Tick(w.D)];
    AppendUniform(s0, events, SaveLands(0, true), key, w);
    events := events + [SaveLands(0, true)];
    assert Run(s0, events).store.saves == [];
    AppendUniform(s0, events, Reload, key, w);
    events := events + [Reload];
  }

  // What a read at `now` leaves in memory when only localStorage has a copy, and what the next
  // read of that entry finds.
  lemma PromotedRead(s: State, key: Key, w: Windows, copy: DiskCopy)
    requires w.T > 0 && s.store == Store([], map[key := copy], []) && Usable(copy.expiresAt, s.now, w.S)
    ensures var s' := Step(s, CachedRead(key, Init(w.T, w.S, 0)));
            s'.now == s.now && s'.store == Store([Slot(key, Promoted(copy, s.now, w.T))], s.store.disk, [])
  {
  }

  lemma MemoryRead(s: State, key: Key, w: Windows, c: Cached)
    requires w.T > 0 && s.store.mem == [Slot(key, c)] && Usable(c.expiresAt, s.now, w.S)
    ensures var source := if Fresh(c.expiresAt, s.now) then FreshCopy else StaleCopy;
            var x := Served(s.net.nextId, key, source, c.response, s.now);
            Fresh(c.expiresAt, s.now) || !(key in s.store.disk && Fresh(s.store.disk[key].expiresAt, s.now)) ==>
              x in Step(s, CachedRead(key, Init(w.T, w.S, 0))).served
  {
  }

  // Wait, then read, with no save under way.
  lemma WaitAndRead(events: seq<Event>, key: Key, w: Windows, wait: nat) returns (after: seq<Event>)
    requires w.T > 0 && Possible(START, events) && UniformRun(START, events, key, w) &&
             Run(START, events).store.saves == []
    ensures Possible(START, after) && UniformRun(START, after, key, w)
    ensures Run(START, after) == Step(Step(Run(START, events), Tick(wait)), CachedRead(key, Init(w.T, w.S, 0)))
    ensures Run(START, after).store.saves == []
  {
    AppendUniform(START, events, Tick(wait), key, w);
    after := events + [Tick(wait)];
    AppendUniform(START, after, CachedRead(key, Init(w.T, w.S, 0)), key, w);
    after := after + [CachedRead(key, Init(w.T, w.S, 0))];
  }

  // The first read moves the copy into memory.
  lemma FirstRead(key: Key, w: Windows, first: nat) returns (events: seq<Event>)
    requires w.T > 0 && (first < w.T || (w.S > 0 && first <= w.T + w.S))
    ensures Possible(START, events) && UniformRun(START, events, key, w)
    ensures var s := Run(START, events);
            && s.now == w.D + first
            && s.store == Store([Slot(key, Promoted(SavedAt(w), w.D + first, w.T))], map[key := SavedAt(w)], [])
  {
    events := OnlyOnDisk(key, w);
    PromotedRead(Step(Run(START, events), Tick(first)), key, w, SavedAt(w));
    events := WaitAndRead(events, key, w, first);
  }

  // Wait, read, wait, read: the second read serves the copy the first one moved into memory.
  lemma TwoReads(key: Key, w: Windows, first: nat, second: nat) returns (events: seq<Event>, x: Served)
    requires w.T > 0 && (first < w.T || (w.S > 0 && first <= w.T + w.S))
    requires if first < w.T then second < w.T || (w.S > 0 && second <= w.T + w.S) else second < w.S
    ensures Possible(START, events) && UniformRun(START, events, key, w)
    ensures x in Run(START, events).served && x.key == key && x.at - x.response.receivedAt == w.D + first + second
    ensures x.source == if first < w.T && second < w.T then FreshCopy else StaleCopy
  {
    events := FirstRead(key, w, first);
    var s := Step(Run(START, events), Tick(second));
    var c := Promoted(SavedAt(w), w.D + first, w.T);
    MemoryRead(s, key, w, c);
    x := Served(s.net.nextId, key, if Fresh(c.expiresAt, s.now) then FreshCopy else StaleCopy, c.response, s.now);
    events := WaitAndRead(events, key, w, second);
  }

  lemma FreshBoundIsReached(key: Key, w: Windows) returns (events: seq<Event>, x: Served)
    requires w.T > 0
    ensures Possible(START, events) && UniformRun(START, events, key, w)
    ensures x in Run(START, events).served && x.key == key && x.source.FreshCopy?
    ensures x.at - x.response.receivedAt == 2 * w.T + w.D - 2
  {
    events, x := TwoReads(key, w, w.T - 1, w.T - 1);
  }

  lemma StaleBoundIsReached(key: Key, w: Windows) returns (events: seq<Event>, x: Served)
    requires w.T > 0 && w.S > 0
    ensures Possible(START, events) && UniformRun(START, events, key, w)
    ensures x in Run(START, events).served && x.key == key && x.source.StaleCopy?
    ensures x.at - x.response.receivedAt == w.T + w.D + Max(w.T, w.S) + w.S - 1
  {
    if w.T <= w.S {
      events, x := TwoReads(key, w, w.T + w.S, w.S - 1);
    } else {
      events, x := TwoReads(key, w, w.T - 1, w.T + w.S);
    }
  }
}
