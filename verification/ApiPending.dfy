/**
  How old a copy is that outlives its read: a background refresh that fails gives its sharers the
  copy it was started with. Reads of the key show saved copies up to `M` old first (0 for none), a
  pause for one lasts at most `P`, and a request ends within `R`.
 */
module ApiPending {
  import opened Integers
  import opened Wrappers
  import opened MemoryCache
  import opened RequestModel
  import opened ApiSharing
  import opened ApiAge

  datatype Waits = Waits(M: nat, P: nat, R: nat)

  function StaleBound(w: Windows): int {
    w.T + w.D + Max(w.T, w.S) + w.S - 1
  }

  // The age of a saved copy when its read pauses: promoting it moves its time by less than a second,
  // and its age is compared in whole seconds.
  function SavedBound(w: Windows, b: Waits): int {
    b.M + w.D + 1998
  }

  // The age of the copy a background refresh starts with.
  function CopyBound(w: Windows, b: Waits): int {
    if b.M == 0 then StaleBound(w) else Max(StaleBound(w), SavedBound(w, b) + b.P)
  }

  // The ids an event gives out are given out now.
  ghost predicate BornNow(s: State, e: Event, born: nat -> int)
    requires Enabled(s, e)
  {
    forall id :: s.net.nextId <= id < NetAfter(s, e).nextId ==> born(id) == s.now
  }

  predicate ShowsSaved(e: Event, key: Key, M: nat) {
    match e
    case CachedRead(k, init) => k == key ==> init.savedMaxAgeMs <= M
    case OfflineRead(k, init) => k == key ==> init.savedMaxAgeMs <= M
    case _ => true
  }

  ghost predicate Prompt(s: State, born: nat -> int, key: Key, b: Waits) {
    && (forall id :: id in s.net.requests && s.net.requests[id].key == key && s.net.requests[id].kind.Background? ==>
          s.now - born(id) <= b.R)
    && (forall r :: r in s.net.parked && s.net.parked[r].key == key && !s.net.parked[r].checked ==>
          s.now - born(r) <= b.P)
  }

  ghost predicate PromptRun(s: State, events: seq<Event>, born: nat -> int, key: Key, b: Waits)
    requires Possible(s, events)
    decreases |events|
  {
    && Prompt(s, born, key, b)
    && (events != [] ==>
          && ShowsSaved(events[0], key, b.M) && BornNow(s, events[0], born)
          && PromptRun(Step(s, events[0]), events[1..], born, key, b))
  }

  // ---------- When copies were stored ----------

  ghost predicate StoredNear(store: Store, key: Key, D: nat) {
    && (forall x :: x in store.mem && x.key == key ==>
          0 <= x.cached.response.receivedAt && x.cached.storedAt <= x.cached.response.receivedAt + D + 999)
    && (key in store.disk ==> 0 <= store.disk[key].response.receivedAt &&
                              store.disk[key].storedAt <= store.disk[key].response.receivedAt + D)
    && (forall v :: v in store.saves && v.key == key ==> 0 <= v.response.receivedAt)
  }

  lemma PromotedNear(copy: DiskCopy, now: int, ttl: nat, D: nat)
    requires 0 <= copy.response.receivedAt && copy.storedAt <= copy.response.receivedAt + D
    ensures Promoted(copy, now, ttl).storedAt <= copy.response.receivedAt + D + 999
  {
  }

  lemma StoreStaysNear(s: State, e: Event, key: Key, D: nat)
    requires Enabled(s, e) && s.now >= 0 && StoredNear(s.store, key, D) && SavesPrompt(s, key, D)
    ensures StoredNear(StoreAfter(s, e), key, D)
  {
    match e
    case CachedRead(k, init) => ReadStaysNear(s.store, s.now, k, init, key, D);
    case OfflineRead(k, init) => ReadStaysNear(s.store, s.now, k, init, key, D);
    case SaveLands(i, _) => assert s.store.saves[i] in s.store.saves;
    case _ =>
  }

  lemma ReadStaysNear(store: Store, now: int, k: Key, init: Init, key: Key, D: nat)
    requires StoredNear(store, key, D)
    ensures StoredNear(StoreAfterRead(store, now, k, init), key, D)
  {
    var hit := DiskHit(store.disk, k, now, init.staleMs);
    if k == key && hit.Some? {
      PromotedNear(hit.value, now, init.ttl, D);
    }
  }

  lemma SavedIsYoung(store: Store, now: int, key: Key, maxAgeMs: nat, D: nat)
    requires StoredNear(store, key, D) && SavedWithin(store, now, key, maxAgeMs).Some?
    ensures now - SavedWithin(store, now, key, maxAgeMs).value.receivedAt <= maxAgeMs + D + 1998
  {
    var last := LastStored(store, key).value;
    assert last.at <= last.response.receivedAt + D + 999;
    assert now - last.at <= maxAgeMs + 999;
  }

  // ---------- What a pause or a refresh holds ----------

  predicate ParkYoung(p: Parked, since: int, w: Windows, b: Waits) {
    !p.checked && p.copy.Some? ==> b.M > 0 && since - p.copy.value.receivedAt <= SavedBound(w, b)
  }

  predicate RefreshYoung(q: Request, since: int, w: Windows, b: Waits) {
    q.kind.Background? ==> since - q.kind.captured.receivedAt <= CopyBound(w, b)
  }

  ghost predicate HeldYoung(net: Net, born: nat -> int, key: Key, w: Windows, b: Waits) {
    && (forall r :: r in net.parked && net.parked[r].key == key ==> ParkYoung(net.parked[r], born(r), w, b))
    && (forall id :: id in net.requests && net.requests[id].key == key ==>
          RefreshYoung(net.requests[id], born(id), w, b))
  }

  lemma DispatchHolds(net: Net, read: nat, k: Key, ttl: nat, c: Option<Response>, now: int, born: nat -> int, key: Key,
                      w: Windows, b: Waits)
    requires HeldYoung(net, born, key, w, b)
    requires k == key && c.Some? ==> now - c.value.receivedAt <= CopyBound(w, b)
    requires forall id :: net.nextId <= id < Dispatched(net, read, k, ttl, c).nextId ==> born(id) == now
    ensures HeldYoung(Dispatched(net, read, k, ttl, c), born, key, w, b)
  {
  }

  lemma ParkHolds(net: Net, read: nat, p: Parked, now: int, born: nat -> int, key: Key, w: Windows, b: Waits)
    requires HeldYoung(net, born, key, w, b) && born(read) == now && (p.key == key ==> ParkYoung(p, now, w, b))
    ensures HeldYoung(net.(parked := net.parked[read := p]), born, key, w, b)
  {
  }

  lemma PauseIsYoung(s: State, key: Key, init: Init, offline: bool, w: Windows, b: Waits)
    requires StoredNear(s.store, key, w.D) && init.savedMaxAgeMs <= b.M
    ensures var paused := PauseOf(StoreAfterRead(s.store, s.now, key, init), s.net, s.now, key, init, offline);
            paused.Some? ==> ParkYoung(paused.value, s.now, w, b)
  {
    var store := StoreAfterRead(s.store, s.now, key, init);
    ReadStaysNear(s.store, s.now, key, init, key, w.D);
    if SavedWithin(store, s.now, key, init.savedMaxAgeMs).Some? {
      SavedIsYoung(store, s.now, key, init.savedMaxAgeMs, w.D);
    }
  }

  lemma NetReadHolds(net0: Net, k: Key, init: Init, found: Lookup, paused: Option<Parked>, now: int, born: nat -> int,
                     key: Key, w: Windows, b: Waits)
    requires HeldYoung(net0, born, key, w, b)
    requires k == key && found.Candidate? && found.copy.Some? ==> now - found.copy.value.receivedAt <= CopyBound(w, b)
    requires paused.Some? && paused.value.key == key ==> ParkYoung(paused.value, now, w, b)
    requires forall id :: net0.nextId <= id < NetAfterRead(net0, k, init, found, paused).nextId ==> born(id) == now
    ensures HeldYoung(NetAfterRead(net0, k, init, found, paused), born, key, w, b)
  {
    var read, net := net0.nextId, net0.(nextId := net0.nextId + 1);
    ReadIs(net0, k, init, found, paused);
    if found.Candidate? {
      if found.copy.None? && paused.Some? {
        ParkHolds(net, read, paused.value, now, born, key, w, b);
      } else {
        DispatchHolds(net, read, k, init.ttl, found.copy, now, born, key, w, b);
      }
    }
  }

  lemma ReadHolds(s: State, k: Key, init: Init, offline: bool, born: nat -> int, key: Key, w: Windows, b: Waits)
    requires w.T > 0 && StoreAged(s.store, s.now, key, w) && StoredNear(s.store, key, w.D)
    requires HeldYoung(s.net, born, key, w, b)
    requires k == key ==> init.ttl == w.T && init.staleMs == w.S && init.savedMaxAgeMs <= b.M
    requires forall id :: s.net.nextId <= id < NetAfterReading(s, k, init, offline).nextId ==> born(id) == s.now
    ensures HeldYoung(NetAfterReading(s, k, init, offline), born, key, w, b)
  {
    var paused := PauseOf(StoreAfterRead(s.store, s.now, k, init), s.net, s.now, k, init, offline);
    if k == key {
      CandidateIsYoung(s, key, k, init, w);
      PauseIsYoung(s, k, init, offline, w, b);
    }
    NetReadHolds(s.net, k, init, Found(s.store, s.now, k, init.staleMs), paused, s.now, born, key, w, b);
  }

  lemma CandidateIsYoung(s: State, key: Key, k: Key, init: Init, w: Windows)
    requires w.T > 0 && StoreAged(s.store, s.now, key, w) && (k == key ==> init.staleMs == w.S)
    ensures var found := Found(s.store, s.now, k, init.staleMs);
            k == key && found.Candidate? && found.copy.Some? ==>
              s.now - found.copy.value.receivedAt <= StaleBound(w)
  {
    ReadServesInBound(s, key, k, init.staleMs, w);
    var found := Found(s.store, s.now, k, init.staleMs);
    if k == key && found.Candidate? && found.copy.Some? {
      assert Served(s.net.nextId, key, StaleCopy, found.copy.value, s.now) in ServedByRead(s, k, init.staleMs);
    }
  }

  lemma ResumeHolds(s: State, read: nat, offline: bool, born: nat -> int, key: Key, w: Windows, b: Waits)
    requires read in s.net.parked && Prompt(s, born, key, b) && HeldYoung(s.net, born, key, w, b)
    requires BornNow(s, Resume(read, offline), born)
    ensures HeldYoung(NetAfter(s, Resume(read, offline)), born, key, w, b)
  {
    var p := s.net.parked[read];
    var net := s.net.(parked := s.net.parked - {read});
    if p.checked {
    } else if offline && p.copy.None? && p.key !in net.inflight {
    } else {
      DispatchHolds(net, read, p.key, p.ttl, p.copy, s.now, born, key, w, b);
    }
  }

  lemma NetHolds(s: State, e: Event, born: nat -> int, key: Key, w: Windows, b: Waits)
    requires w.T > 0 && Enabled(s, e) && Uniform(e, key, w) && ShowsSaved(e, key, b.M) && BornNow(s, e, born)
    requires StoreAged(s.store, s.now, key, w) && StoredNear(s.store, key, w.D)
    requires Prompt(s, born, key, b) && HeldYoung(s.net, born, key, w, b)
    ensures HeldYoung(NetAfter(s, e), born, key, w, b)
  {
    match e
    case CachedRead(k, init) => ReadHolds(s, k, init, false, born, key, w, b);
    case OfflineRead(k, init) => ReadHolds(s, k, init, true, born, key, w, b);
    case Resume(read, offline) => ResumeHolds(s, read, offline, born, key, w, b);
    case _ =>
  }

  // ---------- Over all runs ----------

  predicate CapturedBound(x: Served, w: Windows, b: Waits) {
    x.source.Captured? ==> x.at - x.response.receivedAt <= CopyBound(w, b) + b.R
  }

  lemma CapturedServed(s: State, e: Event, born: nat -> int, key: Key, w: Windows, b: Waits)
    requires Enabled(s, e) && Prompt(s, born, key, b) && HeldYoung(s.net, born, key, w, b)
    ensures forall x :: x in ServedBy(s, e) && x.key == key ==> CapturedBound(x, w, b)
  {
  }

  lemma {:induction false} CapturedKept(s: State, events: seq<Event>, born: nat -> int, key: Key, w: Windows, b: Waits)
    requires w.T > 0 && s.now >= 0 && Possible(s, events)
    requires UniformRun(s, events, key, w) && PromptRun(s, events, born, key, b)
    requires StoreAged(s.store, s.now, key, w) && NetAged(s.net, key, w) && StoredNear(s.store, key, w.D)
    requires HeldYoung(s.net, born, key, w, b)
    requires forall x :: x in s.served && x.key == key ==> CapturedBound(x, w, b)
    ensures forall x :: x in Run(s, events).served && x.key == key ==> CapturedBound(x, w, b)
    decreases |events|
  {
    if events == [] {
    } else {
      var e := events[0];
      StoreKeepsAge(s, e, key, w);
      NetKeepsAge(s, e, key, w);
      StoreStaysNear(s, e, key, w.D);
      NetHolds(s, e, born, key, w, b);
      CapturedServed(s, e, born, key, w, b);
      CapturedKept(Step(s, e), events[1..], born, key, w, b);
    }
  }

  // Over all runs: the copy a failed refresh hands out is at most R older than the oldest copy a
  // read can start a refresh with.
  lemma {:induction false} CapturedCopiesAreYoung(events: seq<Event>, born: nat -> int, key: Key, w: Windows, b: Waits)
    requires w.T > 0 && Possible(START, events)
    requires UniformRun(START, events, key, w) && PromptRun(START, events, born, key, b)
    ensures forall x :: x in Run(START, events).served && x.key == key ==> CapturedBound(x, w, b)
  {
    CapturedKept(START, events, born, key, w, b);
  }
}
