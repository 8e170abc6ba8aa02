/**
  The API client's module state and the stretches of code that step through it: each method
  performs one event of RequestModel in place, in the order the code does it.
 */
module ApiClient {
  import opened Wrappers
  import opened MemoryCache
  import opened RequestModel

  lemma {:induction false} UnexpiredHead(kept: seq<Slot>, rest: seq<Slot>, now: int)
    requires rest != []
    ensures kept + Unexpired(rest, now) ==
            (if rest[0].cached.expiresAt <= now then kept else kept + [rest[0]]) + Unexpired(rest[1..], now)
  {
  }

  lemma SplitAt<T>(kept: seq<T>, rest: seq<T>)
    requires rest != []
    ensures (kept + rest)[|kept|] == rest[0]
    ensures kept + rest == kept + [rest[0]] + rest[1..]
    ensures (kept + rest)[..|kept|] + (kept + rest)[|kept| + 1..] == kept + rest[1..]
  {
  }

  // What the step of a cached read comes to.
  lemma ReadingStep(s: State, key: Key, init: Init, onLine: bool)
    requires init.ttl > 0
    ensures Step(s, if onLine then CachedRead(key, init) else OfflineRead(key, init)) ==
            State(s.now, StoreAfterRead(s.store, s.now, key, init), NetAfterReading(s, key, init, !onLine),
                  s.served + ServedByRead(s, key, init.staleMs))
  {
  }

  class Client {
    var now: int
    var responseCache: seq<Slot>
    var localStorage: map<Key, DiskCopy>
    var pendingSaves: seq<Save>
    var net: Net
    var served: set<Served>

    function View(): State
      reads this
    {
      State(now, Store(responseCache, localStorage, pendingSaves), net, served)
    }

    constructor ()
      ensures View() == START
    {
      now, responseCache, localStorage, pendingSaves, net, served := 0, [], map[], [], NO_REQUESTS, {};
    }

    method CacheResponse(requestKey: Key, cached: Cached)
      modifies `responseCache
      ensures responseCache == Written(old(responseCache), requestKey, cached, now)
    {
      DropExpired();
      responseCache := Without(responseCache, requestKey);
      responseCache := responseCache + [Slot(requestKey, cached)];
      DropOldest();
    }

    // Deleting while iterating over a Map visits every entry once.
    method DropExpired()
      modifies `responseCache
      ensures responseCache == Unexpired(old(responseCache), now)
    {
      ghost var kept: seq<Slot>, rest := [], responseCache;
      var i := 0;
      while i < |responseCache|
        invariant responseCache == kept + rest && i == |kept|
        invariant kept + Unexpired(rest, now) == Unexpired(old(responseCache), now)
        decreases |rest|
      {
        UnexpiredHead(kept, rest, now);
        SplitAt(kept, rest);
        var x := responseCache[i];
        if x.cached.expiresAt <= now {
          responseCache := responseCache[..i] + responseCache[i + 1..];
        } else {
          i, kept := i + 1, kept + [x];
        }
        rest := rest[1..];
      }
    }

    method DropOldest()
      modifies `responseCache
      ensures responseCache == Newest(old(responseCache), MAX_RESPONSE_CACHE_ENTRIES)
    {
      ghost var full := responseCache;
      while |responseCache| > MAX_RESPONSE_CACHE_ENTRIES
        invariant |responseCache| <= |full| && responseCache == full[|full| - |responseCache|..]
        invariant Newest(full, MAX_RESPONSE_CACHE_ENTRIES) == Newest(responseCache, MAX_RESPONSE_CACHE_ENTRIES)
      {
        responseCache := responseCache[1..];
      }
    }

    method ReadMemoryGetCache(requestKey: Key, staleMs: nat) returns (hit: Option<Cached>)
      modifies `responseCache
      ensures hit == Hit(old(responseCache), requestKey, now, staleMs)
      ensures responseCache == Kept(old(responseCache), requestKey, now, staleMs)
    {
      hit := Find(responseCache, requestKey);
      if hit.None? {
        WithoutAbsent(responseCache, requestKey);
        return;
      }
      var withinFreshWindow := hit.value.expiresAt > now;
      var withinStaleWindow := staleMs > 0 && now <= hit.value.expiresAt + staleMs;
      if !withinFreshWindow && !withinStaleWindow {
        responseCache := Without(responseCache, requestKey);
        hit := None;
      }
    }

    method ReadPersistentGetCache(requestKey: Key, staleMs: nat) returns (hit: Option<DiskCopy>)
      modifies `localStorage
      ensures hit == DiskHit(old(localStorage), requestKey, now, staleMs)
      ensures localStorage == DiskKept(old(localStorage), requestKey, now, staleMs)
    {
      if requestKey !in localStorage {
        return None;
      }
      var parsed := localStorage[requestKey];
      if parsed.expiresAt > now || (staleMs > 0 && now <= parsed.expiresAt + staleMs) {
        return Some(parsed);
      }
      if parsed.retainUntil <= now {
        localStorage := localStorage - {requestKey};
      }
      hit := None;
    }

    // A cached GET, up to its first pause.
    method ApiFetch(requestKey: Key, init: Init, onLine: bool)
      requires init.ttl > 0
      modifies this
      ensures View() == Step(old(View()),
                             if onLine then CachedRead(requestKey, init) else OfflineRead(requestKey, init))
    {
      ghost var before := View();
      var found := Lookups(requestKey, init);
      AnswerOrGoOn(requestKey, init, found, onLine);
      ReadingStep(before, requestKey, init, onLine);
    }

    // A fresh copy is the answer. Without any candidate, pause on a saved copy where one is wanted or
    // the device is offline.
    method AnswerOrGoOn(requestKey: Key, init: Init, found: Lookup, onLine: bool)
      modifies `net, `served
      ensures net == NetAfterRead(old(net), requestKey, init, found,
                                  PauseOf(View().store, old(net), now, requestKey, init, !onLine))
      ensures served == old(served) + FoundServed(old(net).nextId, requestKey, found, now)
    {
      var read := net.nextId;
      net := net.(nextId := read + 1);
      match found
      case Answer(response) =>
        served := served + {Served(read, requestKey, FreshCopy, response, now)};
      case Candidate(staleCandidate) =>
        if staleCandidate.None? && init.savedMaxAgeMs > 0 {
          var quick := SavedCopyWithin(requestKey, init.savedMaxAgeMs);
          net := net.(parked := net.parked[read := Parked(requestKey, init.ttl, false, quick)]);
        } else if staleCandidate.None? && !onLine && requestKey !in net.inflight {
          var last := AnyAgeCopy(requestKey);
          net := net.(parked := net.parked[read := Parked(requestKey, init.ttl, true, last)]);
        } else {
          ShareOrStart(read, requestKey, init.ttl, staleCandidate, StaleCopy);
        }
    }

    method AnyAgeCopy(requestKey: Key) returns (copy: Option<Response>)
      ensures copy == AnyAge(View().store, requestKey)
    {
      var hit := ReadCacheAnyAge(requestKey);
      copy := if hit.Some? then Some(hit.value.response) else None;
    }

    // The newer of memory's and localStorage's copies.
    method ReadCacheAnyAge(requestKey: Key) returns (best: Option<Stored>)
      ensures best == LastStored(View().store, requestKey)
    {
      best := None;
      var mem := Find(responseCache, requestKey);
      if mem.Some? {
        best := Some(Stored(mem.value.storedAt, mem.value.response));
      }
      if requestKey in localStorage && (best.None? || localStorage[requestKey].storedAt > best.value.at) {
        best := Some(Stored(localStorage[requestKey].storedAt, localStorage[requestKey].response));
      }
    }

    method SavedCopyWithin(requestKey: Key, maxAgeMs: nat) returns (copy: Option<Response>)
      ensures copy == SavedWithin(View().store, now, requestKey, maxAgeMs)
    {
      var quick := ReadCacheAnyAge(requestKey);
      if quick.Some? && AgeSec(now, quick.value.at) * 1000 <= maxAgeMs {
        return Some(quick.value.response);
      }
      copy := None;
    }

    // Memory, then localStorage, whose copy goes back into memory.
    method Lookups(requestKey: Key, init: Init) returns (found: Lookup)
      modifies `responseCache, `localStorage
      ensures found == Found(old(View().store), now, requestKey, init.staleMs)
      ensures View().store == StoreAfterRead(old(View().store), now, requestKey, init)
    {
      var staleCandidate: Option<Response> := None;
      var memCached := ReadMemoryGetCache(requestKey, init.staleMs);
      if memCached.Some? {
        if memCached.value.expiresAt > now {
          return Answer(memCached.value.response);
        }
        staleCandidate := Some(memCached.value.response);
      }
      var persisted := ReadPersistentGetCache(requestKey, init.staleMs);
      if persisted.Some? {
        CacheResponse(requestKey, Promoted(persisted.value, now, init.ttl));
        if persisted.value.expiresAt > now {
          return Answer(persisted.value.response);
        }
        if staleCandidate.None? {
          staleCandidate := Some(persisted.value.response);
        }
      }
      found := Candidate(staleCandidate);
    }

    // The in-flight check, and the request it may start.
    method ShareOrStart(read: nat, requestKey: Key, ttl: nat, staleCandidate: Option<Response>, source: Source)
      modifies `net, `served
      ensures net == Dispatched(old(net), read, requestKey, ttl, staleCandidate)
      ensures served == old(served) +
                        if staleCandidate.None? then {}
                        else {Served(read, requestKey, source, staleCandidate.value, now)}
    {
      if requestKey in net.inflight {
        if staleCandidate.None? {
          net := net.(waiting := net.waiting[read := Waiter(net.inflight[requestKey], false)]);
        }
      } else {
        StartRun(read, requestKey, ttl, staleCandidate);
      }
      if staleCandidate.Some? {
        served := served + {Served(read, requestKey, source, staleCandidate.value, now)};
      }
    }

    method StartRun(read: nat, requestKey: Key, ttl: nat, staleCandidate: Option<Response>)
      modifies `net
      ensures net == Begun(old(net), read, requestKey, ttl, staleCandidate)
    {
      var request := net.nextId;
      var kind := if staleCandidate.Some? then Background(staleCandidate.value) else Plain;
      net := net.(requests := net.requests[request := Request(requestKey, ttl, kind, None)], nextId := request + 1);
      net := net.(inflight := net.inflight[requestKey := request]);
      if staleCandidate.None? {
        net := net.(waiting := net.waiting[read := Waiter(request, true)]);
      }
    }

    // A suspended read goes on once its storage lookup has answered.
    method ResumeFetch(read: nat, offline: bool)
      requires read in net.parked
      modifies this
      ensures View() == Step(old(View()), Resume(read, offline))
    {
      var p := net.parked[read];
      net := net.(parked := net.parked - {read});
      if !p.checked {
        if offline && p.copy.None? && p.key !in net.inflight {
          var last := AnyAgeCopy(p.key);
          net := net.(parked := net.parked[read := Parked(p.key, p.ttl, true, last)]);
        } else {
          ShareOrStart(read, p.key, p.ttl, p.copy, Saved);
        }
      } else if p.copy.Some? {
        served := served + {Served(read, p.key, Saved, p.copy.value, now)};
      } else {
        StartRun(read, p.key, p.ttl, None);
      }
    }

    method LiveFetch(requestKey: Key, keeps: bool)
      modifies this
      ensures View() == Step(old(View()), LiveRead(requestKey, keeps))
    {
      net := net.(requests := net.requests[net.nextId := Request(requestKey, 0, Live(keeps), None)],
                  nextId := net.nextId + 1);
    }

    // The response of a request arrives, is refused, or is lost.
    method RunLands(id: nat, landing: Landing)
      requires id in net.requests && net.requests[id].outcome.None?
      modifies this
      ensures View() == Step(old(View()), Land(id, landing))
    {
      var q := net.requests[id];
      if landing.Arrives? {
        KeepCopies(q, Response(landing.content, now));
      }
      if q.kind.Live? {
        net := net.(requests := net.requests - {id});
      } else {
        net := net.(requests := net.requests[id := q.(outcome := Some(OutcomeOf(landing, now)))]);
      }
    }

    // What an OK response leaves in the two caches.
    method KeepCopies(q: Request, response: Response)
      requires response.receivedAt == now
      modifies `responseCache, `pendingSaves
      ensures View().store == StoreAfterLanding(old(View().store), q, Arrives(response.content), now)
    {
      if !q.kind.Live? {
        CacheResponse(q.key, Cached(now, now + q.ttl, response));
        if q.ttl > 0 {
          pendingSaves := pendingSaves + [Save(q.key, response, q.ttl)];
        }
      } else if q.kind.keeps {
        pendingSaves := pendingSaves + [Save(q.key, response, 1)];
        responseCache := Without(responseCache, q.key);
      }
    }

    // The request's promise settles: its table entry goes, its readers are answered.
    method RunSettles(id: nat)
      requires id in net.requests && net.requests[id].outcome.Some?
      modifies this
      ensures View() == Step(old(View()), Settle(id))
    {
      var q, readers := net.requests[id], ReadersOf(net, id);
      net := net.(inflight := net.inflight - {q.key});
      net := net.(requests := net.requests - {id}, waiting := net.waiting - readers);
      served := served + Deliveries(readers, q, now);
    }

    method WritePersistentGetCache(i: nat, stored: bool)
      requires i < |pendingSaves|
      modifies this
      ensures View() == Step(old(View()), SaveLands(i, stored))
    {
      var save := pendingSaves[i];
      pendingSaves := pendingSaves[..i] + pendingSaves[i + 1..];
      if stored {
        var retainUntil := now + Retention(save.ttl);
        localStorage := localStorage[save.key := DiskCopy(now, now + save.ttl, retainUntil, save.response)];
      }
    }

    method SeedGetCache(requestKey: Key, content: string, ttl: nat)
      modifies this
      ensures View() == Step(old(View()), Seed(requestKey, content, ttl))
    {
      var response := Response(content, now);
      CacheResponse(requestKey, Cached(now, now + ttl, response));
      if ttl > 0 {
        pendingSaves := pendingSaves + [Save(requestKey, response, ttl)];
      }
    }

    // The last copy of any age, for a request that is slow, refused or lost.
    method OfflineStaleFallback(read: nat)
      requires read in net.waiting && net.waiting[read].owner && net.waiting[read].request in net.requests
      modifies this
      ensures View() == Step(old(View()), Fallback(read))
    {
      var key := net.requests[net.waiting[read].request].key;
      var hit := AnyAgeCopy(key);
      if hit.Some? {
        net := net.(waiting := net.waiting - {read});
        served := served + {Served(read, key, Saved, hit.value, now)};
      }
    }
  }
}
