/** In-flight sharing: when the table of running requests is exact, and what breaks it. */
module ApiSharing {
  import opened Wrappers
  import opened MemoryCache
  import opened RequestModel

  predicate IsCached(q: Request) {
    !q.kind.Live?
  }

  // The table maps a key to a running cached request for it ...
  ghost predicate TablePoints(net: Net) {
    forall k :: k in net.inflight ==>
      && net.inflight[k] in net.requests
      && IsCached(net.requests[net.inflight[k]]) && net.requests[net.inflight[k]].key == k
  }

  // ... and every such request is the one the table has for its key.
  ghost predicate TableComplete(net: Net) {
    forall id :: id in net.requests && IsCached(net.requests[id]) ==>
      net.requests[id].key in net.inflight && net.inflight[net.requests[id].key] == id
  }

  ghost predicate TableExact(net: Net) {
    TablePoints(net) && TableComplete(net)
  }

  // Ids are never reused, live requests have no unread outcome, and every waiting read waits for
  // a running cached request.
  ghost predicate WellFormed(net: Net) {
    && (forall id :: id in net.requests ==> id < net.nextId)
    && (forall r :: r in net.parked ==> r < net.nextId)
    && (forall r :: r in net.waiting ==> r < net.nextId)
    && (forall r :: r in net.waiting ==>
          net.waiting[r].request in net.requests && IsCached(net.requests[net.waiting[r].request]))
    && (forall id :: id in net.requests && net.requests[id].kind.Live? ==> net.requests[id].outcome.None?)
  }

  // What holds in every run, overlaps or not.
  ghost predicate Sound(net: Net) {
    TablePoints(net) && WellFormed(net)
  }

  // A read that passed the in-flight check, waited for the offline copy, got none, and goes on
  // while another request for its key has started meanwhile.
  predicate Overlaps(net: Net, e: Event) {
    e.Resume? && e.read in net.parked && net.parked[e.read].checked && net.parked[e.read].copy.None? &&
    net.parked[e.read].key in net.inflight
  }

  lemma StartSound(net: Net, key: Key, ttl: nat, kind: Kind)
    requires Sound(net) && !kind.Live?
    ensures Sound(StartedShared(net, key, ttl, kind))
  {
  }

  lemma StartComplete(net: Net, key: Key, ttl: nat, kind: Kind)
    requires TableExact(net) && WellFormed(net) && !kind.Live?
    ensures TableComplete(StartedShared(net, key, ttl, kind)) <==> key !in net.inflight
  {
    var net' := StartedShared(net, key, ttl, kind);
    if key in net.inflight {
      var first := net.inflight[key];
      assert first in net'.requests && net'.requests[first] == net.requests[first];
      assert net'.inflight[key] != first;
    }
  }

  lemma WaitSound(net: Net, read: nat, w: Waiter)
    requires Sound(net) && read < net.nextId && w.request in net.requests && IsCached(net.requests[w.request])
    ensures Sound(net.(waiting := net.waiting[read := w]))
  {
  }

  lemma BeginSound(net: Net, read: nat, key: Key, ttl: nat, c: Option<Response>)
    requires Sound(net) && read < net.nextId
    ensures Sound(Begun(net, read, key, ttl, c))
  {
    match c
    case Some(r) => StartSound(net, key, ttl, Background(r));
    case None =>
      StartSound(net, key, ttl, Plain);
      WaitSound(StartedShared(net, key, ttl, Plain), read, Waiter(net.nextId, true));
  }

  lemma BeginComplete(net: Net, read: nat, key: Key, ttl: nat, c: Option<Response>)
    requires TableExact(net) && WellFormed(net)
    ensures TableComplete(Begun(net, read, key, ttl, c)) <==> key !in net.inflight
  {
    StartComplete(net, key, ttl, if c.Some? then Background(c.value) else Plain);
  }

  lemma DispatchSound(net: Net, read: nat, key: Key, ttl: nat, c: Option<Response>)
    requires Sound(net) && read < net.nextId
    ensures Sound(Dispatched(net, read, key, ttl, c))
    ensures TableComplete(net) ==> TableComplete(Dispatched(net, read, key, ttl, c))
  {
    if key !in net.inflight {
      BeginSound(net, read, key, ttl, c);
      if TableComplete(net) {
        BeginComplete(net, read, key, ttl, c);
      }
    } else if c.None? {
      WaitSound(net, read, Waiter(net.inflight[key], false));
    }
  }

  lemma NextIdSound(net: Net)
    requires Sound(net)
    ensures Sound(net.(nextId := net.nextId + 1))
    ensures TableComplete(net) ==> TableComplete(net.(nextId := net.nextId + 1))
  {
  }

  // Parking a read, and taking one out, leave the table and the requests alone.
  lemma ParkSound(net: Net, read: nat, p: Parked)
    requires Sound(net) && read < net.nextId
    ensures Sound(net.(parked := net.parked[read := p])) && Sound(net.(parked := net.parked - {read}))
    ensures TableComplete(net) ==>
              TableComplete(net.(parked := net.parked[read := p])) && TableComplete(net.(parked := net.parked - {read}))
  {
  }

  lemma ReadIs(net: Net, key: Key, init: Init, found: Lookup, paused: Option<Parked>)
    ensures var net1, after := net.(nextId := net.nextId + 1), NetAfterRead(net, key, init, found, paused);
            after == if found.Answer? then net1
                     else if found.copy.None? && paused.Some?
                     then net1.(parked := net1.parked[net.nextId := paused.value])
                     else Dispatched(net1, net.nextId, key, init.ttl, found.copy)
  {
  }

  lemma ReadSound(net: Net, key: Key, init: Init, found: Lookup, paused: Option<Parked>)
    requires Sound(net)
    ensures Sound(NetAfterRead(net, key, init, found, paused))
    ensures TableComplete(net) ==> TableComplete(NetAfterRead(net, key, init, found, paused))
  {
    var net1 := net.(nextId := net.nextId + 1);
    NextIdSound(net);
    ReadIs(net, key, init, found, paused);
    if found.Candidate? {
      if found.copy.None? && paused.Some? {
        ParkSound(net1, net.nextId, paused.value);
      } else {
        DispatchSound(net1, net.nextId, key, init.ttl, found.copy);
      }
    }
  }

  lemma ResumeSound(net: Net, read: nat, offline: bool, last: Option<Response>)
    requires Sound(net) && read in net.parked
    ensures Sound(NetAfterResume(net, read, offline, last))
    ensures TableComplete(net) ==>
              (TableComplete(NetAfterResume(net, read, offline, last)) <==> !Overlaps(net, Resume(read, offline)))
  {
    var p := net.parked[read];
    var net1 := net.(parked := net.parked - {read});
    ParkSound(net, read, p);
    if p.checked {
      if p.copy.None? {
        BeginSound(net1, read, p.key, p.ttl, None);
        if TableComplete(net) {
          BeginComplete(net1, read, p.key, p.ttl, None);
        }
      }
    } else if offline && p.copy.None? && p.key !in net.inflight {
      ParkSound(net1, read, Parked(p.key, p.ttl, true, last));
    } else {
      DispatchSound(net1, read, p.key, p.ttl, p.copy);
    }
  }

  lemma LandSound(net: Net, id: nat, landing: Landing, now: int)
    requires Sound(net) && id in net.requests
    ensures Sound(NetAfterLanding(net, id, landing, now))
    ensures TableComplete(net) ==> TableComplete(NetAfterLanding(net, id, landing, now))
  {
    var net' := NetAfterLanding(net, id, landing, now);
    assert forall x :: x in net'.requests ==>
        x in net.requests && net'.requests[x].key == net.requests[x].key &&
            net'.requests[x].kind == net.requests[x].kind;
  }

  // The completion deletes its key's entry; while the table is complete that is its own.
  lemma SettleSound(net: Net, id: nat)
    requires Sound(net) && id in net.requests && net.requests[id].outcome.Some?
    ensures Sound(NetAfterSettle(net, id))
    ensures TableComplete(net) ==> TableComplete(NetAfterSettle(net, id))
    ensures TableComplete(net) ==> NetAfterSettle(net, id).inflight ==
                                   map k | k in net.inflight && net.inflight[k] != id :: net.inflight[k]
  {
  }

  // Each event keeps the table pointing at running requests; it keeps the table complete, except
  // the overlapping one, which always breaks it.
  lemma ExactUnlessOverlap(s: State, e: Event)
    requires Sound(s.net) && Enabled(s, e)
    ensures Sound(NetAfter(s, e))
    ensures TableComplete(s.net) ==> (TableComplete(NetAfter(s, e)) <==> !Overlaps(s.net, e))
  {
    match e
    case CachedRead(key, init) =>
      ReadSound(s.net, key, init, Found(s.store, s.now, key, init.staleMs),
                PauseOf(StoreAfterRead(s.store, s.now, key, init), s.net, s.now, key, init, false));
    case OfflineRead(key, init) =>
      ReadSound(s.net, key, init, Found(s.store, s.now, key, init.staleMs),
                PauseOf(StoreAfterRead(s.store, s.now, key, init), s.net, s.now, key, init, true));
    case Resume(read, offline) => ResumeSound(s.net, read, offline, AnyAge(s.store, s.net.parked[read].key));
    case LiveRead(key, keeps) => LiveSound(s.net, key, keeps);
    case Land(id, landing) => LandSound(s.net, id, landing, s.now);
    case Settle(id) => SettleSound(s.net, id);
    case _ =>
  }

  lemma LiveSound(net: Net, key: Key, keeps: bool)
    requires Sound(net)
    ensures Sound(Started(net, Request(key, 0, Live(keeps), None)))
    ensures TableComplete(net) ==> TableComplete(Started(net, Request(key, 0, Live(keeps), None)))
  {
  }

  // In every run, offline or not, the table points at running requests.
  lemma {:induction false} AlwaysSound(s: State, events: seq<Event>)
    requires Sound(s.net) && Possible(s, events)
    ensures Sound(Run(s, events).net)
    decreases |events|
  {
    if events == [] {
    } else {
      ExactUnlessOverlap(s, events[0]);
      AlwaysSound(Step(s, events[0]), events[1..]);
    }
  }

  // Complete at the start of a run and after each of its events.
  ghost predicate CompleteThroughout(s: State, events: seq<Event>)
    requires Possible(s, events)
    decreases |events|
  {
    TableComplete(s.net) && (events != [] ==> CompleteThroughout(Step(s, events[0]), events[1..]))
  }

  predicate OverlapFree(s: State, events: seq<Event>)
    requires Possible(s, events)
    decreases |events|
  {
    events != [] ==> !Overlaps(s.net, events[0]) && OverlapFree(Step(s, events[0]), events[1..])
  }

  // A run keeps the table complete throughout exactly when none of its events overlaps.
  lemma {:induction false} CompleteUntilOverlap(s: State, events: seq<Event>)
    requires Sound(s.net) && TableComplete(s.net) && Possible(s, events)
    ensures CompleteThroughout(s, events) <==> OverlapFree(s, events)
    decreases |events|
  {
    if events == [] {
    } else {
      ExactUnlessOverlap(s, events[0]);
      if TableComplete(NetAfter(s, events[0])) {
        CompleteUntilOverlap(Step(s, events[0]), events[1..]);
      }
    }
  }

  predicate Online(e: Event) {
    !e.OfflineRead? && (e.Resume? ==> !e.offline)
  }

  ghost predicate NoneChecked(net: Net) {
    forall r :: r in net.parked ==> !net.parked[r].checked
  }

  lemma OnlineParks(s: State, e: Event)
    requires Enabled(s, e) && Online(e) && NoneChecked(s.net)
    ensures NoneChecked(NetAfter(s, e))
  {
  }

  lemma {:induction false} OnlineRun(s: State, events: seq<Event>)
    requires Sound(s.net) && TableComplete(s.net) && NoneChecked(s.net)
    requires Possible(s, events) && forall e :: e in events ==> Online(e)
    ensures Sound(Run(s, events).net) && TableComplete(Run(s, events).net)
    decreases |events|
  {
    if events == [] {
    } else {
      ExactUnlessOverlap(s, events[0]);
      OnlineParks(s, events[0]);
      OnlineRun(Step(s, events[0]), events[1..]);
    }
  }

  // While the device stays online, in every run: no two cached requests for one key are running,
  // the table points at each of them (so a settling request removes its own entry), and no read
  // waits for a request that is gone.
  lemma {:induction false} OneRequestPerKey(events: seq<Event>, a: nat, b: nat)
    requires Possible(START, events) && forall e :: e in events ==> Online(e)
    ensures var net := Run(START, events).net;
            && (a in net.requests && IsCached(net.requests[a]) ==>
                  net.requests[a].key in net.inflight && net.inflight[net.requests[a].key] == a)
            && (a in net.requests && b in net.requests && IsCached(net.requests[a]) && IsCached(net.requests[b]) ==>
                  (net.requests[a].key == net.requests[b].key ==> a == b))
            && (a in net.waiting ==> net.waiting[a].request in net.inflight.Values)
  {
    OnlineRun(START, events);
    var net := Run(START, events).net;
    if a in net.waiting {
      var id := net.waiting[a].request;
      assert net.requests[id].key in net.inflight && net.inflight[net.requests[id].key] == id;
    }
  }

  // Offline, the two suspended reads of one key that found no copy both go to the network, and
  // the first to settle removes the second's entry.
  lemma OfflineReadsOverlap(key: Key, init: Init) returns (events: seq<Event>)
    requires init.ttl > 0 && init.savedMaxAgeMs == 0
    ensures Possible(START, events)
    ensures var net := Run(START, events).net;
            exists id :: id in net.requests && IsCached(net.requests[id]) && net.requests[id].outcome.None? &&
                         net.requests[id].key !in net.inflight
  {
    events := TwoSuspendedReads(key, init);
    var e2, e3, e4, e5 := Resume(0, false), Resume(1, false), Land(2, Lost), Settle(2);
    BothStart(Run(START, events), key, init.ttl);
    Append(START, events, e2);
    Append(START, events + [e2], e3);
    events := events + [e2] + [e3];
    FirstSettles(Run(START, events), key, init.ttl);
    Append(START, events, e4);
    Append(START, events + [e4], e5);
    events := events + [e4] + [e5];
    assert 3 in Run(START, events).net.requests;
  }

  // A read of `key` suspended offline without a copy.
  function Waits(key: Key, ttl: nat): Parked {
    Parked(key, ttl, true, None)
  }

  lemma BothStart(s: State, key: Key, ttl: nat)
    requires s.net == Net(map[], map[], map[0 := Waits(key, ttl), 1 := Waits(key, ttl)], map[], 2)
    ensures Enabled(s, Resume(0, false)) && Enabled(Step(s, Resume(0, false)), Resume(1, false))
    ensures var net := Step(Step(s, Resume(0, false)), Resume(1, false)).net;
            net.inflight == map[key := 3] &&
            net.requests == map[2 := Request(key, ttl, Plain, None), 3 := Request(key, ttl, Plain, None)]
  {
  }

  lemma FirstSettles(s: State, key: Key, ttl: nat)
    requires s.net.inflight == map[key := 3]
    requires s.net.requests == map[2 := Request(key, ttl, Plain, None), 3 := Request(key, ttl, Plain, None)]
    ensures Enabled(s, Land(2, Lost)) && Enabled(Step(s, Land(2, Lost)), Settle(2))
    ensures var net := Step(Step(s, Land(2, Lost)), Settle(2)).net;
            net.inflight == map[] && net.requests == map[3 := Request(key, ttl, Plain, None)]
  {
  }

  lemma OfflineWithNothing(s: State, key: Key, init: Init)
    requires init.ttl > 0 && init.savedMaxAgeMs == 0 && s.store == Store([], map[], []) && key !in s.net.inflight
    ensures Step(s, OfflineRead(key, init)).store == s.store
    ensures Step(s, OfflineRead(key, init)).net ==
            s.net.(parked := s.net.parked[s.net.nextId := Waits(key, init.ttl)], nextId := s.net.nextId + 1)
  {
  }

  lemma TwoSuspendedReads(key: Key, init: Init) returns (events: seq<Event>)
    requires init.ttl > 0 && init.savedMaxAgeMs == 0
    ensures Possible(START, events)
    ensures Run(START, events).net ==
            Net(map[], map[], map[0 := Waits(key, init.ttl), 1 := Waits(key, init.ttl)], map[], 2)
  {
    var read := OfflineRead(key, init);
    OfflineWithNothing(START, key, init);
    OfflineWithNothing(Step(START, read), key, init);
    Append(START, [], read);
    Append(START, [] + [read], read);
    events := [] + [read] + [read];
  }
}
