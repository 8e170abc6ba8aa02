/**
  The in-memory response cache of the API client: a JavaScript Map, which lists its entries
  in the order they were written, holding at most 200 of them.

  The Map is modelled as the sequence of its entries. `Written`, `Kept` and `Without` are what a
  write, a timed read and a deletion leave behind; the class in ApiClient.dfy steps through the
  same operations in place. Here they are related to a map that never forgets.
 */
module MemoryCache {
  import opened Wrappers

  type Key = string

  // `content` stands for status, headers and body. `receivedAt` is when the body arrived from
  // the network; no code reads it, the properties do.
  datatype Response = Response(content: string, receivedAt: int)

  datatype Cached = Cached(storedAt: int, expiresAt: int, response: Response)

  datatype Slot = Slot(key: Key, cached: Cached)

  const MAX_RESPONSE_CACHE_ENTRIES: nat := 200

  // ---------- The Map's operations on its list of entries ----------

  function Without(slots: seq<Slot>, key: Key): (r: seq<Slot>)
    ensures forall x :: x in r <==> x in slots && x.key != key
    ensures |r| <= |slots|
  {
    if slots == [] then []
    else if slots[0].key == key then Without(slots[1..], key)
    else [slots[0]] + Without(slots[1..], key)
  }

  function Unexpired(slots: seq<Slot>, now: int): (r: seq<Slot>)
    ensures forall x :: x in r <==> x in slots && x.cached.expiresAt > now
    ensures |r| <= |slots|
  {
    if slots == [] then []
    else if slots[0].cached.expiresAt <= now then Unexpired(slots[1..], now)
    else [slots[0]] + Unexpired(slots[1..], now)
  }

  // The last `n` entries, or all of them when there are fewer.
  function Newest(slots: seq<Slot>, n: nat): (r: seq<Slot>)
    ensures |r| == if |slots| <= n then |slots| else n
    ensures forall x :: x in r ==> x in slots
  {
    if |slots| <= n then slots else slots[|slots| - n..]
  }

  function Written(slots: seq<Slot>, key: Key, cached: Cached, now: int): (r: seq<Slot>)
    ensures |r| <= MAX_RESPONSE_CACHE_ENTRIES
    ensures |r| > 0 && r[|r| - 1] == Slot(key, cached)
    ensures forall x :: x in r ==>
              x == Slot(key, cached) || (x in slots && x.key != key && x.cached.expiresAt > now)
    ensures |slots| < MAX_RESPONSE_CACHE_ENTRIES ==>
              forall x :: x in slots && x.key != key && x.cached.expiresAt > now ==> x in r
  {
    Newest(Without(Unexpired(slots, now), key) + [Slot(key, cached)], MAX_RESPONSE_CACHE_ENTRIES)
  }

  function Find(slots: seq<Slot>, key: Key): (r: Option<Cached>)
    ensures r.Some? ==> Slot(key, r.value) in slots
    ensures r.None? <==> forall x :: x in slots ==> x.key != key
  {
    if slots == [] then None
    else if slots[0].key == key then Some(slots[0].cached)
    else Find(slots[1..], key)
  }

  predicate Fresh(expiresAt: int, now: int) {
    expiresAt > now
  }

  predicate WithinStale(expiresAt: int, now: int, staleMs: nat) {
    staleMs > 0 && now <= expiresAt + staleMs
  }

  predicate Usable(expiresAt: int, now: int, staleMs: nat) {
    Fresh(expiresAt, now) || WithinStale(expiresAt, now, staleMs)
  }

  // What a read of `key` at `now` may use.
  function Hit(slots: seq<Slot>, key: Key, now: int, staleMs: nat): Option<Cached> {
    match Find(slots, key)
    case None => None
    case Some(c) => if Usable(c.expiresAt, now, staleMs) then Some(c) else None
  }

  // A read that finds an entry past both windows deletes it.
  function Kept(slots: seq<Slot>, key: Key, now: int, staleMs: nat): (r: seq<Slot>)
    ensures forall x :: x in r ==> x in slots
    ensures forall x :: x in slots && x.key != key ==> x in r
    ensures Hit(slots, key, now, staleMs).None? ==> forall x :: x in r ==> x.key != key
  {
    if Hit(slots, key, now, staleMs).Some? then slots else Without(slots, key)
  }

  // ---------- Histories ----------

  datatype Op =
    | Write(key: Key, cached: Cached, now: int)
    | Read(key: Key, now: int, staleMs: nat)
    | Drop(key: Key)  // a live read dropping the entry it overtook

  function Apply(slots: seq<Slot>, op: Op): seq<Slot> {
    match op
    case Write(key, cached, now) => Written(slots, key, cached, now)
    case Read(key, now, staleMs) => Kept(slots, key, now, staleMs)
    case Drop(key) => Without(slots, key)
  }

  function History(ops: seq<Op>): seq<Slot> {
    if ops == [] then [] else Apply(History(ops[..|ops| - 1]), ops[|ops| - 1])
  }

  // The same history on a map without a bound and without expiry.
  function Latest(ops: seq<Op>): map<Key, Cached> {
    if ops == [] then map[] else
      var before := Latest(ops[..|ops| - 1]);
      match ops[|ops| - 1]
      case Write(key, cached, _) => before[key := cached]
      case Read(_, _, _) => before
      case Drop(key) => before - {key}
  }

  predicate DistinctKeys(slots: seq<Slot>) {
    forall i, j :: 0 <= i < j < |slots| ==> slots[i].key != slots[j].key
  }

  // ---------- The cache refines the unbounded map ----------

  lemma {:induction false} WithoutDistinct(slots: seq<Slot>, key: Key)
    requires DistinctKeys(slots)
    ensures DistinctKeys(Without(slots, key))
  {
    if slots == [] {
    } else {
      WithoutDistinct(slots[1..], key);
      assert forall x :: x in slots[1..] ==> x.key != slots[0].key;
    }
  }

  lemma {:induction false} UnexpiredDistinct(slots: seq<Slot>, now: int)
    requires DistinctKeys(slots)
    ensures DistinctKeys(Unexpired(slots, now))
  {
    if slots == [] {
    } else {
      UnexpiredDistinct(slots[1..], now);
      assert forall x :: x in slots[1..] ==> x.key != slots[0].key;
    }
  }

  lemma WrittenDistinct(slots: seq<Slot>, key: Key, cached: Cached, now: int)
    requires DistinctKeys(slots)
    ensures DistinctKeys(Written(slots, key, cached, now))
  {
    UnexpiredDistinct(slots, now);
    WithoutDistinct(Unexpired(slots, now), key);
    NewestDistinct(Without(Unexpired(slots, now), key), Slot(key, cached), MAX_RESPONSE_CACHE_ENTRIES);
  }

  lemma NewestDistinct(slots: seq<Slot>, x: Slot, n: nat)
    requires DistinctKeys(slots) && forall y :: y in slots ==> y.key != x.key
    ensures DistinctKeys(Newest(slots + [x], n))
  {
    assert DistinctKeys(slots + [x]);
  }

  lemma ApplyDistinct(slots: seq<Slot>, op: Op)
    requires DistinctKeys(slots)
    ensures DistinctKeys(Apply(slots, op))
  {
    match op
    case Write(key, cached, now) =>
      WrittenDistinct(slots, key, cached, now);
    case Read(key, now, staleMs) => WithoutDistinct(slots, key);
    case Drop(key) => WithoutDistinct(slots, key);
  }

  // Whatever the mix of writes, timed reads and deletions: no key twice, never more than 200
  // entries, every entry is its key's last write, and the entry just written is there.
  lemma {:induction false} RefinesUnboundedMap(ops: seq<Op>)
    ensures DistinctKeys(History(ops))
    ensures |History(ops)| <= MAX_RESPONSE_CACHE_ENTRIES
    ensures forall x :: x in History(ops) ==> x.key in Latest(ops) && Latest(ops)[x.key] == x.cached
    ensures ops != [] && ops[|ops| - 1].Write? ==>
              Slot(ops[|ops| - 1].key, ops[|ops| - 1].cached) in History(ops)
  {
    if ops == [] {
    } else {
      RefinesUnboundedMap(ops[..|ops| - 1]);
      ApplyDistinct(History(ops[..|ops| - 1]), ops[|ops| - 1]);
    }
  }

  // A memory hit is the last write of its key, inside the window it is served from; a key that
  // was never written, or was deleted since, is never hit.
  lemma {:induction false} HitIsLastWrite(ops: seq<Op>, key: Key, now: int, staleMs: nat)
    ensures var hit := Hit(History(ops), key, now, staleMs);
            hit.Some? ==> key in Latest(ops) && hit.value == Latest(ops)[key] &&
                          Usable(hit.value.expiresAt, now, staleMs)
  {
    RefinesUnboundedMap(ops);
  }

  // ---------- Without expiry and deletions: exactly the 200 most recently written keys ----------

  // No deletion, and nothing written has expired by the time of a later operation.
  predicate Calm(ops: seq<Op>) {
    && (forall i :: 0 <= i < |ops| ==> !ops[i].Drop?)
    && (forall i, j :: 0 <= i < j < |ops| && ops[i].Write? && !ops[j].Drop? ==>
          ops[i].cached.expiresAt > ops[j].now)
  }

  predicate WrittenTo(ops: seq<Op>, key: Key) {
    exists i :: 0 <= i < |ops| && ops[i].Write? && ops[i].key == key
  }

  // The distinct keys written after the last write of `key`.
  function WrittenSince(ops: seq<Op>, key: Key): set<Key> {
    if ops == [] then {} else
      var before := WrittenSince(ops[..|ops| - 1], key);
      var op := ops[|ops| - 1];
      if !op.Write? then before
      else if op.key == key then {}
      else before + {op.key}
  }

  // The cache with no bound: every key once, in the order of last writes.
  function Recency(ops: seq<Op>): seq<Slot> {
    if ops == [] then [] else
      var before := Recency(ops[..|ops| - 1]);
      match ops[|ops| - 1]
      case Write(key, cached, _) => Without(before, key) + [Slot(key, cached)]
      case _ => before
  }

  lemma {:induction false} UnexpiredAll(slots: seq<Slot>, now: int)
    requires forall x :: x in slots ==> x.cached.expiresAt > now
    ensures Unexpired(slots, now) == slots
  {
    if slots == [] {
    } else {
      UnexpiredAll(slots[1..], now);
    }
  }

  lemma {:induction false} WithoutConcat(a: seq<Slot>, b: seq<Slot>, key: Key)
    ensures Without(a + b, key) == Without(a, key) + Without(b, key)
  {
    if a == [] {
      assert a + b == b;
    } else {
      assert (a + b)[1..] == a[1..] + b;
      WithoutConcat(a[1..], b, key);
    }
  }

  lemma {:induction false} WithoutAbsent(slots: seq<Slot>, key: Key)
    requires forall x :: x in slots ==> x.key != key
    ensures Without(slots, key) == slots
  {
    if slots == [] {
    } else {
      WithoutAbsent(slots[1..], key);
    }
  }

  // Removing a key that occurs once removes at most one entry.
  lemma {:induction false} WithoutDropsOne(slots: seq<Slot>, key: Key)
    requires DistinctKeys(slots)
    ensures |Without(slots, key)| >= |slots| - 1
  {
    if slots == [] {
    } else {
      if slots[0].key == key {
        WithoutAbsent(slots[1..], key);
      } else {
        WithoutDropsOne(slots[1..], key);
      }
    }
  }

  // Truncating before a write changes nothing after it.
  lemma {:induction false} NewestAbsorbed(slots: seq<Slot>, key: Key, x: Slot, n: nat)
    requires DistinctKeys(slots) && n > 0
    ensures Newest(Without(Newest(slots, n), key) + [x], n) == Newest(Without(slots, key) + [x], n)
  {
    if |slots| > n {
      var early, late := slots[..|slots| - n], slots[|slots| - n..];
      assert slots == early + late;
      WithoutConcat(early, late, key);
      WithoutDropsOne(late, key);
      NewestOfBack(Without(early, key), Without(late, key), x, n);
    }
  }

  lemma NewestOfBack(front: seq<Slot>, back: seq<Slot>, x: Slot, n: nat)
    requires |back| >= n - 1 && n > 0
    ensures Newest(back + [x], n) == Newest((front + back) + [x], n)
  {
    assert (front + back) + [x] == front + (back + [x]);
  }

  lemma {:induction false} RecencyFacts(ops: seq<Op>)
    ensures DistinctKeys(Recency(ops))
    ensures forall x :: x in Recency(ops) ==>
              exists i :: 0 <= i < |ops| && ops[i].Write? && ops[i].key == x.key && ops[i].cached == x.cached
  {
    if ops == [] {
    } else {
      var init := ops[..|ops| - 1];
      RecencyFacts(init);
      var op := ops[|ops| - 1];
      if op.Write? {
        WithoutDistinct(Recency(init), op.key);
      }
      forall x | x in Recency(ops)
        ensures exists i :: 0 <= i < |ops| && ops[i].Write? && ops[i].key == x.key && ops[i].cached == x.cached
      {
        if op.Write? && x == Slot(op.key, op.cached) {
          assert ops[|ops| - 1].Write?;
        } else {
          var i :| 0 <= i < |init| && init[i].Write? && init[i].key == x.key && init[i].cached == x.cached;
          assert ops[i] == init[i];
        }
      }
    }
  }

  lemma {:induction false} CalmRun(ops: seq<Op>)
    requires Calm(ops)
    ensures History(ops) == Newest(Recency(ops), MAX_RESPONSE_CACHE_ENTRIES)
  {
    if ops == [] {
    } else {
      var init, op := ops[..|ops| - 1], ops[|ops| - 1];
      CalmRun(init);
      RecencyFacts(init);
      forall x | x in History(init) ensures x.cached.expiresAt > op.now {
        var i :| 0 <= i < |init| && init[i].Write? && init[i].key == x.key && init[i].cached == x.cached;
        assert ops[i] == init[i] && ops[|ops| - 1] == op;
      }
      match op
      case Write(key, cached, now) =>
        UnexpiredAll(History(init), now);
        NewestAbsorbed(Recency(init), key, Slot(key, cached), MAX_RESPONSE_CACHE_ENTRIES);
      case Read(key, now, staleMs) =>
        if Find(History(init), key).None? {
          WithoutAbsent(History(init), key);
        }
      case Drop(_) => assert false;
    }
  }

  function Keys(slots: seq<Slot>): set<Key> {
    set x | x in slots :: x.key
  }

  lemma {:induction false} KeysAfterWrite(slots: seq<Slot>, x: Slot)
    ensures Keys(Without(slots, x.key) + [x]) == Keys(slots) + {x.key}
  {
    var r := Without(slots, x.key) + [x];
    assert r[|r| - 1] == x;
    forall y | y in slots ensures y.key in Keys(r) {
      assert y.key != x.key ==> y in Without(slots, x.key);
    }
  }

  lemma {:induction false} WithoutAround(front: seq<Slot>, x: Slot, back: seq<Slot>, key: Key)
    requires x.key != key
    ensures forall y: Slot ::
              Without(front + ([x] + back), key) + [y] == Without(front, key) + ([x] + (Without(back, key) + [y]))
  {
    WithoutConcat(front, [x] + back, key);
    WithoutConcat([x], back, key);
    OneKept(x, key);
    forall y: Slot
      ensures Without(front + ([x] + back), key) + [y] == Without(front, key) + ([x] + (Without(back, key) + [y]))
    {
      Regroup(Without(front, key), [x], Without(back, key), [y]);
    }
  }

  lemma {:induction false} OneKept(x: Slot, key: Key)
    requires x.key != key
    ensures Without([x], key) == [x]
  {
    assert [x][1..] == [];
  }

  lemma Regroup(a: seq<Slot>, b: seq<Slot>, c: seq<Slot>, d: seq<Slot>)
    ensures (a + (b + c)) + d == a + (b + (c + d))
  {
  }

  // The entries behind a key in the recency list are the keys written since.
  lemma {:induction false} RecencyRank(ops: seq<Op>, key: Key)
    returns (front: seq<Slot>, x: Slot, back: seq<Slot>)
    requires WrittenTo(ops, key)
    ensures Recency(ops) == front + ([x] + back) && x.key == key
    ensures WrittenSince(ops, key) == Keys(back)
  {
    var init, op := ops[..|ops| - 1], ops[|ops| - 1];
    if op.Write? && op.key == key {
      front, x, back := Without(Recency(init), key), Slot(key, op.cached), [];
    } else {
      var i :| 0 <= i < |ops| && ops[i].Write? && ops[i].key == key;
      assert init[i] == ops[i];
      front, x, back := RecencyRank(init, key);
      if op.Write? {
        WithoutAround(front, x, back, op.key);
        KeysAfterWrite(back, Slot(op.key, op.cached));
        front, back := Without(front, op.key), Without(back, op.key) + [Slot(op.key, op.cached)];
      }
    }
  }

  lemma {:induction false} DistinctKeyCount(slots: seq<Slot>)
    requires DistinctKeys(slots)
    ensures |Keys(slots)| == |slots|
  {
    if slots == [] {
    } else {
      DistinctKeyCount(slots[1..]);
      assert Keys(slots) == {slots[0].key} + Keys(slots[1..]);
    }
  }

  lemma NewestKeeps(front: seq<Slot>, x: Slot, back: seq<Slot>, n: nat)
    requires DistinctKeys(front + ([x] + back))
    ensures Find(Newest(front + ([x] + back), n), x.key).Some? <==> |back| < n
  {
    var all := front + ([x] + back);
    var newest := Newest(all, n);
    var cut := |all| - |newest|;
    assert all[|front|] == x;
    if |back| < n {
      assert newest[|front| - cut] == x;
    } else {
      forall i | 0 <= i < |newest| ensures newest[i].key != x.key {
        assert newest[i] == all[cut + i];
      }
    }
  }

  lemma DistinctBack(front: seq<Slot>, x: Slot, back: seq<Slot>)
    requires DistinctKeys(front + ([x] + back))
    ensures DistinctKeys(back)
  {
    var all := front + ([x] + back);
    assert forall i :: 0 <= i < |back| ==> back[i] == all[|front| + 1 + i];
  }

  // Without expiry and deletions an entry is in the cache exactly when its key was written and
  // fewer than 200 other keys have been written since.
  lemma {:induction false} KeepsTheMostRecentKeys(ops: seq<Op>, key: Key)
    requires Calm(ops)
    ensures Find(History(ops), key).Some? <==>
            WrittenTo(ops, key) && |WrittenSince(ops, key)| < MAX_RESPONSE_CACHE_ENTRIES
  {
    CalmRun(ops);
    RecencyFacts(ops);
    if WrittenTo(ops, key) {
      var front, x, back := RecencyRank(ops, key);
      DistinctBack(front, x, back);
      DistinctKeyCount(back);
      NewestKeeps(front, x, back, MAX_RESPONSE_CACHE_ENTRIES);
    }
  }
}
