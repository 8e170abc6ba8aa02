/** The lists of recently opened events and teams: the latest first, each once, eight of each. */
module Recents {
  import opened ContextKeys
  import opened Sets

  const CONTEXT_RECENTS_LIMIT: nat := 8

  // What a key is normalised to, "" for none.
  type Normalizer = (Kind, string) -> string

  function Normalize(): Normalizer {
    (kind: Kind, raw: string) => QuickPick(kind, raw)
  }

  // Normalising twice is normalising once.
  ghost predicate Stable(pick: Normalizer) {
    forall kind, raw :: pick(kind, pick(kind, raw)) == pick(kind, raw)
  }

  datatype Picks = Picks(event: seq<string>, team: seq<string>) {
    function Of(kind: Kind): seq<string> {
      match kind
      case Event => event
      case Team => team
    }

    function With(kind: Kind, list: seq<string>): Picks {
      match kind
      case Event => this.(event := list)
      case Team => this.(team := list)
    }
  }

  function Take(s: seq<string>, n: nat): (r: seq<string>)
    ensures |r| <= n && r <= s && (|s| >= n ==> |r| == n)
  {
    if |s| <= n then s else s[..n]
  }

  function Without(s: seq<string>, key: string): seq<string> {
    if s == [] then [] else
      Without(s[..|s| - 1], key) + if s[|s| - 1] == key then [] else [s[|s| - 1]]
  }

  // The first occurrence of each.
  function Distinct(s: seq<string>): seq<string> {
    if s == [] then [] else
      var before := Distinct(s[..|s| - 1]);
      if s[|s| - 1] in before then before else before + [s[|s| - 1]]
  }

  // ---------- Opening ----------

  function Pushed(list: seq<string>, key: string): seq<string> {
    if key == "" || (list != [] && list[0] == key) then list
    else Take([key] + Without(list, key), CONTEXT_RECENTS_LIMIT)
  }

  function PushRecent(pick: Normalizer, current: Picks, kind: Kind, raw: string): Picks {
    current.With(kind, Pushed(current.Of(kind), pick(kind, raw)))
  }

  datatype Open = Open(kind: Kind, raw: string)

  function Run(pick: Normalizer, saved: Picks, opens: seq<Open>): Picks {
    if opens == [] then saved else
      PushRecent(pick, Run(pick, saved, opens[..|opens| - 1]), opens[|opens| - 1].kind, opens[|opens| - 1].raw)
  }

  // Everything opened of one kind, the latest first.
  function Opened(pick: Normalizer, kind: Kind, opens: seq<Open>): seq<string> {
    if opens == [] then [] else
      var last := opens[|opens| - 1];
      var key := pick(kind, last.raw);
      if last.kind == kind && key != "" then [key] + Opened(pick, kind, opens[..|opens| - 1])
      else Opened(pick, kind, opens[..|opens| - 1])
  }

  // ---------- Reading a saved list ----------

  // The keys of a saved list's values; a value that is no string stands here as String() makes it.
  function Keys(pick: Normalizer, kind: Kind, values: seq<string>): seq<string> {
    if values == [] then [] else
      var key := pick(kind, values[|values| - 1]);
      Keys(pick, kind, values[..|values| - 1]) + if key == "" then [] else [key]
  }

  function Normalized(pick: Normalizer, kind: Kind, values: seq<string>, limit: nat): seq<string> {
    Take(Distinct(Keys(pick, kind, values)), limit)
  }

  lemma {:induction false} SameElements(s: seq<string>, key: string)
    ensures key in Distinct(s) <==> key in s
  {
    if s == [] {
    } else {
      SameElements(s[..|s| - 1], key);
      assert s == s[..|s| - 1] + [s[|s| - 1]];
    }
  }

  lemma {:induction false} KeysGrow(pick: Normalizer, kind: Kind, values: seq<string>, i: nat)
    requires i <= |values|
    ensures Distinct(Keys(pick, kind, values[..i])) <= Distinct(Keys(pick, kind, values))
  {
    if i == |values| {
      assert values[..i] == values;
    } else {
      var init := values[..|values| - 1];
      assert init[..i] == values[..i];
      KeysGrow(pick, kind, init, i);
      var key := pick(kind, values[|values| - 1]);
      if key == "" {
        assert Keys(pick, kind, values) == Keys(pick, kind, init);
      } else {
        OneMoreKey(Keys(pick, kind, init), key);
      }
    }
  }

  lemma {:induction false} OneMoreKey(keys: seq<string>, key: string)
    ensures Distinct(keys + [key]) == if key in Distinct(keys) then Distinct(keys) else Distinct(keys) + [key]
    ensures Distinct(keys) <= Distinct(keys + [key])
  {
    assert (keys + [key])[..|keys + [key]| - 1] == keys;
  }

  lemma {:induction false} NextKey(pick: Normalizer, kind: Kind, values: seq<string>, i: nat)
    requires i < |values|
    ensures var before, key := Distinct(Keys(pick, kind, values[..i])), pick(kind, values[i]);
            Distinct(Keys(pick, kind, values[..i + 1]))
            == if key == "" || key in before then before else before + [key]
  {
    assert values[..i + 1][..i] == values[..i];
    var key := pick(kind, values[i]);
    if key == "" {
      assert Keys(pick, kind, values[..i + 1]) == Keys(pick, kind, values[..i]);
    } else {
      OneMoreKey(Keys(pick, kind, values[..i]), key);
    }
  }

  lemma {:induction false} FullPrefix(pick: Normalizer, kind: Kind, values: seq<string>, i: nat, limit: nat)
    requires i <= |values| && |Distinct(Keys(pick, kind, values[..i]))| == limit
    ensures Normalized(pick, kind, values, limit) == Distinct(Keys(pick, kind, values[..i]))
  {
    KeysGrow(pick, kind, values, i);
  }

  lemma {:induction false} AllTaken(pick: Normalizer, kind: Kind, values: seq<string>, limit: nat)
    requires |Distinct(Keys(pick, kind, values[..|values|]))| < limit
    ensures Normalized(pick, kind, values, limit) == Distinct(Keys(pick, kind, values[..|values|]))
  {
    assert values[..|values|] == values;
  }

  // The loop's variables after `i` values.
  ghost predicate Turned(pick: Normalizer, kind: Kind, values: seq<string>, i: nat, next: seq<string>,
                         seen: set<string>)
    requires i <= |values|
  {
    next == Distinct(Keys(pick, kind, values[..i])) && seen == Elements(next)
  }

  lemma {:induction false} Turn(pick: Normalizer, kind: Kind, values: seq<string>, i: nat, next: seq<string>,
                                seen: set<string>)
    requires i < |values| && Turned(pick, kind, values, i, next, seen)
    ensures var key := pick(kind, values[i]);
            if key == "" || key in seen then Turned(pick, kind, values, i + 1, next, seen)
            else Turned(pick, kind, values, i + 1, next + [key], seen + {key})
  {
    NextKey(pick, kind, values, i);
    ElementsSnoc(next, pick(kind, values[i]));
  }

  // Enough keys, or no more values.
  lemma {:induction false} LastTurn(pick: Normalizer, kind: Kind, values: seq<string>, i: nat, next: seq<string>,
                                    seen: set<string>, limit: nat)
    requires i <= |values| && Turned(pick, kind, values, i, next, seen)
    requires |next| == limit || (|next| < limit && i == |values|)
    ensures next == Normalized(pick, kind, values, limit)
  {
    if |next| == limit {
      FullPrefix(pick, kind, values, i, limit);
    } else {
      AllTaken(pick, kind, values, limit);
    }
  }

  method NormalizeQuickPickList(pick: Normalizer, kind: Kind, values: seq<string>, limit: nat)
    returns (next: seq<string>)
    requires limit > 0
    ensures next == Normalized(pick, kind, values, limit)
  {
    var seen: set<string> := {};
    next := [];
    for i := 0 to |values|
      invariant Turned(pick, kind, values, i, next, seen) && |next| < limit
    {
      Turn(pick, kind, values, i, next, seen);
      var normalized := pick(kind, values[i]);
      if normalized != "" && normalized !in seen {
        seen := seen + {normalized};
        next := next + [normalized];
        if |next| >= limit {
          LastTurn(pick, kind, values, i + 1, next, seen, limit);
          return;
        }
      }
    }
    LastTurn(pick, kind, values, |values|, next, seen, limit);
  }

  // ---------- The list is the latest of the whole history ----------

  lemma {:induction false} WithoutSnoc(s: seq<string>, x: string, key: string)
    ensures Without(s + [x], key) == Without(s, key) + if x == key then [] else [x]
  {
    assert (s + [x])[..|s + [x]| - 1] == s;
  }

  lemma {:induction false} WithoutElements(s: seq<string>, key: string, x: string)
    ensures x in Without(s, key) <==> x in s && x != key
  {
    if s == [] {
    } else {
      WithoutElements(s[..|s| - 1], key, x);
      assert s == s[..|s| - 1] + [s[|s| - 1]];
    }
  }

  lemma {:induction false} DistinctOfPush(key: string, rest: seq<string>)
    ensures Distinct([key] + rest) == [key] + Without(Distinct(rest), key)
  {
    if rest == [] {
      OneMoreKey([], key);
      assert [key] + rest == [key] && [] + [key] == [key];
    } else {
      var init, last := rest[..|rest| - 1], rest[|rest| - 1];
      DistinctOfPush(key, init);
      assert rest == init + [last] && [key] + rest == ([key] + init) + [last];
      PushThenMore(key, init, last);
    }
  }

  lemma {:induction false} PushThenMore(key: string, init: seq<string>, last: string)
    requires Distinct([key] + init) == [key] + Without(Distinct(init), key)
    ensures Distinct(([key] + init) + [last]) == [key] + Without(Distinct(init + [last]), key)
  {
    OneMoreKey([key] + init, last);
    OneMoreKey(init, last);
    LastPushed(Distinct(init), key, last);
  }

  lemma {:induction false} LastPushed(all: seq<string>, key: string, last: string)
    ensures last in [key] + Without(all, key) <==> last == key || last in all
    ensures last !in [key] + Without(all, key) ==> Without(all + [last], key) == Without(all, key) + [last]
    ensures last == key ==> Without(all + [last], key) == Without(all, key)
  {
    WithoutElements(all, key, last);
    WithoutSnoc(all, last, key);
  }

  lemma {:induction false} DistinctNoRepeats(s: seq<string>)
    ensures NoRepeats(Distinct(s))
  {
    if s == [] {
    } else {
      DistinctNoRepeats(s[..|s| - 1]);
    }
  }

  lemma {:induction false} WithoutSplits(a: seq<string>, b: seq<string>, key: string)
    ensures Without(a + b, key) == Without(a, key) + Without(b, key)
  {
    if b == [] {
      assert a + b == a;
    } else {
      var init, last := b[..|b| - 1], b[|b| - 1];
      assert a + b == (a + init) + [last];
      WithoutSplits(a, init, key);
      WithoutSnoc(a + init, last, key);
    }
  }

  lemma {:induction false} WithoutAbsent(s: seq<string>, key: string)
    requires key !in s
    ensures Without(s, key) == s
  {
    if s == [] {
    } else {
      WithoutAbsent(s[..|s| - 1], key);
      assert s == s[..|s| - 1] + [s[|s| - 1]];
    }
  }

  lemma {:induction false} DropsOneAtMost(s: seq<string>, key: string)
    requires NoRepeats(s)
    ensures |Without(s, key)| >= |s| - 1
  {
    if s == [] {
    } else {
      if s[|s| - 1] == key {
        WithoutAbsent(s[..|s| - 1], key);
      } else {
        DropsOneAtMost(s[..|s| - 1], key);
      }
    }
  }

  lemma {:induction false} WithoutHead(s: seq<string>)
    requires NoRepeats(s) && s != []
    ensures [s[0]] + Without(s, s[0]) == s
  {
    if |s| == 1 {
      assert s[..0] == [];
    } else {
      var init, last := s[..|s| - 1], s[|s| - 1];
      WithoutHead(init);
      assert s == init + [last] && last != s[0];
      WithoutSnoc(init, last, s[0]);
      assert [s[0]] + (Without(init, s[0]) + [last]) == ([s[0]] + Without(init, s[0])) + [last];
    }
  }

  // Pushing onto the first eight gives the first eight of pushing onto all.
  lemma {:induction false} TakeOfPush(all: seq<string>, key: string, n: nat)
    requires NoRepeats(all) && n > 0
    ensures Take([key] + Without(Take(all, n), key), n) == Take([key] + Without(all, key), n)
  {
    if |all| > n {
      assert all == all[..n] + all[n..];
      WithoutSplits(all[..n], all[n..], key);
      DropsOneAtMost(all[..n], key);
      assert [key] + Without(all, key) == ([key] + Without(all[..n], key)) + Without(all[n..], key);
    }
  }

  lemma {:induction false} PushKeepsLatest(history: seq<string>, key: string)
    requires key != ""
    ensures Pushed(Take(Distinct(history), CONTEXT_RECENTS_LIMIT), key)
            == Take(Distinct([key] + history), CONTEXT_RECENTS_LIMIT)
  {
    var all := Distinct(history);
    DistinctNoRepeats(history);
    DistinctOfPush(key, history);
    if all != [] && all[0] == key {
      WithoutHead(all);
    } else {
      TakeOfPush(all, key, CONTEXT_RECENTS_LIMIT);
    }
  }

  // A list as it is saved: keys, each once, at most eight.
  ghost predicate Saved(pick: Normalizer, kind: Kind, list: seq<string>) {
    && NoRepeats(list) && |list| <= CONTEXT_RECENTS_LIMIT
    && forall key :: key in list ==> key != "" && pick(kind, key) == key
  }

  lemma {:induction false} DistinctStays(s: seq<string>)
    requires NoRepeats(s)
    ensures Distinct(s) == s
  {
    if s == [] {
    } else {
      DistinctStays(s[..|s| - 1]);
      assert s == s[..|s| - 1] + [s[|s| - 1]];
    }
  }

  lemma LatestAfterPush(history: seq<string>, saved: seq<string>, key: string)
    ensures Pushed(Take(Distinct(history + saved), CONTEXT_RECENTS_LIMIT), key)
            == Take(Distinct((if key == "" then history else [key] + history) + saved), CONTEXT_RECENTS_LIMIT)
  {
    if key != "" {
      PushKeepsLatest(history + saved, key);
      assert [key] + (history + saved) == ([key] + history) + saved;
    }
  }

  lemma PushOf(pick: Normalizer, current: Picks, open: Open, kind: Kind)
    ensures PushRecent(pick, current, open.kind, open.raw).Of(kind)
            == if open.kind == kind then Pushed(current.Of(kind), pick(kind, open.raw)) else current.Of(kind)
  {
  }

  // After any run of opened events and teams, from any saved lists, each list is the eight most
  // recently opened distinct keys, the latest first, then the saved ones.
  lemma {:induction false} RecentsAreTheLatest(pick: Normalizer, saved: Picks, opens: seq<Open>, kind: Kind)
    requires Saved(pick, kind, saved.Of(kind))
    ensures Run(pick, saved, opens).Of(kind)
            == Take(Distinct(Opened(pick, kind, opens) + saved.Of(kind)), CONTEXT_RECENTS_LIMIT)
  {
    if opens == [] {
      assert [] + saved.Of(kind) == saved.Of(kind);
      DistinctStays(saved.Of(kind));
    } else {
      var init, last := opens[..|opens| - 1], opens[|opens| - 1];
      RecentsAreTheLatest(pick, saved, init, kind);
      PushOf(pick, Run(pick, saved, init), last, kind);
      if last.kind == kind {
        LatestAfterPush(Opened(pick, kind, init), saved.Of(kind), pick(kind, last.raw));
      }
    }
  }

  // ---------- Saving and reading back ----------

  lemma {:induction false} KeysAreKeys(pick: Normalizer, kind: Kind, values: seq<string>, key: string)
    requires Stable(pick)
    requires key in Keys(pick, kind, values)
    ensures key != "" && pick(kind, key) == key
  {
    var init, last := values[..|values| - 1], values[|values| - 1];
    if key in Keys(pick, kind, init) {
      KeysAreKeys(pick, kind, init, key);
    }
  }

  // Whatever was stored, reading it gives a list as it is saved.
  lemma NormalizedIsSaved(pick: Normalizer, kind: Kind, values: seq<string>)
    requires Stable(pick)
    ensures Saved(pick, kind, Normalized(pick, kind, values, CONTEXT_RECENTS_LIMIT))
  {
    var keys := Keys(pick, kind, values);
    DistinctNoRepeats(keys);
    forall key | key in Normalized(pick, kind, values, CONTEXT_RECENTS_LIMIT)
      ensures key != "" && pick(kind, key) == key
    {
      assert key in Distinct(keys);
      SameElements(keys, key);
      KeysAreKeys(pick, kind, values, key);
    }
  }

  lemma {:induction false} KeysStay(pick: Normalizer, kind: Kind, list: seq<string>)
    requires forall key :: key in list ==> key != "" && pick(kind, key) == key
    ensures Keys(pick, kind, list) == list
  {
    if list == [] {
    } else {
      var init := list[..|list| - 1];
      forall key | key in init ensures key != "" && pick(kind, key) == key {
        assert key in list;
      }
      KeysStay(pick, kind, init);
      assert list == list[..|list| - 1] + [list[|list| - 1]];
    }
  }

  lemma SavedReadsBack(pick: Normalizer, kind: Kind, list: seq<string>)
    requires Saved(pick, kind, list)
    ensures Normalized(pick, kind, list, CONTEXT_RECENTS_LIMIT) == list
  {
    KeysStay(pick, kind, list);
    DistinctStays(list);
  }

  lemma PushStaysSaved(pick: Normalizer, kind: Kind, list: seq<string>, raw: string)
    requires Stable(pick)
    requires Saved(pick, kind, list)
    ensures Saved(pick, kind, Pushed(list, pick(kind, raw)))
  {
    var key := pick(kind, raw);
    if key != "" {
      DistinctStays(list);
      PushKeepsLatest(list, key);
      var pushed := Pushed(list, key);
      DistinctNoRepeats([key] + list);
      forall k | k in pushed ensures k != "" && pick(kind, k) == k {
        assert k in Distinct([key] + list);
        SameElements([key] + list, k);
      }
    }
  }

  // After any run, saving a list and reading it back gives the same list.
  lemma {:induction false} RecentsReadBack(pick: Normalizer, saved: Picks, opens: seq<Open>, kind: Kind)
    requires Stable(pick)
    requires Saved(pick, kind, saved.Of(kind))
    ensures Saved(pick, kind, Run(pick, saved, opens).Of(kind))
    ensures Normalized(pick, kind, Run(pick, saved, opens).Of(kind), CONTEXT_RECENTS_LIMIT)
            == Run(pick, saved, opens).Of(kind)
  {
    if opens != [] {
      var init, last := opens[..|opens| - 1], opens[|opens| - 1];
      RecentsReadBack(pick, saved, init, kind);
      if last.kind == kind {
        PushStaysSaved(pick, kind, Run(pick, saved, init).Of(kind), last.raw);
      }
    }
    SavedReadsBack(pick, kind, Run(pick, saved, opens).Of(kind));
  }

  lemma {:induction false} FromStored(pick: Normalizer, events: seq<string>, teams: seq<string>, opens: seq<Open>,
                                      kind: Kind)
    requires Stable(pick)
    ensures var saved := Picks(Normalized(pick, Event, events, CONTEXT_RECENTS_LIMIT),
                               Normalized(pick, Team, teams, CONTEXT_RECENTS_LIMIT));
            var list := Run(pick, saved, opens).Of(kind);
            && list == Take(Distinct(Opened(pick, kind, opens) + saved.Of(kind)), CONTEXT_RECENTS_LIMIT)
            && Normalized(pick, kind, list, CONTEXT_RECENTS_LIMIT) == list
  {
    NormalizedIsSaved(pick, Event, events);
    NormalizedIsSaved(pick, Team, teams);
    var saved := Picks(Normalized(pick, Event, events, CONTEXT_RECENTS_LIMIT),
                       Normalized(pick, Team, teams, CONTEXT_RECENTS_LIMIT));
    RecentsAreTheLatest(pick, saved, opens, kind);
    RecentsReadBack(pick, saved, opens, kind);
  }

  // ---------- The context strip's own normalisation ----------

  lemma NormalizeIsStable()
    ensures Stable(Normalize())
  {
    forall kind, raw ensures Normalize()(kind, Normalize()(kind, raw)) == Normalize()(kind, raw) {
      QuickPickStays(kind, raw);
    }
  }

  // From whatever was stored, and after any run of opened events and teams: each list is the eight
  // most recently opened distinct keys, the latest first, then the stored ones; and saving it and
  // reading it back gives the same list.
  lemma {:induction false} RecentsRefineHistory(events: seq<string>, teams: seq<string>, opens: seq<Open>, kind: Kind)
    ensures var pick := Normalize();
            var saved := Picks(Normalized(pick, Event, events, CONTEXT_RECENTS_LIMIT),
                               Normalized(pick, Team, teams, CONTEXT_RECENTS_LIMIT));
            var list := Run(pick, saved, opens).Of(kind);
            && list == Take(Distinct(Opened(pick, kind, opens) + saved.Of(kind)), CONTEXT_RECENTS_LIMIT)
            && Normalized(pick, kind, list, CONTEXT_RECENTS_LIMIT) == list
  {
    NormalizeIsStable();
    FromStored(Normalize(), events, teams, opens, kind);
  }
}
