/**
  Team logos: a limiter that runs four lookups at a time, and a table that looks each key up once.
  A lookup's answer and the release of its slot are two steps: other code may run between them.
 */
module LogoLookup {
  import opened Sets
  import opened Wrappers

  const MAX_CONCURRENT: nat := 4

  // `running` and `waiting` are the limiter's, `logoCache` and `inflight` the table's: `inflight`
  // maps a key to its lookup's number. `active` are the lookups running without an answer, `held`
  // those answered whose slot is not released. `submitted` and `started` hold all lookups' keys so
  // far; `finished` counts the released slots.
  datatype State = State(
    running: nat,
    waiting: seq<nat>,
    logoCache: map<string, Option<string>>,
    inflight: map<string, nat>,
    active: set<nat>,
    held: set<nat>,
    submitted: seq<string>,
    started: seq<nat>,
    finished: nat)

  const EMPTY := State(0, [], map[], map[], {}, {}, [], [], 0)

  datatype Event = Fetch(key: string) | Answer(lookup: nat, url: Option<string>) | Release(lookup: nat)

  // ---------- The steps ----------

  function Started(s: State, lookup: nat): State {
    s.(running := s.running + 1, active := s.active + {lookup}, started := s.started + [lookup])
  }

  function Limited(s: State, key: string): State {
    var lookup := |s.submitted|;
    var t := s.(submitted := s.submitted + [key]);
    if t.running < MAX_CONCURRENT then Started(t, lookup) else t.(waiting := t.waiting + [lookup])
  }

  function Fetched(s: State, key: string): State {
    if key in s.logoCache || key in s.inflight then s
    else Limited(s, key).(inflight := s.inflight[key := |s.submitted|])
  }

  // A lookup that fails is an answer without a logo.
  function Answered(s: State, lookup: nat, url: Option<string>): State
    requires lookup < |s.submitted|
  {
    var key := s.submitted[lookup];
    s.(logoCache := s.logoCache[key := url], inflight := s.inflight - {key},
       active := s.active - {lookup}, held := s.held + {lookup})
  }

  function Released(s: State, lookup: nat): State
    requires s.running > 0
  {
    var t := s.(running := s.running - 1, held := s.held - {lookup}, finished := s.finished + 1);
    if t.waiting == [] then t else Started(t.(waiting := t.waiting[1..]), t.waiting[0])
  }

  predicate Enabled(s: State, e: Event) {
    match e
    case Fetch(_) => true
    case Answer(lookup, _) => lookup in s.active && lookup < |s.submitted|
    case Release(lookup) => lookup in s.held && s.running > 0
  }

  function Step(s: State, e: Event): State
    requires Enabled(s, e)
  {
    match e
    case Fetch(key) => Fetched(s, key)
    case Answer(lookup, url) => Answered(s, lookup, url)
    case Release(lookup) => Released(s, lookup)
  }

  predicate Possible(s: State, events: seq<Event>)
    decreases |events|
  {
    events == [] || (Enabled(s, events[0]) && Possible(Step(s, events[0]), events[1..]))
  }

  function Run(s: State, events: seq<Event>): State
    requires Possible(s, events)
    decreases |events|
  {
    if events == [] then s else Run(Step(s, events[0]), events[1..])
  }

  // ---------- The module's own variables ----------

  // The answer when it is there, else the number of the lookup that will give it.
  datatype Logo = Known(url: Option<string>) | Pending(lookup: nat)

  class Lookups {
    var running: nat
    var waiting: seq<nat>
    var logoCache: map<string, Option<string>>
    var inflight: map<string, nat>
    ghost var active: set<nat>
    ghost var held: set<nat>
    var submitted: seq<string>
    ghost var started: seq<nat>
    ghost var finished: nat

    ghost function View(): State
      reads this
    {
      State(running, waiting, logoCache, inflight, active, held, submitted, started, finished)
    }

    constructor ()
      ensures View() == EMPTY
    {
      running, waiting, logoCache, inflight, submitted := 0, [], map[], map[], [];
      active, held, started, finished := {}, {}, [], 0;
    }

    method Start(lookup: nat)
      modifies this
      ensures View() == Started(old(View()), lookup)
    {
      running := running + 1;
      active, started := active + {lookup}, started + [lookup];
    }

    method Limit(key: string) returns (lookup: nat)
      modifies this
      ensures View() == Limited(old(View()), key) && lookup == |old(submitted)|
    {
      lookup := |submitted|;
      submitted := submitted + [key];
      if running < MAX_CONCURRENT {
        Start(lookup);
      } else {
        waiting := waiting + [lookup];
      }
    }

    method FetchLogo(key: string) returns (result: Logo)
      modifies this
      ensures View() == Step(old(View()), Fetch(key))
      ensures result == if key in old(logoCache) then Known(old(logoCache)[key]) else
                        if key in old(inflight) then Pending(old(inflight)[key]) else Pending(|old(submitted)|)
    {
      if key in logoCache {
        return Known(logoCache[key]);
      }
      if key in inflight {
        return Pending(inflight[key]);
      }
      var lookup := Limit(key);
      inflight := inflight[key := lookup];
      result := Pending(lookup);
    }

    method LookupAnswers(lookup: nat, url: Option<string>)
      requires lookup in active && lookup < |submitted|
      modifies this
      ensures View() == Step(old(View()), Answer(lookup, url))
    {
      var key := submitted[lookup];
      logoCache := logoCache[key := url];
      inflight := inflight - {key};
      active, held := active - {lookup}, held + {lookup};
    }

    method LookupReleases(lookup: nat)
      requires lookup in held && running > 0
      modifies this
      ensures View() == Step(old(View()), Release(lookup))
    {
      running := running - 1;
      held, finished := held - {lookup}, finished + 1;
      if waiting != [] {
        var next := waiting[0];
        waiting := waiting[1..];
        Start(next);
      }
    }
  }

  // ---------- The limiter ----------

  function Numbers(n: nat): (r: seq<nat>)
    ensures |r| == n && forall i :: 0 <= i < n ==> r[i] == i
  {
    seq(n, i requires 0 <= i < n => i)
  }

  // Lookups start in the order they were submitted; one waits only while four run.
  ghost predicate Limiting(s: State) {
    && s.started + s.waiting == Numbers(|s.submitted|)
    && s.running <= MAX_CONCURRENT && (s.waiting != [] ==> s.running == MAX_CONCURRENT)
    && s.running == |s.active| + |s.held| && s.active !! s.held
    && (forall n :: n in s.active || n in s.held ==> n in s.started)
    && |s.submitted| == s.finished + s.running + |s.waiting|
  }

  lemma StartedIsNew(s: State, lookup: nat)
    requires Limiting(s) && (lookup == |s.submitted| || lookup in s.waiting)
    ensures lookup !in s.started && lookup !in s.active && lookup !in s.held
  {
    var all := Numbers(|s.submitted|);
    assert forall i :: 0 <= i < |s.started| ==> s.started[i] == all[i] == i;
    assert forall j :: 0 <= j < |s.waiting| ==> s.waiting[j] == all[|s.started| + j] == |s.started| + j;
  }

  lemma NextNumber(n: nat)
    ensures Numbers(n + 1) == Numbers(n) + [n]
  {
  }

  lemma StartLimits(s: State, key: string)
    requires Limiting(s) && s.running < MAX_CONCURRENT
    ensures Limiting(Limited(s, key))
  {
    var n := |s.submitted|;
    StartedIsNew(s, n);
    NextNumber(n);
    assert (s.started + [n]) + [] == (s.started + s.waiting) + [n];
  }

  lemma WaitLimits(s: State, key: string)
    requires Limiting(s) && s.running == MAX_CONCURRENT
    ensures Limiting(Limited(s, key))
  {
    var n := |s.submitted|;
    NextNumber(n);
    assert s.started + (s.waiting + [n]) == (s.started + s.waiting) + [n];
  }

  lemma FetchLimits(s: State, key: string)
    requires Limiting(s)
    ensures Limiting(Fetched(s, key))
  {
    if s.running < MAX_CONCURRENT {
      StartLimits(s, key);
    } else {
      WaitLimits(s, key);
    }
  }

  lemma AnswerLimits(s: State, lookup: nat, url: Option<string>)
    requires Limiting(s) && lookup in s.active && lookup < |s.submitted|
    ensures Limiting(Answered(s, lookup, url))
  {
  }

  lemma ReleaseLimits(s: State, lookup: nat)
    requires Limiting(s) && lookup in s.held && s.running > 0
    ensures Limiting(Released(s, lookup))
  {
    if s.waiting != [] {
      StartedIsNew(s, s.waiting[0]);
      assert (s.started + [s.waiting[0]]) + s.waiting[1..] == s.started + s.waiting;
    }
  }

  // ---------- The table ----------

  // Each key submitted is in the table, once: in flight until its lookup is answered, then cached.
  ghost predicate Table(submitted: seq<string>, inflight: map<string, nat>, logoCache: map<string, Option<string>>) {
    && NoRepeats(submitted)
    && (forall key :: key in inflight ==> inflight[key] < |submitted| && submitted[inflight[key]] == key)
    && (forall n :: 0 <= n < |submitted| ==> (submitted[n] in inflight) != (submitted[n] in logoCache))
    && (forall key :: key in logoCache ==> key in submitted)
  }

  ghost predicate AllOpen(lookups: set<nat>, submitted: seq<string>, inflight: map<string, nat>) {
    forall n :: n in lookups ==> n < |submitted| && submitted[n] in inflight
  }

  // The lookups not answered yet.
  function Unanswered(s: State): set<nat> {
    s.active + Elements(s.waiting)
  }

  ghost predicate Tabled(s: State) {
    Table(s.submitted, s.inflight, s.logoCache) && AllOpen(Unanswered(s), s.submitted, s.inflight)
  }

  lemma NewKey(submitted: seq<string>, inflight: map<string, nat>, logoCache: map<string, Option<string>>, key: string)
    requires Table(submitted, inflight, logoCache) && key !in logoCache && key !in inflight
    ensures key !in submitted && Table(submitted + [key], inflight[key := |submitted|], logoCache)
  {
    assert forall n :: 0 <= n < |submitted| ==> submitted[n] != key;
  }

  lemma AnsweredKey(submitted: seq<string>, inflight: map<string, nat>, logoCache: map<string, Option<string>>,
                    n: nat, url: Option<string>)
    requires Table(submitted, inflight, logoCache) && n < |submitted|
    ensures Table(submitted, inflight - {submitted[n]}, logoCache[submitted[n] := url])
  {
  }

  lemma StillOpen(lookups: set<nat>, submitted: seq<string>, inflight: map<string, nat>, n: nat)
    requires AllOpen(lookups, submitted, inflight) && NoRepeats(submitted) && n < |submitted| && n !in lookups
    ensures AllOpen(lookups, submitted, inflight - {submitted[n]})
  {
  }

  lemma FetchTabled(s: State, key: string)
    requires Tabled(s)
    ensures Tabled(Fetched(s, key))
  {
    if key !in s.logoCache && key !in s.inflight {
      NewKey(s.submitted, s.inflight, s.logoCache, key);
      var n, t := |s.submitted|, Fetched(s, key);
      assert Unanswered(t) <= Unanswered(s) + {n};
      assert AllOpen(Unanswered(s) + {n}, t.submitted, t.inflight);
    }
  }

  lemma AnswerTabled(s: State, lookup: nat, url: Option<string>)
    requires Limiting(s) && Tabled(s) && lookup in s.active && lookup < |s.submitted|
    ensures Tabled(Answered(s, lookup, url))
  {
    if lookup in s.waiting {
      StartedIsNew(s, lookup);
    }
    AnsweredKey(s.submitted, s.inflight, s.logoCache, lookup, url);
    AnsweredOpen(s, lookup, url);
  }

  lemma AnsweredOpen(s: State, lookup: nat, url: Option<string>)
    requires AllOpen(Unanswered(s), s.submitted, s.inflight) && NoRepeats(s.submitted)
    requires lookup in s.active && lookup !in s.waiting && lookup < |s.submitted|
    ensures AllOpen(Unanswered(Answered(s, lookup, url)), s.submitted, s.inflight - {s.submitted[lookup]})
  {
    StillOpen(Unanswered(s) - {lookup}, s.submitted, s.inflight, lookup);
    assert Unanswered(Answered(s, lookup, url)) <= Unanswered(s) - {lookup};
  }

  lemma ReleaseTabled(s: State, lookup: nat)
    requires Tabled(s) && s.running > 0
    ensures Tabled(Released(s, lookup))
  {
    if s.waiting != [] {
      assert s.waiting == [s.waiting[0]] + s.waiting[1..];
    }
    assert Unanswered(Released(s, lookup)) <= Unanswered(s);
  }

  // ---------- Every run ----------

  ghost predicate Sound(s: State) {
    Limiting(s) && Tabled(s)
  }

  lemma StepSound(s: State, e: Event)
    requires Sound(s) && Enabled(s, e)
    ensures Sound(Step(s, e))
  {
    match e
    case Fetch(key) =>
      FetchLimits(s, key);
      FetchTabled(s, key);
    case Answer(lookup, url) =>
      AnswerLimits(s, lookup, url);
      AnswerTabled(s, lookup, url);
    case Release(lookup) =>
      ReleaseLimits(s, lookup);
      ReleaseTabled(s, lookup);
  }

  lemma {:induction false} Always(s: State, events: seq<Event>)
    requires Sound(s) && Possible(s, events)
    ensures Sound(Run(s, events))
    decreases |events|
  {
    if events == [] {
    } else {
      StepSound(s, events[0]);
      Always(Step(s, events[0]), events[1..]);
    }
  }

  lemma PrefixOfNumbers(a: seq<nat>, b: seq<nat>, n: nat)
    requires a + b == Numbers(n)
    ensures a == Numbers(|a|) && |a| + |b| == n
  {
    assert |a + b| == n;
    assert forall i :: 0 <= i < |a| ==> a[i] == (a + b)[i];
  }

  lemma StartedAreFirst(s: State)
    requires Limiting(s)
    ensures s.started == Numbers(if |s.submitted| < s.finished + 4 then |s.submitted| else s.finished + 4)
  {
    PrefixOfNumbers(s.started, s.waiting, |s.submitted|);
  }

  lemma BothTables(s: State, key: string)
    requires Tabled(s)
    ensures key in s.submitted <==> key in s.logoCache || key in s.inflight
  {
    if key in s.submitted {
      var n :| 0 <= n < |s.submitted| && s.submitted[n] == key;
    } else if key in s.inflight {
      TableKeys(s.submitted, s.inflight, s.logoCache, key);
    }
  }

  // In every run: at most four lookups run, and a lookup waits only while four do; they start in
  // the order they were submitted; every one is finished, running or waiting. So the lookups
  // started are the first four and one more for each that finished.
  lemma {:induction false} LimiterHolds(events: seq<Event>)
    requires Possible(EMPTY, events)
    ensures var s := Run(EMPTY, events);
            && s.running <= 4 && (s.waiting != [] ==> s.running == 4)
            && |s.submitted| == s.finished + s.running + |s.waiting|
            && s.started == Numbers(if |s.submitted| < s.finished + 4 then |s.submitted| else s.finished + 4)
  {
    Always(EMPTY, events);
    StartedAreFirst(Run(EMPTY, events));
  }

  // In every run: no key is looked up twice, and a key is known or being looked up exactly when it
  // was asked for.
  lemma {:induction false} EachKeyOnce(events: seq<Event>, key: string)
    requires Possible(EMPTY, events)
    ensures var s := Run(EMPTY, events);
            && NoRepeats(s.submitted)
            && (Fetch(key) in events <==> key in s.submitted)
            && (key in s.submitted <==> key in s.logoCache || key in s.inflight)
  {
    Always(EMPTY, events);
    AskedFor(EMPTY, events, key);
    BothTables(Run(EMPTY, events), key);
  }

  lemma TableKeys(submitted: seq<string>, inflight: map<string, nat>, logoCache: map<string, Option<string>>,
                  key: string)
    requires Table(submitted, inflight, logoCache) && (key in logoCache || key in inflight)
    ensures key in submitted
  {
    if key in inflight {
      assert submitted[inflight[key]] == key;
    }
  }

  lemma StepSubmits(s: State, e: Event)
    requires Enabled(s, e)
    ensures Step(s, e).submitted
            == if e.Fetch? && e.key !in s.logoCache && e.key !in s.inflight then s.submitted + [e.key] else s.submitted
  {
  }

  lemma StepAsks(s: State, e: Event, key: string)
    requires Sound(s) && Enabled(s, e)
    ensures key in Step(s, e).submitted <==> key in s.submitted || e == Fetch(key)
  {
    StepSubmits(s, e);
    if e == Fetch(key) && (key in s.logoCache || key in s.inflight) {
      TableKeys(s.submitted, s.inflight, s.logoCache, key);
    }
  }

  lemma InTail(events: seq<Event>, e: Event)
    requires events != []
    ensures e in events <==> e == events[0] || e in events[1..]
  {
    assert events == [events[0]] + events[1..];
  }

  lemma {:induction false} AskedFor(s: State, events: seq<Event>, key: string)
    requires Sound(s) && Possible(s, events)
    ensures key in Run(s, events).submitted <==> key in s.submitted || Fetch(key) in events
    decreases |events|
  {
    if events == [] {
    } else {
      StepSound(s, events[0]);
      StepAsks(s, events[0], key);
      AskedFor(Step(s, events[0]), events[1..], key);
      InTail(events, Fetch(key));
    }
  }

  lemma StepKeepsAnswer(s: State, e: Event, key: string)
    requires Sound(s) && Enabled(s, e) && key in s.logoCache
    ensures key in Step(s, e).logoCache && Step(s, e).logoCache[key] == s.logoCache[key]
  {
    if e.Answer? {
      assert e.lookup in Unanswered(s);
    }
  }

  // An answer is kept, a failure too: every later fetch of the key gets it.
  lemma {:induction false} AnswersAreKept(s: State, events: seq<Event>, key: string)
    requires Sound(s) && Possible(s, events) && key in s.logoCache
    ensures key in Run(s, events).logoCache && Run(s, events).logoCache[key] == s.logoCache[key]
    decreases |events|
  {
    if events == [] {
    } else {
      StepSound(s, events[0]);
      StepKeepsAnswer(s, events[0], key);
      AnswersAreKept(Step(s, events[0]), events[1..], key);
    }
  }
}
