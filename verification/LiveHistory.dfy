/** The consistency check's whole history: what a table and two lists mean over any run of calls. */
module LiveHistory {
  import opened Rounding
  import opened Wrappers
  import opened LiveCheck

  // The two results of the last call.
  function LastReports(calls: seq<Call>): seq<Report>
    requires calls != []
  {
    var call := calls[|calls| - 1];
    Reports(OpenAfter(calls[..|calls| - 1]), call.observations, call.now)
  }

  function LastResolved(calls: seq<Call>): map<string, Resolution>
    requires calls != []
  {
    var call := calls[|calls| - 1];
    Resolved(AfterAll(OpenAfter(calls[..|calls| - 1]), call.observations, call.now), Idents(call.observations),
        call.now)
  }

  // ---------- The history of one problem, without the table ----------

  predicate Seen(call: Call, id: string) {
    id in Idents(call.observations)
  }

  // The first call of the unbroken streak of calls that saw the problem.
  function StreakStart(calls: seq<Call>, id: string): (k: nat)
    requires calls != [] && Seen(calls[|calls| - 1], id)
    ensures k < |calls| && (forall j :: k <= j < |calls| ==> Seen(calls[j], id))
    ensures k > 0 ==> !Seen(calls[k - 1], id)
  {
    var n := |calls| - 1;
    if n > 0 && Seen(calls[n - 1], id) then StreakStart(calls[..n], id) else n
  }

  function FirstSeen(calls: seq<Call>, id: string): real
    requires calls != [] && Seen(calls[|calls| - 1], id)
  {
    calls[StreakStart(calls, id)].now
  }

  predicate Elapsed(calls: seq<Call>, id: string, kind: string)
    requires calls != [] && Seen(calls[|calls| - 1], id)
  {
    calls[|calls| - 1].now - FirstSeen(calls, id) >= Grace(kind)
  }

  // Some call of the streak so far came after the grace.
  predicate Due(calls: seq<Call>, id: string, kind: string)
    requires calls != [] && Seen(calls[|calls| - 1], id)
  {
    var k := StreakStart(calls, id);
    exists j :: k <= j < |calls| && calls[j].now - calls[k].now >= Grace(kind)
  }

  // The last call carries on a streak.
  predicate Continues(calls: seq<Call>, id: string) {
    |calls| > 1 && Seen(calls[|calls| - 2], id)
  }

  // Every observation under this identity has this kind.
  ghost predicate KindFixed(calls: seq<Call>, id: string, kind: string) {
    forall call, obs :: call in calls && obs in call.observations && Ident(obs) == id ==> obs.kind == kind
  }

  // ---------- Identities ----------

  predicate NoBar(s: string) {
    forall c :: c in s ==> c != '|'
  }

  lemma FirstBar(a: string, x: string)
    requires NoBar(a)
    ensures (a + "|" + x)[|a|] == '|' && forall i :: 0 <= i < |a| ==> (a + "|" + x)[i] != '|'
    ensures a == (a + "|" + x)[..|a|] && x == (a + "|" + x)[|a| + 1..]
  {
    assert forall i :: 0 <= i < |a| ==> (a + "|" + x)[i] == a[i] && a[i] in a;
  }

  lemma SplitAtBar(a: string, x: string, b: string, y: string)
    requires NoBar(a) && NoBar(b) && a + "|" + x == b + "|" + y
    ensures a == b && x == y
  {
    FirstBar(a, x);
    FirstBar(b, y);
  }

  // Events and kinds have no bar, so an identity determines both (whatever the match is called).
  lemma IdentDeterminesKind(o: Observation, p: Observation)
    requires NoBar(o.event) && NoBar(o.kind) && NoBar(p.event) && NoBar(p.kind) && Ident(o) == Ident(p)
    ensures o.event == p.event && o.kind == p.kind
  {
    var x := if o.match_key.Some? then o.match_key.value else "None";
    var y := if p.match_key.Some? then p.match_key.value else "None";
    assert Ident(o) == o.event + "|" + (o.kind + "|" + x);
    assert Ident(p) == p.event + "|" + (p.kind + "|" + y);
    SplitAtBar(o.event, o.kind + "|" + x, p.event, p.kind + "|" + y);
    SplitAtBar(o.kind, x, p.kind, y);
  }

  // ---------- One call ----------

  predicate UsesKind(observations: seq<Observation>, id: string, kind: string) {
    forall obs :: obs in observations && Ident(obs) == id ==> obs.kind == kind
  }

  function CountOf(reports: seq<Report>, id: string): nat {
    if reports == [] then 0
    else CountOf(reports[..|reports| - 1], id) + if reports[|reports| - 1].ident == id then 1 else 0
  }

  lemma {:induction false} CountConcat(a: seq<Report>, b: seq<Report>, id: string)
    ensures CountOf(a + b, id) == CountOf(a, id) + CountOf(b, id)
  {
    if b == [] {
      assert a + b == a;
    } else {
      assert (a + b)[..|a + b| - 1] == a + b[..|b| - 1];
      CountConcat(a, b[..|b| - 1], id);
    }
  }

  // What observations do to one problem: `was` and `first` are the flag and the clock before them.
  predicate Tracks(after: Open, open: Open, seen: bool, now: real, id: string, kind: string) {
    var was := id in open && open[id].reported;
    var first := if id in open then open[id].firstSeen else now;
    && (id in after <==> id in open || seen)
    && (id in after ==>
          after[id].firstSeen == first && after[id].reported == (was || (seen && now - first >= Grace(kind))))
  }

  lemma OneObservation(before: Open, open: Open, seen: bool, obs: Observation, now: real, id: string, kind: string)
    requires Tracks(before, open, seen, now, id, kind) && (Ident(obs) == id ==> obs.kind == kind)
    ensures Tracks(AfterObservation(before, obs, now), open, seen || Ident(obs) == id, now, id, kind)
    ensures NewlyDue(before, obs, now) && Ident(obs) == id <==>
            Ident(obs) == id && AfterObservation(before, obs, now)[id].reported &&
                !(id in before && before[id].reported)
  {
  }

  // The clock starts at the first observation, the grace is judged once, and there is a report
  // exactly when the flag goes up.
  lemma {:induction false} OneCall(open: Open, observations: seq<Observation>, now: real, id: string, kind: string)
    requires UsesKind(observations, id, kind)
    ensures var after := AfterAll(open, observations, now);
            && Tracks(after, open, id in Idents(observations), now, id, kind)
            && CountOf(Reports(open, observations, now), id) ==
               if id in after && after[id].reported && !(id in open && open[id].reported) then 1 else 0
  {
    if observations == [] {
    } else {
      var n := |observations| - 1;
      var init, obs := observations[..n], observations[n];
      assert observations == observations[..n + 1];
      IdentsSnoc(observations, n);
      OneCall(open, init, now, id, kind);
      var before := AfterAll(open, init, now);
      OneObservation(before, open, id in Idents(init), obs, now, id, kind);
      CountConcat(Reports(open, init, now), ReportOf(before, obs, now), id);
      CountOne(before, obs, now, id);
    }
  }

  lemma {:induction false} CountOne(open: Open, obs: Observation, now: real, id: string)
    ensures CountOf(ReportOf(open, obs, now), id) == if NewlyDue(open, obs, now) && Ident(obs) == id then 1 else 0
  {
    if NewlyDue(open, obs, now) {
      assert ReportOf(open, obs, now)[..0] == [];
    }
  }

  lemma UsesKindAt(calls: seq<Call>, id: string, kind: string)
    requires KindFixed(calls, id, kind) && calls != []
    ensures UsesKind(calls[|calls| - 1].observations, id, kind) && KindFixed(calls[..|calls| - 1], id, kind)
  {
    assert calls[|calls| - 1] in calls;
  }

  lemma DueGrows(calls: seq<Call>, id: string, kind: string)
    requires calls != [] && Seen(calls[|calls| - 1], id)
    ensures Due(calls, id, kind) <==>
            (Continues(calls, id) && Due(calls[..|calls| - 1], id, kind)) || Elapsed(calls, id, kind)
    ensures Continues(calls, id) ==> FirstSeen(calls, id) == FirstSeen(calls[..|calls| - 1], id)
  {
    var n := |calls| - 1;
    var init := calls[..n];
    if Continues(calls, id) {
      assert StreakStart(calls, id) == StreakStart(init, id);
      assert forall j :: 0 <= j < n ==> init[j] == calls[j];
    }
  }

  // ---------- The table equals its history ----------

  // After any calls the open problems are exactly those the last call saw, each with the time of
  // the first call of its streak, and marked reported exactly when some call of the streak came
  // after the grace.
  lemma {:induction false} TableEqualsHistory(calls: seq<Call>, id: string, kind: string)
    requires calls != [] && KindFixed(calls, id, kind)
    ensures id in OpenAfter(calls) <==> Seen(calls[|calls| - 1], id)
    ensures Seen(calls[|calls| - 1], id) ==>
              OpenAfter(calls)[id].firstSeen == FirstSeen(calls, id) &&
              OpenAfter(calls)[id].reported == Due(calls, id, kind)
  {
    var n := |calls| - 1;
    UsesKindAt(calls, id, kind);
    OneCall(OpenAfter(calls[..n]), calls[n].observations, calls[n].now, id, kind);
    if n > 0 {
      TableEqualsHistory(calls[..n], id, kind);
    }
    if Seen(calls[n], id) {
      DueGrows(calls, id, kind);
    }
  }

  // ---------- Report once, resolve once ----------

  // The last call reports a problem exactly once when it is the first of its streak to come after
  // the grace, and not at all otherwise.
  lemma {:induction false} ReportsAtFirstDueCall(calls: seq<Call>, id: string, kind: string)
    requires calls != [] && KindFixed(calls, id, kind)
    ensures CountOf(LastReports(calls), id) ==
            if Seen(calls[|calls| - 1], id) && Elapsed(calls, id, kind) &&
               !(Continues(calls, id) && Due(calls[..|calls| - 1], id, kind))
            then 1 else 0
  {
    var n := |calls| - 1;
    UsesKindAt(calls, id, kind);
    OneCall(OpenAfter(calls[..n]), calls[n].observations, calls[n].now, id, kind);
    if n > 0 {
      TableEqualsHistory(calls[..n], id, kind);
    }
    if Seen(calls[n], id) {
      DueGrows(calls, id, kind);
    }
  }

  // The last call resolves a problem exactly when it ends a streak that was reported, with the
  // whole streak's length.
  lemma ResolvesReportedStreaks(calls: seq<Call>, id: string, kind: string)
    requires calls != [] && KindFixed(calls, id, kind)
    ensures id in LastResolved(calls) <==>
            !Seen(calls[|calls| - 1], id) && Continues(calls, id) && Due(calls[..|calls| - 1], id, kind)
    ensures id in LastResolved(calls) ==>
            LastResolved(calls)[id].lastedSec == Round(calls[|calls| - 1].now - FirstSeen(calls[..|calls| - 1], id))
  {
    var n := |calls| - 1;
    var open, call := OpenAfter(calls[..n]), calls[n];
    UsesKindAt(calls, id, kind);
    ResolvedByCall(open, call, id, kind);
    OpenBefore(calls, id, kind);
  }

  // The table the last call starts from.
  lemma OpenBefore(calls: seq<Call>, id: string, kind: string)
    requires calls != [] && KindFixed(calls, id, kind)
    ensures var init := calls[..|calls| - 1];
            && (id in OpenAfter(init) <==> Continues(calls, id))
            && (Continues(calls, id) ==> OpenAfter(init)[id].firstSeen == FirstSeen(init, id) &&
                                         OpenAfter(init)[id].reported == Due(init, id, kind))
  {
    if |calls| > 1 {
      TableEqualsHistory(calls[..|calls| - 1], id, kind);
    }
  }

  // A call resolves the reported problems of the table that it does not see.
  lemma {:induction false} ResolvedByCall(open: Open, call: Call, id: string, kind: string)
    requires UsesKind(call.observations, id, kind)
    ensures var resolved := Resolved(AfterAll(open, call.observations, call.now), Idents(call.observations), call.now);
            && (id in resolved <==> !Seen(call, id) && id in open && open[id].reported)
            && (id in resolved ==> resolved[id].lastedSec == Round(call.now - open[id].firstSeen))
  {
    OneCall(open, call.observations, call.now, id, kind);
  }

  predicate ClockNeverGoesBack(calls: seq<Call>) {
    forall i, j :: 0 <= i <= j < |calls| ==> calls[i].now <= calls[j].now
  }

  // The clock reaches a grace and then goes back below it: seen from call `i`, call `j` is past the
  // grace and the later call `k` is not.
  predicate SlipsBack(times: seq<real>, i: nat, j: nat, k: nat, grace: real) {
    i <= j < k < |times| && times[j] - times[i] >= grace > times[k] - times[i]
  }

  ghost predicate NeverSlipsBack(times: seq<real>, grace: real) {
    forall i: nat, j: nat, k: nat :: !SlipsBack(times, i, j, k, grace)
  }

  function Times(calls: seq<Call>): (r: seq<real>)
    ensures |r| == |calls|
  {
    seq(|calls|, n requires 0 <= n < |calls| => calls[n].now)
  }

  // What the last call resolves lasted at least its grace.
  predicate LastedItsGrace(calls: seq<Call>, id: string, kind: string)
    requires calls != []
  {
    id in LastResolved(calls) ==>
      Continues(calls, id) && calls[|calls| - 1].now - FirstSeen(calls[..|calls| - 1], id) >= Grace(kind)
  }

  lemma DueLasts(calls: seq<Call>, id: string, kind: string)
    requires calls != [] && Continues(calls, id) && NeverSlipsBack(Times(calls), Grace(kind))
    requires Due(calls[..|calls| - 1], id, kind)
    ensures calls[|calls| - 1].now - FirstSeen(calls[..|calls| - 1], id) >= Grace(kind)
  {
    var init, times := calls[..|calls| - 1], Times(calls);
    var k := StreakStart(init, id);
    var j :| k <= j < |init| && init[j].now - init[k].now >= Grace(kind);
    assert times[j] == init[j].now && times[k] == init[k].now;
    assert !SlipsBack(times, k, j, |init|, Grace(kind));
  }

  lemma ResolvedInStreak(calls: seq<Call>, id: string, kind: string)
    requires calls != [] && KindFixed(calls, id, kind) && NeverSlipsBack(Times(calls), Grace(kind))
    ensures LastedItsGrace(calls, id, kind)
  {
    ResolvesReportedStreaks(calls, id, kind);
    if id in LastResolved(calls) {
      DueLasts(calls, id, kind);
    }
  }

  // One problem, seen by the calls from `i` to just before `k`, at these times.
  function OneStreak(obs: Observation, times: seq<real>, i: nat, k: nat): (calls: seq<Call>)
    requires i < k < |times|
    ensures |calls| == k + 1
    ensures forall n :: 0 <= n <= k ==> calls[n] == Call(if i <= n < k then [obs] else [], times[n])
  {
    seq(k + 1, n requires 0 <= n <= k => Call(if i <= n < k then [obs] else [], times[n]))
  }

  lemma SeenInStreak(obs: Observation, times: seq<real>, i: nat, k: nat, n: nat)
    requires i < k < |times| && n <= k
    ensures Seen(OneStreak(obs, times, i, k)[n], Ident(obs)) <==> i <= n < k
  {
    var call := OneStreak(obs, times, i, k)[n];
    if i <= n < k {
      assert Ident(call.observations[0]) in Idents(call.observations);
    }
  }

  lemma {:induction false} StreakIs(calls: seq<Call>, id: string, i: nat)
    requires i < |calls| && (forall j :: i <= j < |calls| ==> Seen(calls[j], id)) && (i > 0 ==> !Seen(calls[i - 1], id))
    ensures StreakStart(calls, id) == i
  {
    if i > 0 {
      assert !Seen(calls[i - 1], id);
    }
  }

  lemma StreakEnds(obs: Observation, times: seq<real>, i: nat, j: nat, k: nat)
    requires SlipsBack(times, i, j, k, Grace(obs.kind))
    ensures var calls := OneStreak(obs, times, i, k);
            && !Seen(calls[k], Ident(obs)) && Continues(calls, Ident(obs))
            && Due(calls[..k], Ident(obs), obs.kind) && FirstSeen(calls[..k], Ident(obs)) == times[i]
  {
    var calls, id := OneStreak(obs, times, i, k), Ident(obs);
    forall n: nat | n <= k ensures Seen(calls[n], id) <==> i <= n < k {
      SeenInStreak(obs, times, i, k, n);
    }
    var init := calls[..k];
    assert forall n :: 0 <= n < k ==> init[n] == calls[n];
    StreakIs(init, id, i);
    assert init[j].now - init[i].now >= Grace(obs.kind);
  }

  lemma SlipShortensStreak(obs: Observation, times: seq<real>, i: nat, j: nat, k: nat)
    requires SlipsBack(times, i, j, k, Grace(obs.kind))
    ensures var calls := OneStreak(obs, times, i, k);
            KindFixed(calls, Ident(obs), obs.kind) && !LastedItsGrace(calls, Ident(obs), obs.kind)
  {
    StreakEnds(obs, times, i, j, k);
    ResolvesReportedStreaks(OneStreak(obs, times, i, k), Ident(obs), obs.kind);
  }

  lemma SlipsInPrefix(a: seq<real>, b: seq<real>, grace: real)
    requires a <= b && NeverSlipsBack(b, grace)
    ensures NeverSlipsBack(a, grace)
  {
    forall i: nat, j: nat, k: nat ensures !SlipsBack(a, i, j, k, grace) {
      assert !SlipsBack(b, i, j, k, grace);
    }
  }

  lemma NoSlipLasts(calls: seq<Call>, times: seq<real>, id: string, kind: string)
    requires calls != [] && Times(calls) <= times && KindFixed(calls, id, kind) && NeverSlipsBack(times, Grace(kind))
    ensures LastedItsGrace(calls, id, kind)
  {
    SlipsInPrefix(Times(calls), times, Grace(kind));
    ResolvedInStreak(calls, id, kind);
  }

  lemma SlipFound(obs: Observation, times: seq<real>) returns (calls: seq<Call>)
    requires !NeverSlipsBack(times, Grace(obs.kind))
    ensures calls != [] && Times(calls) <= times && KindFixed(calls, Ident(obs), obs.kind)
    ensures !LastedItsGrace(calls, Ident(obs), obs.kind)
  {
    var i: nat, j: nat, k: nat :| SlipsBack(times, i, j, k, Grace(obs.kind));
    SlipShortensStreak(obs, times, i, j, k);
    calls := OneStreak(obs, times, i, k);
  }

  // At given call times, whatever the calls see of a problem, it lasts its grace whenever it is
  // resolved, exactly when the clock never slips back over that grace.
  lemma ResolvedLastedItsGrace(obs: Observation, times: seq<real>)
    ensures (forall calls :: calls != [] && Times(calls) <= times && KindFixed(calls, Ident(obs), obs.kind) ==>
              LastedItsGrace(calls, Ident(obs), obs.kind))
            <==> NeverSlipsBack(times, Grace(obs.kind))
  {
    if NeverSlipsBack(times, Grace(obs.kind)) {
      forall calls | calls != [] && Times(calls) <= times && KindFixed(calls, Ident(obs), obs.kind)
        ensures LastedItsGrace(calls, Ident(obs), obs.kind)
      {
        NoSlipLasts(calls, times, Ident(obs), obs.kind);
      }
    } else {
      var calls := SlipFound(obs, times);
    }
  }

  // In particular when it never goes back.
  lemma SteadyClockLasts(calls: seq<Call>, id: string, kind: string)
    requires calls != [] && KindFixed(calls, id, kind) && ClockNeverGoesBack(calls)
    ensures LastedItsGrace(calls, id, kind)
  {
    var times := Times(calls);
    assert forall i, j :: 0 <= i <= j < |times| ==> times[i] <= times[j];
    ResolvedInStreak(calls, id, kind);
  }

  // ---------- The log of one problem ----------

  // true for a call's report (there is never a second one, by ReportsAtFirstDueCall), false for its
  // resolution, in the order of the calls.
  function Log(calls: seq<Call>, id: string): seq<bool> {
    if calls == [] then []
    else Log(calls[..|calls| - 1], id)
         + Entry(true, CountOf(LastReports(calls), id) > 0) + Entry(false, id in LastResolved(calls))
  }

  predicate Alternates(log: seq<bool>) {
    forall i :: 0 <= i < |log| ==> log[i] == (i % 2 == 0)
  }

  function Entry(value: bool, present: bool): seq<bool> {
    if present then [value] else []
  }

  lemma AlternatesOn(log: seq<bool>, reports: bool, resolves: bool)
    requires Alternates(log)
    requires !reports || (!resolves && |log| % 2 == 0)
    requires !resolves || |log| % 2 == 1
    ensures var log' := log + Entry(true, reports) + Entry(false, resolves);
            Alternates(log') && (|log'| % 2 == 1 <==> (|log| % 2 == 1 || reports) && !resolves)
  {
  }

  predicate Outstanding(calls: seq<Call>, id: string, kind: string) {
    calls != [] && Seen(calls[|calls| - 1], id) && Due(calls, id, kind)
  }

  // Reports and resolutions alternate, starting with a report; a report is outstanding exactly
  // while the problem is open and past its grace.
  lemma {:induction false} ReportsAndResolutionsAlternate(calls: seq<Call>, id: string, kind: string)
    requires KindFixed(calls, id, kind)
    ensures Alternates(Log(calls, id))
    ensures |Log(calls, id)| % 2 == 1 <==> Outstanding(calls, id, kind)
  {
    if calls == [] {
    } else {
      var init := calls[..|calls| - 1];
      UsesKindAt(calls, id, kind);
      ReportsAndResolutionsAlternate(init, id, kind);
      OutstandingNow(calls, id, kind);
      AlternatesOn(Log(init, id), CountOf(LastReports(calls), id) > 0, id in LastResolved(calls));
    }
  }

  // A report needs none outstanding, a resolution needs one, and together they leave one
  // outstanding exactly when the problem is open past its grace.
  lemma {:induction false} OutstandingNow(calls: seq<Call>, id: string, kind: string)
    requires calls != [] && KindFixed(calls, id, kind)
    ensures var reports, resolves := CountOf(LastReports(calls), id) > 0, id in LastResolved(calls);
            var before := Outstanding(calls[..|calls| - 1], id, kind);
            && !(reports && before) && !(resolves && !before) && !(reports && resolves)
            && ((before || reports) && !resolves <==> Outstanding(calls, id, kind))
  {
    ReportsAtFirstDueCall(calls, id, kind);
    ResolvesReportedStreaks(calls, id, kind);
    if Seen(calls[|calls| - 1], id) {
      DueGrows(calls, id, kind);
    }
  }
}
