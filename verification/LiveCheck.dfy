/**
  The live consistency check's bookkeeping: `advance` is called once per run of the monitor with
  the problems seen right now, over a table that lives from run to run.
 */
module LiveCheck {
  import opened Rounding
  import opened Sets
  import opened Wrappers

  datatype Observation = Observation(event: string, kind: string, match_key: Option<string>, detail: string)

  // The observation that opened the issue, with the latest detail.
  datatype Issue = Issue(first: Observation, detail: string, firstSeen: real, reported: bool)

  datatype Report = Report(ident: string, issue: Issue, ageSec: int)

  datatype Resolution = Resolution(ident: string, issue: Issue, lastedSec: int)

  const GRACE_SEC: map<string, int> :=
    map["endpoint_error" := 120, "missing_match" := 300, "result_lag" := 90, "frc_ahead" := 90,
        "score_mismatch" := 90, "lineup_mismatch" := 300, "missing_prediction" := 300]

  function Grace(kind: string): real {
    if kind in GRACE_SEC then GRACE_SEC[kind] as real else 0.0
  }

  function Ident(obs: Observation): string {
    obs.event + "|" + obs.kind + "|" + (if obs.match_key.Some? then obs.match_key.value else "None")
  }

  // ---------- One call ----------

  type Open = map<string, Issue>

  predicate DueNow(issue: Issue, kind: string, now: real) {
    now - issue.firstSeen >= Grace(kind)
  }

  function IssueOf(open: Open, obs: Observation, now: real): Issue {
    (if Ident(obs) in open then open[Ident(obs)] else Issue(obs, obs.detail, now, false)).(detail := obs.detail)
  }

  predicate NewlyDue(open: Open, obs: Observation, now: real) {
    var issue := IssueOf(open, obs, now);
    !issue.reported && DueNow(issue, obs.kind, now)
  }

  function AfterObservation(open: Open, obs: Observation, now: real): Open {
    var issue := IssueOf(open, obs, now);
    open[Ident(obs) := issue.(reported := issue.reported || DueNow(issue, obs.kind, now))]
  }

  function AfterAll(open: Open, observations: seq<Observation>, now: real): Open {
    if observations == [] then open else
      AfterObservation(AfterAll(open, observations[..|observations| - 1], now), observations[|observations| - 1], now)
  }

  function ReportOf(open: Open, obs: Observation, now: real): seq<Report> {
    var issue := IssueOf(open, obs, now).(reported := true);
    if NewlyDue(open, obs, now) then [Report(Ident(obs), issue, Round(now - issue.firstSeen))] else []
  }

  function Reports(open: Open, observations: seq<Observation>, now: real): seq<Report> {
    if observations == [] then [] else
      var init, obs := observations[..|observations| - 1], observations[|observations| - 1];
      Reports(open, init, now) + ReportOf(AfterAll(open, init, now), obs, now)
  }

  function Idents(observations: seq<Observation>): set<string> {
    set i | 0 <= i < |observations| :: Ident(observations[i])
  }

  lemma IdentsSnoc(observations: seq<Observation>, i: nat)
    requires i < |observations|
    ensures Idents(observations[..i + 1]) == Idents(observations[..i]) + {Ident(observations[i])}
  {
    assert forall k :: 0 <= k < i ==> observations[..i + 1][k] == observations[..i][k];
    assert observations[..i + 1][i] == observations[i];
  }

  function ResolutionOf(open: Open, id: string, now: real): Resolution
    requires id in open
  {
    Resolution(id, open[id], Round(now - open[id].firstSeen))
  }

  function Resolved(open: Open, seen: set<string>, now: real): map<string, Resolution> {
    map id | id in open && id !in seen && open[id].reported :: ResolutionOf(open, id, now)
  }

  function StillOpen(open: Open, seen: set<string>): Open {
    map id | id in open && id in seen :: open[id]
  }

  // ---------- The order of the table: as the problems were opened ----------

  predicate Lists(ids: seq<string>, open: Open) {
    NoRepeats(ids) && Elements(ids) == open.Keys
  }

  function OrderAfter(ids: seq<string>, observations: seq<Observation>): seq<string> {
    if observations == [] then ids else
      var before, id := OrderAfter(ids, observations[..|observations| - 1]), Ident(observations[|observations| - 1]);
      if id in before then before else before + [id]
  }

  // Those a call leaves open, and those it does not see.
  function Kept(ids: seq<string>, seen: set<string>): (r: seq<string>)
    ensures forall id :: id in r <==> id in ids && id in seen
  {
    if ids == [] then [] else
      Kept(ids[..|ids| - 1], seen) + if ids[|ids| - 1] in seen then [ids[|ids| - 1]] else []
  }

  function Gone(ids: seq<string>, seen: set<string>): (r: seq<string>)
    ensures forall id :: id in r <==> id in ids && id !in seen
  {
    if ids == [] then [] else
      Gone(ids[..|ids| - 1], seen) + if ids[|ids| - 1] in seen then [] else [ids[|ids| - 1]]
  }

  // The resolutions of the reported ones among these problems, in order.
  function ResolvedIn(ids: seq<string>, open: Open, now: real): seq<Resolution> {
    if ids == [] then [] else
      var id := ids[|ids| - 1];
      ResolvedIn(ids[..|ids| - 1], open, now)
      + if id in open && open[id].reported then [ResolutionOf(open, id, now)] else []
  }

  lemma {:induction false} SplitKeepsDistinct(ids: seq<string>, seen: set<string>)
    requires NoRepeats(ids)
    ensures NoRepeats(Kept(ids, seen)) && NoRepeats(Gone(ids, seen))
  {
    if ids == [] {
    } else {
      var init, last := ids[..|ids| - 1], ids[|ids| - 1];
      assert ids == init + [last];
      NoRepeatsSnoc(init, last);
      SplitKeepsDistinct(init, seen);
      NoRepeatsSnoc(Kept(init, seen), last);
      NoRepeatsSnoc(Gone(init, seen), last);
    }
  }

  lemma OneMoreListed(ids: seq<string>, open: Open, obs: Observation, now: real)
    requires Lists(ids, open)
    ensures Lists(if Ident(obs) in ids then ids else ids + [Ident(obs)], AfterObservation(open, obs, now))
    ensures Ident(obs) in ids <==> Ident(obs) in open
  {
    assert Ident(obs) in ids <==> Ident(obs) in Elements(ids);
    ElementsSnoc(ids, Ident(obs));
  }

  lemma {:induction false} KeptListsTable(ids: seq<string>, open: Open, seen: set<string>)
    requires Lists(ids, open)
    ensures Lists(Kept(ids, seen), StillOpen(open, seen))
    ensures open - Elements(Gone(ids, seen)) == StillOpen(open, seen)
  {
    SplitKeepsDistinct(ids, seen);
    assert forall id :: id in ids <==> id in Elements(ids);
    assert Elements(Kept(ids, seen)) == StillOpen(open, seen).Keys;
  }

  // The table once the first `n` of these are popped.
  function Popped(open: Open, gone: seq<string>, n: nat): Open
    requires n <= |gone|
  {
    open - Elements(gone[..n])
  }

  lemma NextIsThere(gone: seq<string>, open: Open, i: nat)
    requires NoRepeats(gone) && i < |gone| && gone[i] in open
    ensures gone[i] in Popped(open, gone, i) && Popped(open, gone, i)[gone[i]] == open[gone[i]]
    ensures Popped(open, gone, i) - {gone[i]} == Popped(open, gone, i + 1)
  {
    assert gone[..i + 1] == gone[..i] + [gone[i]];
    ElementsSnoc(gone[..i], gone[i]);
    assert gone[i] !in gone[..i];
  }

  // A call's list of resolutions has exactly the table's.
  lemma {:induction false} ResolvedListed(ids: seq<string>, open: Open, now: real, x: Resolution)
    ensures x in ResolvedIn(ids, open, now) <==>
            x.ident in ids && x.ident in open && open[x.ident].reported && x == ResolutionOf(open, x.ident, now)
  {
    if ids == [] {
    } else {
      var n := |ids| - 1;
      ResolvedListed(ids[..n], open, now, x);
      assert ids == ids[..n] + [ids[n]];
    }
  }

  lemma {:induction false} ListsResolved(ids: seq<string>, open: Open, seen: set<string>, now: real, x: Resolution)
    requires Lists(ids, open)
    ensures x in ResolvedIn(Gone(ids, seen), open, now) <==>
            x.ident in Resolved(open, seen, now) && Resolved(open, seen, now)[x.ident] == x
  {
    ResolvedListed(Gone(ids, seen), open, now, x);
    assert x.ident in ids <==> x.ident in Elements(ids);
  }

  // ---------- Many calls ----------

  datatype Call = Call(observations: seq<Observation>, now: real)

  function OpenAfter(calls: seq<Call>): Open {
    if calls == [] then map[] else
      var call := calls[|calls| - 1];
      StillOpen(AfterAll(OpenAfter(calls[..|calls| - 1]), call.observations, call.now), Idents(call.observations))
  }

  class Monitor {
    // The dict of open issues: its entries, and its keys in the order they were added.
    var open: Open
    var ids: seq<string>
    ghost var history: seq<Call>

    // The table is what the calls so far made of an empty one.
    ghost predicate Valid()
      reads this
    {
      open == OpenAfter(history) && Lists(ids, open)
    }

    constructor ()
      ensures Valid() && history == []
    {
      open, ids, history := map[], [], [];
    }

    method Advance(observations: seq<Observation>, now: real)
      returns (reported: seq<Report>, resolved: seq<Resolution>)
      requires Valid()
      modifies this
      ensures Valid() && history == old(history) + [Call(observations, now)]
      ensures reported == Reports(old(open), observations, now)
      ensures var all, order := AfterAll(old(open), observations, now), OrderAfter(old(ids), observations);
              && open == StillOpen(all, Idents(observations)) && ids == Kept(order, Idents(observations))
              && resolved == ResolvedIn(Gone(order, Idents(observations)), all, now)
    {
      var seenNow: set<string> := {};
      reported := [];
      for i := 0 to |observations|
        invariant seenNow == Idents(observations[..i]) && history == old(history)
        invariant open == AfterAll(old(open), observations[..i], now)
        invariant ids == OrderAfter(old(ids), observations[..i]) && Lists(ids, open)
        invariant reported == Reports(old(open), observations[..i], now)
      {
        assert observations[..i + 1][..i] == observations[..i];
        IdentsSnoc(observations, i);
        seenNow := seenNow + {Ident(observations[i])};
        OneMoreListed(ids, open, observations[i], now);
        var report := Observe(observations[i], now);
        reported := reported + report;
      }
      assert observations[..|observations|] == observations;
      resolved := Resolve(seenNow, now);
      history := history + [Call(observations, now)];
      assert history[..|history| - 1] == old(history);
    }

    // One turn of the loop: the report it makes, if any.
    method Observe(obs: Observation, now: real) returns (report: seq<Report>)
      requires Ident(obs) in ids <==> Ident(obs) in open
      modifies `open, `ids
      ensures open == AfterObservation(old(open), obs, now)
      ensures ids == if Ident(obs) in old(ids) then old(ids) else old(ids) + [Ident(obs)]
      ensures report == ReportOf(old(open), obs, now)
    {
      var ident := Ident(obs);
      if ident !in open {
        open, ids := open[ident := Issue(obs, obs.detail, now, false)], ids + [ident];
      }
      open := open[ident := open[ident].(detail := obs.detail)];
      report := [];
      if !open[ident].reported && now - open[ident].firstSeen >= Grace(obs.kind) {
        open := open[ident := open[ident].(reported := true)];
        report := [Report(ident, open[ident], Round(now - open[ident].firstSeen))];
      }
    }

    // Pops every issue that was not seen, in the order of the table.
    method Resolve(seenNow: set<string>, now: real) returns (resolved: seq<Resolution>)
      requires Lists(ids, open)
      modifies `open, `ids
      ensures open == StillOpen(old(open), seenNow) && ids == Kept(old(ids), seenNow) && Lists(ids, open)
      ensures resolved == ResolvedIn(Gone(old(ids), seenNow), old(open), now)
    {
      KeptListsTable(ids, open, seenNow);
      SplitKeepsDistinct(ids, seenNow);
      var gone := Gone(ids, seenNow);
      assert forall id :: id in gone ==> id in Elements(ids);
      ids := Kept(ids, seenNow);
      resolved := PopAll(gone, now);
    }

    method PopAll(gone: seq<string>, now: real) returns (resolved: seq<Resolution>)
      requires NoRepeats(gone) && forall id :: id in gone ==> id in open
      modifies `open
      ensures open == old(open) - Elements(gone) && resolved == ResolvedIn(gone, old(open), now)
    {
      resolved := [];
      for i := 0 to |gone|
        invariant open == Popped(old(open), gone, i) && resolved == ResolvedIn(gone[..i], old(open), now)
      {
        NextIsThere(gone, old(open), i);
        assert gone[..i + 1][..i] == gone[..i];
        var resolution := Pop(gone[i], now);
        resolved := resolved + resolution;
      }
      assert gone[..|gone|] == gone;
    }

    // One issue popped, and its resolution, if it was reported.
    method Pop(ident: string, now: real) returns (resolution: seq<Resolution>)
      requires ident in open
      modifies `open
      ensures open == old(open) - {ident}
      ensures resolution == if old(open)[ident].reported then [ResolutionOf(old(open), ident, now)] else []
    {
      var issue := open[ident];
      open := open - {ident};
      resolution := if issue.reported then [Resolution(ident, issue, Round(now - issue.firstSeen))] else [];
    }
  }
}
