/**
  The URL and the page's state, each able to change the other: a reader effect that takes URL
  changes from outside into the state, and a writer effect that mirrors the state into the URL.
  A commit runs both, in that order, on what was rendered; what they set shows in the next commit.
 */
module SearchSync {
  import opened Wrappers

  // What a page does: `apply` takes a search string into a state, `write` is the search string of
  // a state.
  datatype Rules<!S> = Rules(apply: (S, string) -> S, write: S -> string)

  datatype Shown<S> = Shown(url: string, state: S)

  // A write of the writer effect: from which state, over which URL, and whether that URL was one
  // nobody had taken over yet.
  datatype Write<S> = Write(from: S, over: string, search: string, outside: bool)

  // `url` and `state` are what the next render shows, `shown` what the last commit rendered,
  // `synced` and `skip` the hook's two refs, `writes` the writes so far.
  datatype Page<S> = Page(url: string, state: S, shown: Option<Shown<S>>, synced: string, skip: bool,
                          writes: seq<Write<S>>) {
    predicate UrlChanged() {
      shown.None? || shown.value.url != url
    }
  }

  function Mounted<S>(url: string, state: S): Page<S> {
    Page(url, state, None, url, false, [])
  }

  predicate Settled<S(==)>(p: Page<S>) {
    p.shown == Some(Shown(p.url, p.state))
  }

  // ---------- One commit ----------

  predicate Outside<S>(p: Page<S>) {
    p.UrlChanged() && p.url != p.synced
  }

  function AfterReader<S>(rules: Rules<S>, p: Page<S>): Page<S> {
    if Outside(p) then p.(synced := p.url, skip := true, state := rules.apply(p.state, p.url)) else p
  }

  // The writer saw what `before` rendered.
  function AfterWriter<S>(rules: Rules<S>, before: Page<S>, p: Page<S>): Page<S> {
    if p.skip then p.(skip := false) else
      var next := rules.write(before.state);
      if next == before.url then p
      else p.(synced := next, url := next,
              writes := p.writes + [Write(before.state, before.url, next, Outside(before))])
  }

  function Committed<S>(rules: Rules<S>, p: Page<S>): Page<S> {
    AfterWriter(rules, p, AfterReader(rules, p)).(shown := Some(Shown(p.url, p.state)))
  }

  // Nothing is rendered when nothing changed.
  function Commit<S(==)>(rules: Rules<S>, p: Page<S>): Page<S> {
    if Settled(p) then p else Committed(rules, p)
  }

  // ---------- Runs ----------

  datatype Event<S> = Navigate(url: string) | Edit(state: S) | Render

  function Step<S(==)>(rules: Rules<S>, p: Page<S>, e: Event<S>): Page<S> {
    match e
    case Navigate(url) => p.(url := url)
    case Edit(state) => p.(state := state)
    case Render => Commit(rules, p)
  }

  function Run<S(==)>(rules: Rules<S>, p: Page<S>, events: seq<Event<S>>): Page<S> {
    if events == [] then p else Step(rules, Run(rules, p, events[..|events| - 1]), events[|events| - 1])
  }

  function Commits<S(==)>(rules: Rules<S>, p: Page<S>, n: nat): Page<S> {
    if n == 0 then p else Commit(rules, Commits(rules, p, n - 1))
  }

  // ---------- The page itself ----------

  class Handshake<S(==)> {
    const rules: Rules<S>
    var searchParams: string
    var state: S
    var shown: Option<Shown<S>>
    var syncedRef: string
    var skipNextWriteRef: bool
    ghost var writes: seq<Write<S>>

    ghost function View(): Page<S>
      reads this
    {
      Page(searchParams, state, shown, syncedRef, skipNextWriteRef, writes)
    }

    constructor (rules: Rules<S>, searchParams: string, state: S)
      ensures this.rules == rules && View() == Mounted(searchParams, state)
    {
      this.rules := rules;
      this.searchParams, this.state, shown := searchParams, state, None;
      syncedRef, skipNextWriteRef, writes := searchParams, false, [];
    }

    method Render()
      modifies this
      ensures View() == Commit(rules, old(View()))
    {
      var url, was := searchParams, state;
      if shown == Some(Shown(url, was)) {
        return;
      }
      if shown.None? || shown.value.url != url {
        Reader(url, was);
      }
      Writer(url, was, old(Outside(View())));
      shown := Some(Shown(url, was));
    }

    method Reader(current: string, rendered: S)
      modifies `syncedRef, `skipNextWriteRef, `state
      ensures if current == old(syncedRef) then
                syncedRef == old(syncedRef) && skipNextWriteRef == old(skipNextWriteRef) && state == old(state)
              else syncedRef == current && skipNextWriteRef && state == rules.apply(rendered, current)
    {
      if current == syncedRef {
        return;
      }
      syncedRef := current;
      skipNextWriteRef := true;
      state := rules.apply(rendered, current);
    }

    method ShouldWrite() returns (write: bool)
      modifies `skipNextWriteRef
      ensures write == !old(skipNextWriteRef) && !skipNextWriteRef
    {
      write := !skipNextWriteRef;
      skipNextWriteRef := false;
    }

    method MarkWritten(search: string)
      modifies `syncedRef
      ensures syncedRef == search
    {
      syncedRef := search;
    }

    method Writer(current: string, rendered: S, ghost outside: bool)
      modifies `skipNextWriteRef, `syncedRef, `searchParams, `writes
      ensures !skipNextWriteRef
      ensures var next := rules.write(rendered);
              if old(skipNextWriteRef) || next == current then
                syncedRef == old(syncedRef) && searchParams == old(searchParams) && writes == old(writes)
              else
                syncedRef == next && searchParams == next &&
                writes == old(writes) + [Write(rendered, current, next, outside)]
    {
      var write := ShouldWrite();
      if !write {
        return;
      }
      var next := rules.write(rendered);
      if next != current {
        MarkWritten(next);
        searchParams := next;
        writes := writes + [Write(rendered, current, next, outside)];
      }
    }
  }

  // ---------- Over every run ----------

  // No write is held back beyond the commit that took over an outside change, and no write was
  // ever made over a URL that nobody had taken over: never from the state before the change.
  lemma {:induction false} NeverWritesOverALink<S>(rules: Rules<S>, url: string, state: S, events: seq<Event<S>>)
    ensures var p := Run(rules, Mounted(url, state), events);
            !p.skip && forall i :: 0 <= i < |p.writes| ==> !p.writes[i].outside
  {
    if events == [] {
    } else {
      NeverWritesOverALink(rules, url, state, events[..|events| - 1]);
    }
  }

  // From wherever a run has got, three commits without further input settle the page, and at most
  // one write is made in them. An outside change is applied, and the one write is made from the
  // state it was applied to; the URL stays the outside one when applying it changed nothing.
  lemma {:induction false} SettlesInThreeCommits<S>(rules: Rules<S>, p: Page<S>)
    requires !p.skip && !Settled(p)
    ensures var after := Commits(rules, p, 3);
            var state := if Outside(p) then rules.apply(p.state, p.url) else p.state;
            && Settled(after) && after.state == state && !after.skip
            && after.url == (if Outside(p) && state == p.state then p.url else rules.write(state))
            && after.writes == p.writes + if after.url == p.url then [] else [Write(state, p.url, after.url, false)]
  {
    var one := Commit(rules, p);
    var two := Commit(rules, one);
    var three := Commit(rules, two);
    assert Commits(rules, p, 1) == Commit(rules, Commits(rules, p, 0)) == one;
    assert Commits(rules, p, 2) == two;
    assert Commits(rules, p, 3) == three;
  }

  // ---------- Which links are followed ----------

  // A write of the page's own, not rendered yet.
  predicate OwnWritePending<S>(p: Page<S>) {
    p.UrlChanged() && p.url == p.synced
  }

  // The page after its first commit.
  function Opened<S(==)>(rules: Rules<S>, url: string, state: S): Page<S> {
    Commit(rules, Mounted(url, state))
  }

  // A link away from the page, and not to what the page is writing itself, that is not taken over.
  predicate Missed<S>(p: Page<S>, link: string)
    requires p.shown.Some?
  {
    link != p.shown.value.url && !(OwnWritePending(p) && link == p.url) && !Outside(p.(url := link))
  }

  // The URL the hook holds for the page's own is neither on the page nor on its way there.
  predicate OutOfStep<S>(p: Page<S>) {
    p.shown.Some? && p.synced != p.shown.value.url && p.synced != p.url
  }

  lemma MissesExactly<S>(p: Page<S>)
    requires p.shown.Some?
    ensures (exists link :: Missed(p, link)) <==> OutOfStep(p)
    ensures forall link :: Missed(p, link) ==> link == p.synced
  {
    if OutOfStep(p) {
      assert Missed(p, p.synced);
    }
  }

  // A commit with a new state whose search string is not the URL.
  predicate Writes<S(==)>(rules: Rules<S>, p: Page<S>) {
    p.shown.Some? && p.shown.value.url == p.url && p.shown.value.state != p.state && rules.write(p.state) != p.url
  }

  // Step is lost exactly by a navigation elsewhere that overtakes the page's own write.
  predicate Loses<S>(p: Page<S>, e: Event<S>) {
    OwnWritePending(p) && e.Navigate? && e.url != p.url
  }

  // It is regained exactly by the missed link, by rendering an outside URL, or by a new write.
  predicate Regains<S(==)>(rules: Rules<S>, p: Page<S>, e: Event<S>) {
    e == Navigate(p.synced) || (e.Render? && (Outside(p) || Writes(rules, p)))
  }

  lemma StepExactly<S>(rules: Rules<S>, p: Page<S>, e: Event<S>)
    requires p.shown.Some? && !p.skip
    ensures Step(rules, p, e).shown.Some? && !Step(rules, p, e).skip
    ensures OutOfStep(Step(rules, p, e)) <==> if OutOfStep(p) then !Regains(rules, p, e) else Loses(p, e)
  {
  }

  // Whether a run has lost step and not regained it.
  predicate Lost<S(==)>(rules: Rules<S>, p: Page<S>, events: seq<Event<S>>) {
    if events == [] then false else
      var before, e := events[..|events| - 1], events[|events| - 1];
      if Lost(rules, p, before) then !Regains(rules, Run(rules, p, before), e) else Loses(Run(rules, p, before), e)
  }

  lemma {:induction false} LostExactly<S>(rules: Rules<S>, url: string, state: S, events: seq<Event<S>>)
    ensures var p := Run(rules, Opened(rules, url, state), events);
            p.shown.Some? && !p.skip && (OutOfStep(p) <==> Lost(rules, Opened(rules, url, state), events))
  {
    if events == [] {
    } else {
      var init := events[..|events| - 1];
      LostExactly(rules, url, state, init);
      StepExactly(rules, Run(rules, Opened(rules, url, state), init), events[|events| - 1]);
    }
  }

  // After every run a link is taken over, and three commits later the page is settled in the state
  // it gives, exactly when it leads away from the URL shown and is not the URL the hook holds for
  // the page's own; else it changes no state. Some link is missed that way exactly when the run has
  // lost step and not regained it.
  lemma {:induction false} LinksAreFollowed<S>(rules: Rules<S>, url: string, state: S, events: seq<Event<S>>,
                                               link: string)
    ensures var p := Run(rules, Opened(rules, url, state), events);
            var q := p.(url := link);
            && p.shown.Some?
            && (Outside(q) <==> link != p.shown.value.url && link != p.synced)
            && Commits(rules, q, 3).state == (if Outside(q) then rules.apply(p.state, link) else p.state)
            && Settled(Commits(rules, q, 3))
            && ((exists missed :: Missed(p, missed)) <==> Lost(rules, Opened(rules, url, state), events))
  {
    LostExactly(rules, url, state, events);
    var p := Run(rules, Opened(rules, url, state), events);
    MissesExactly(p);
    var q := p.(url := link);
    if Settled(q) {
      SettledStays(rules, q);
    } else {
      SettlesInThreeCommits(rules, q);
    }
  }

  lemma {:induction false} SettledStays<S>(rules: Rules<S>, p: Page<S>)
    requires Settled(p)
    ensures Commits(rules, p, 3) == p
  {
    assert Commits(rules, p, 1) == Commit(rules, Commits(rules, p, 0)) == p;
    assert Commits(rules, p, 2) == p;
  }

  // A missed link can do nothing at all: on a settled page that mirrors its URL, edit, go back
  // before the write is rendered, undo the edit, and follow a link to the URL that was written.
  lemma {:induction false} MissedLinkDoesNothing<S>(rules: Rules<S>, p: Page<S>, edited: S)
    requires Settled(p) && !p.skip && p.synced == p.url == rules.write(p.state)
    requires rules.write(edited) != p.url
    ensures var written := Commit(rules, p.(state := edited));
            var back := Commit(rules, written.(url := p.url, state := p.state));
            var after := Commits(rules, back.(url := rules.write(edited)), 3);
            && written.url == rules.write(edited) && OwnWritePending(written) && Settled(back)
            && Missed(back, rules.write(edited)) && Settled(after) && after.url == p.url && after.state == p.state
  {
    var written := Commit(rules, p.(state := edited));
    var back := Commit(rules, written.(url := p.url, state := p.state));
    assert edited != p.state;
    SettlesInThreeCommits(rules, back.(url := rules.write(edited)));
  }

  // ---------- Why the hook is there: the two failures it is written against ----------

  // Only the writer: no URL change reaches the state.
  function WriterOnly<S(==)>(rules: Rules<S>, p: Page<S>): Page<S> {
    if Settled(p) then p else
      p.(shown := Some(Shown(p.url, p.state)), url := rules.write(p.state))
  }

  // Both, without the two refs: the writer still sees the state from before the change.
  function BothFreely<S(==)>(rules: Rules<S>, p: Page<S>): Page<S> {
    if Settled(p) then p else
      p.(shown := Some(Shown(p.url, p.state)), url := rules.write(p.state),
         state := if p.UrlChanged() then rules.apply(p.state, p.url) else p.state)
  }

  function Freely<S(==)>(rules: Rules<S>, p: Page<S>, n: nat): Page<S> {
    if n == 0 then p else BothFreely(rules, Freely(rules, p, n - 1))
  }

  // The writer alone puts the old URL straight back.
  lemma WriterOnlyUndoesLinks<S>(rules: Rules<S>, p: Page<S>, link: string)
    requires Settled(p) && p.url == rules.write(p.state) && link != p.url
    ensures var after := WriterOnly(rules, WriterOnly(rules, p.(url := link)));
            Settled(after) && after.url == p.url && after.state == p.state
  {
  }

  // Both without the refs never settle: on a settled page whose state mirrors its URL, a link to
  // another state's URL makes the two change places at every commit.
  lemma {:induction false} FlipsForever<S>(rules: Rules<S>, p: Page<S>, other: S, n: nat)
    requires Settled(p) && p.url == rules.write(p.state) && rules.write(other) != p.url
    requires forall s, t :: rules.apply(s, rules.write(t)) == t
    ensures var q := Freely(rules, p.(url := rules.write(other)), n);
            && !Settled(q) && q.shown.Some? && q.UrlChanged()
            && if n % 2 == 0 then q.url == rules.write(other) && q.state == p.state
               else q.url == p.url && q.state == other
  {
    if n == 0 {
    } else {
      FlipsForever(rules, p, other, n - 1);
    }
  }
}
