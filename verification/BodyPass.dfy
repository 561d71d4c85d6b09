/** One pass through the body of an iteration or a loop, as turns of the scheduler.

    The body is a chain: the item node leads to the first component, each component to
    the next, and the last one back to the item node. */
module BodyPass {
  import opened Workflow
  import opened Scheduler
  import opened SchedulerSafety

  /** Turns compose. */
  lemma {:induction false} AfterAdds<W>(g: Graph, env: Env<W>, s: State<W>, idx: nat, a: nat, b: nat)
    requires WellFormed(g) && idx <= |s.path| && Known(g, s.path)
    requires After(g, env, s, idx, a).Next?
    ensures var r := After(g, env, s, idx, a);
            After(g, env, s, idx, a + b) == After(g, env, r.st, r.idx, b)
    decreases a
  {
    hide Round, Known, WellFormed, NamesFillUp, Close;
    if a > 0 {
      var r := Round(g, env, s, idx, false);
      AfterAdds(g, env, r.st, r.idx, a - 1, b);
    }
  }

  /** After `n` turns the run stands at `path`, with everything before `at` done, in world `w`. */
  ghost predicate Arrives<W>(g: Graph, env: Env<W>, s: State<W>, idx: nat, n: nat, path: seq<Id>, at: nat, w: W) {
    WellFormed(g) && idx <= |s.path| && Known(g, s.path) &&
    var r := After(g, env, s, idx, n);
    r.Next? && r.idx == at && r.st.path == path && r.st.world == w && r.st.error.NoError?
  }

  lemma ArrivesLater<W>(
    g: Graph, env: Env<W>, s: State<W>, idx: nat, n: nat, m: nat, path: seq<Id>, at: nat, w: W)
    requires WellFormed(g) && idx <= |s.path| && Known(g, s.path) && After(g, env, s, idx, n).Next?
    requires var a := After(g, env, s, idx, n); Arrives(g, env, a.st, a.idx, m, path, at, w)
    ensures Arrives(g, env, s, idx, n + m, path, at, w)
  {
    hide After, WellFormed, Known;
    AfterAdds(g, env, s, idx, n, m);
  }

  /** The path ends in `x`, the only pending entry. */
  predicate Pending<W>(g: Graph, s: State<W>, front: seq<Id>, x: Id) {
    WellFormed(g) && Known(g, s.path) && s.error.NoError? && s.path == front + [x]
  }

  /** `x` ran and left neither an error nor an open stream, and goes on to `ids`. */
  predicate MovesOn<W>(g: Graph, env: Env<W>, s: State<W>, x: Id, ids: seq<Id>)
    requires WellFormed(g) && x in g.nodes
  {
    var v := env.view(env.batch(s.world, [x]), x);
    && !g.nodes[x].kind.Message?
    && v.error.NoError? && !v.streaming && (g.nodes[x].kind.IsItem() ==> !v.ends.Raises?)
    && Successors(g, x, v) == Some(ids)
    && Known(g, ids) && (forall y <- ids :: !IsFillUp(g, y))
  }

  /** A turn with a single pending entry. */
  lemma SoloTurn<W>(g: Graph, env: Env<W>, s: State<W>, front: seq<Id>, x: Id, ids: seq<Id>)
    requires Pending(g, s, front, x) && x in g.nodes && Ready(g, front, x)
    requires MovesOn(g, env, s, x, ids)
    ensures var r := After(g, env, s, |front|, 1);
            && r.Next? && r.idx == |front| + 1
            && r.st.path == ExtendIds(s.path, ids)
            && r.st.world == env.settle(env.batch(s.world, [x]), x, false)
            && r.st.error.NoError? && Known(g, r.st.path)
  {
    hide Round, NamesFillUp, WellFormed, MovesOn;
    SoloRound(g, env, s, front, x, ids);
    var r := Round(g, env, s, |front|, false);
    assert After(g, env, r.st, r.idx, 0) == r;
  }

  lemma SoloRound<W>(g: Graph, env: Env<W>, s: State<W>, front: seq<Id>, x: Id, ids: seq<Id>)
    requires Pending(g, s, front, x) && x in g.nodes && Ready(g, front, x)
    requires MovesOn(g, env, s, x, ids)
    ensures var r := Round(g, env, s, |front|, false);
            && r.Next? && r.idx == |front| + 1
            && r.st.path == ExtendIds(s.path, ids)
            && r.st.world == env.settle(env.batch(s.world, [x]), x, false)
            && r.st.error.NoError? && Known(g, r.st.path)
  {
    hide NamesFillUp, WellFormed, PostProcess, Ready, Kept;
    var idx := |front|;
    var s2 := RunBatch(g, env, Announce(s, idx), idx);
    SoloBatch(g, env, Announce(s, idx), front, x);
    assert s2.path[..idx + 1] == s2.path;
    SoloPostProcess(g, env, s2, front, x, ids);
    var t := PostProcess(g, env, s2, x).st;
    hide RunBatch;
    assert PostProcessAll(g, env, t, idx + 1, idx + 1) == Done(t);
    assert PostProcessAll(g, env, s2, idx, idx + 1) == Done(t);
    ExtensionIsKnown(g, s.path, ids);
  }

  lemma SoloBatch<W>(g: Graph, env: Env<W>, s: State<W>, front: seq<Id>, x: Id)
    requires s.path == front + [x] && Known(g, s.path) && x in g.nodes && Ready(g, front, x)
    ensures RunBatch(g, env, s, |front|) == s.(world := env.batch(s.world, [x]))
  {
    hide Ready;
    assert s.path[..|front|] == front && s.path[|front|..] == [x];
    assert Kept(g, front + [x], [x][1..]) == front + [x];
    assert (front + [x])[|front|..] == [x];
  }

  lemma SoloPostProcess<W>(g: Graph, env: Env<W>, s: State<W>, front: seq<Id>, x: Id, ids: seq<Id>)
    requires WellFormed(g) && x in g.nodes && s.error.NoError? && s.path == front + [x]
    requires !g.nodes[x].kind.Message?
    requires var v := env.view(s.world, x);
             && v.error.NoError? && !v.streaming && (g.nodes[x].kind.IsItem() ==> !v.ends.Raises?)
             && Successors(g, x, v) == Some(ids)
    ensures var r := PostProcess(g, env, s, x);
            && r.Done? && r.st.path == ExtendIds(s.path, ids) && r.st.error.NoError?
            && r.st.world == env.settle(s.world, x, false)
  {
    hide NamesFillUp, WellFormed;
  }

  lemma ExtensionIsKnown(g: Graph, path: seq<Id>, ids: seq<Id>)
    requires path != [] && Known(g, path) && Known(g, ids)
    ensures Known(g, ExtendIds(path, ids))
    ensures forall y | y in ExtendIds(path, ids)[|path|..] :: y in ids
  {
    hide ExtendIds, NoRepeats;
    TargetsAreQueued(path, ids);
    var e, n := ExtendIds(path, ids), |path|;
    forall y | y in e[n..] ensures y in ids {
      var k :| 0 <= k < |e[n..]| && e[n..][k] == y;
      assert e[n - 1..][k + 1] == y;
    }
    assert e == path + e[n..];
  }

  // ---------- A chain body ----------

  /** `item` and `cs` make up the body of `container`. */
  predicate IsChain(g: Graph, container: Id, item: Id, cs: seq<Id>)
    requires WellFormed(g)
  {
    && container in g.nodes && g.nodes[container].kind.IsContainer()
    && item in g.nodes && g.nodes[item].kind.IsItem() && g.nodes[item].parent == Some(container)
    && Start(g, container) == item
    && cs != [] && g.nodes[item].downstream == [cs[0]]
    && (forall j | 0 <= j < |cs| ::
         && cs[j] in g.nodes && g.nodes[cs[j]].kind.Other? && g.nodes[cs[j]].parent == Some(container)
         && g.nodes[cs[j]].downstream == (if j + 1 < |cs| then [cs[j + 1]] else [])
         && (j + 1 < |cs| ==> cs[j] != cs[j + 1]))
  }

  /** Body components only refer to what precedes them: `base`, the item, earlier ones. */
  predicate DependsBackwards(g: Graph, base: seq<Id>, item: Id, cs: seq<Id>) {
    && item in g.nodes && (forall r <- g.nodes[item].refs :: r in base)
    && forall j | 0 <= j < |cs| :: cs[j] in g.nodes && forall r <- g.nodes[cs[j]].refs :: r in base + [item] + cs[..j]
  }

  /** Running the chain, one component after the other. */
  function ChainWorld<W>(env: Env<W>, w: W, cs: seq<Id>): W {
    if cs == [] then w else ChainWorld(env, env.settle(env.batch(w, [cs[0]]), cs[0], false), cs[1..])
  }

  predicate Calm(v: View) { v.error.NoError? && !v.streaming }

  ghost predicate CalmBody<W(!new)>(env: Env<W>, cs: seq<Id>) {
    forall w: W, c | c in cs :: Calm(env.view(env.batch(w, [c]), c))
  }

  lemma ChainReady(g: Graph, base: seq<Id>, item: Id, cs: seq<Id>, front: seq<Id>, j: nat)
    requires j < |cs| && DependsBackwards(g, base, item, cs)
    requires forall x <- base + [item] + cs[..j] :: x in front
    ensures cs[j] in g.nodes && Ready(g, front, cs[j])
  {
  }

  lemma ExtendOne(path: seq<Id>, x: Id)
    requires path != []
    ensures ExtendIds(path, [x]) == AppendId(path, x)
  {
    assert ExtendIds(AppendId(path, x), [x][1..]) == AppendId(path, x);
  }

  /** From one body component through the rest of the chain, back to the item node. */
  lemma {:induction false} ChainPass<W(!new)>(
    g: Graph, env: Env<W>, container: Id, item: Id, cs: seq<Id>, base: seq<Id>, s: State<W>, front: seq<Id>, j: nat)
    requires j < |cs| && Pending(g, s, front, cs[j])
    requires IsChain(g, container, item, cs) && DependsBackwards(g, base, item, cs) && CalmBody(env, cs)
    requires forall x <- base + [item] + cs[..j] :: x in front
    ensures var r := After(g, env, s, |front|, |cs| - j);
            && r.Next? && r.idx == |front| + |cs| - j
            && Pending(g, r.st, front + cs[j..], item)
            && r.st.world == ChainWorld(env, s.world, cs[j..])
    decreases |cs| - j
  {
    hide WellFormed, NamesFillUp, IsChain, CalmBody, DependsBackwards, After, Start, IsFillUp, Known;
    var c := cs[j];
    ChainTurn(g, env, container, item, cs, base, s, front, j);
    var r := After(g, env, s, |front|, 1);
    assert cs[j..] == [c] + cs[j + 1..];
    if j + 1 < |cs| {
      BeforeGrows(base + [item], cs, front, j);
      ChainPass(g, env, container, item, cs, base, r.st, front + [c], j + 1);
      AfterAdds(g, env, s, |front|, 1, |cs| - j - 1);
      assert front + [c] + cs[j + 1..] == front + cs[j..];
    } else {
      assert cs[j + 1..] == [];
    }
  }

  lemma BeforeGrows(base: seq<Id>, cs: seq<Id>, front: seq<Id>, j: nat)
    requires j < |cs| && forall x <- base + cs[..j] :: x in front
    ensures forall x <- base + cs[..j + 1] :: x in front + [cs[j]]
  {
    assert cs[..j + 1] == cs[..j] + [cs[j]];
  }

  /** One body component, on its own. */
  lemma ChainTurn<W(!new)>(
    g: Graph, env: Env<W>, container: Id, item: Id, cs: seq<Id>, base: seq<Id>, s: State<W>, front: seq<Id>, j: nat)
    requires j < |cs| && Pending(g, s, front, cs[j])
    requires IsChain(g, container, item, cs) && DependsBackwards(g, base, item, cs) && CalmBody(env, cs)
    requires forall x <- base + [item] + cs[..j] :: x in front
    ensures var r := After(g, env, s, |front|, 1);
            && r.Next? && r.idx == |front| + 1
            && Pending(g, r.st, front + [cs[j]], if j + 1 < |cs| then cs[j + 1] else item)
            && r.st.world == env.settle(env.batch(s.world, [cs[j]]), cs[j], false)
  {
    hide WellFormed, NamesFillUp, IsChain, CalmBody, After, Start, MovesOn;
    var next := if j + 1 < |cs| then cs[j + 1] else item;
    ChainReady(g, base, item, cs, front, j);
    hide Ready, DependsBackwards;
    ChainStep(g, env, container, item, cs, s, j);
    SoloTurn(g, env, s, front, cs[j], [next]);
    ExtendOne(s.path, next);
  }

  lemma ChainStep<W(!new)>(g: Graph, env: Env<W>, container: Id, item: Id, cs: seq<Id>, s: State<W>, j: nat)
    requires WellFormed(g) && j < |cs| && IsChain(g, container, item, cs) && CalmBody(env, cs)
    ensures var next := if j + 1 < |cs| then cs[j + 1] else item;
            MovesOn(g, env, s, cs[j], [next]) && next != cs[j]
  {
    hide WellFormed, NamesFillUp, StartIn;
    var c := cs[j];
    var n := g.nodes[c];
    var v := env.view(env.batch(s.world, [c]), c);
    assert Calm(v) by {
      assert c in cs;
    }
    assert n.kind.Other?;
    if j + 1 < |cs| {
      assert cs[j + 1] in g.nodes && g.nodes[cs[j + 1]].kind.Other?;
      assert Successors(g, c, v) == Some([cs[j + 1]]);
    } else {
      assert Successors(g, c, v) == Some([item]);
    }
  }

  /** The item node lets one more element in: after |cs| + 1 turns the body has been
      walked once and the item node is pending again. */
  lemma ItemPass<W(!new)>(
    g: Graph, env: Env<W>, container: Id, item: Id, cs: seq<Id>, base: seq<Id>, s: State<W>, front: seq<Id>)
    requires Pending(g, s, front, item)
    requires IsChain(g, container, item, cs) && DependsBackwards(g, base, item, cs) && CalmBody(env, cs)
    requires forall x <- base :: x in front
    requires var v := env.view(env.batch(s.world, [item]), item); Calm(v) && v.ends.No?
    ensures var r := After(g, env, s, |front|, |cs| + 1);
            && r.Next? && r.idx == |front| + |cs| + 1
            && Pending(g, r.st, front + [item] + cs, item)
            && r.st.world == ChainWorld(env, env.settle(env.batch(s.world, [item]), item, false), cs)
  {
    hide WellFormed, Start, After, IsFillUp, Known, IsChain, CalmBody, DependsBackwards, Pending, Calm, ChainWorld;
    ItemTurn(g, env, container, item, cs, base, s, front);
    var r := After(g, env, s, |front|, 1);
    Nearby(base, item, cs, front);
    ChainPass(g, env, container, item, cs, base, r.st, front + [item], 0);
    AfterAdds(g, env, s, |front|, 1, |cs|);
  }

  lemma Nearby(base: seq<Id>, item: Id, cs: seq<Id>, front: seq<Id>)
    requires forall x <- base :: x in front
    ensures cs[0..] == cs && forall x <- base + [item] + cs[..0] :: x in front + [item]
  {
  }

  /** The item node, on its own. */
  lemma ItemTurn<W(!new)>(
    g: Graph, env: Env<W>, container: Id, item: Id, cs: seq<Id>, base: seq<Id>, s: State<W>, front: seq<Id>)
    requires Pending(g, s, front, item)
    requires IsChain(g, container, item, cs) && DependsBackwards(g, base, item, cs) && CalmBody(env, cs)
    requires forall x <- base :: x in front
    requires var v := env.view(env.batch(s.world, [item]), item); Calm(v) && v.ends.No?
    ensures WellFormed(g) && |front| <= |s.path| && Known(g, s.path)
    ensures var r := After(g, env, s, |front|, 1);
            && r.Next? && r.idx == |front| + 1
            && cs != [] && Pending(g, r.st, front + [item], cs[0])
            && r.st.world == env.settle(env.batch(s.world, [item]), item, false)
  {
    hide WellFormed, NamesFillUp, Start, After, MovesOn, IsFillUp, Known;
    ItemMovesOn(g, env, container, item, cs, s);
    ItemReady(g, base, item, cs, front);
    hide CalmBody, Ready, DependsBackwards;
    SoloTurn(g, env, s, front, item, [cs[0]]);
    ExtendOne(s.path, cs[0]);
    NextIsPending(g, s, front, item, After(g, env, s, |front|, 1).st, cs[0]);
  }

  lemma NextIsPending<W>(g: Graph, s: State<W>, front: seq<Id>, x: Id, t: State<W>, y: Id)
    requires Pending(g, s, front, x) && x != y
    requires Known(g, t.path) && t.error.NoError? && t.path == AppendId(s.path, y)
    ensures Pending(g, t, front + [x], y)
  {
  }

  lemma ItemReady(g: Graph, base: seq<Id>, item: Id, cs: seq<Id>, front: seq<Id>)
    requires DependsBackwards(g, base, item, cs) && forall x <- base :: x in front
    ensures item in g.nodes && Ready(g, front, item)
  {
  }

  lemma ItemMovesOn<W(!new)>(g: Graph, env: Env<W>, container: Id, item: Id, cs: seq<Id>, s: State<W>)
    requires WellFormed(g) && IsChain(g, container, item, cs)
    requires var v := env.view(env.batch(s.world, [item]), item); Calm(v) && v.ends.No?
    ensures cs[0] in g.nodes && cs[0] != item && MovesOn(g, env, s, item, [cs[0]])
  {
    hide WellFormed, NamesFillUp, StartIn;
  }

  /** The item node says it is over: control goes on to what follows the container. */
  lemma ItemEndsPass<W>(g: Graph, env: Env<W>, container: Id, item: Id, s: State<W>, front: seq<Id>)
    requires Pending(g, s, front, item) && LeadsOn(g, container)
    requires g.nodes[item].kind.IsItem() && g.nodes[item].parent == Some(container) && Ready(g, front, item)
    requires var v := env.view(env.batch(s.world, [item]), item); Calm(v) && v.ends.Yes?
    ensures var r := After(g, env, s, |front|, 1);
            && r.Next? && r.idx == |front| + 1
            && r.st.path == ExtendIds(front + [item], g.nodes[container].downstream) && r.st.error.NoError?
            && r.st.world == env.settle(env.batch(s.world, [item]), item, false)
  {
    hide WellFormed, Round, NamesFillUp, Start;
    SoloTurn(g, env, s, front, item, g.nodes[container].downstream);
  }

  // ---------- Bodies that are not entered ----------

  predicate NoneReady(g: Graph, before: seq<Id>, ids: seq<Id>) {
    forall y <- ids :: y in g.nodes ==> !Ready(g, before, y)
  }

  lemma {:induction false} NothingKept(g: Graph, before: seq<Id>, pending: seq<Id>)
    requires Known(g, pending)
    ensures Kept(g, before, pending) == before <==> NoneReady(g, before, pending)
    decreases |pending|
  {
    hide Ready;
    if pending != [] {
      assert forall y <- pending :: y == pending[0] || y in pending[1..];
      assert pending[0] in pending && forall y <- pending[1..] :: y in pending;
      if Ready(g, before, pending[0]) {
        assert before + [pending[0]] <= Kept(g, before, pending);
      } else {
        NothingKept(g, before, pending[1..]);
      }
    }
  }

  /** A turn whose pending entries are all dropped leaves nothing pending. */
  lemma EmptyTurn<W>(g: Graph, env: Env<W>, s: State<W>, front: seq<Id>, pending: seq<Id>)
    requires WellFormed(g) && Known(g, s.path) && s.error.NoError? && s.path == front + pending
    requires NoneReady(g, front, pending)
    ensures var r := Round(g, env, s, |front|, false);
            r.Next? && r.idx == |front| && r.st.path == front && r.st.error.NoError?
  {
    hide Ready, NoneReady, WellFormed, NamesFillUp;
    KnownSlice(g, s.path, |front|);
    assert s.path[..|front|] == front && s.path[|front|..] == pending;
    NothingKept(g, front, pending);
    RoundIs(g, env, s, |front|);
    assert front[|front|..] == [];
  }

  /** A turn that keeps one of its pending entries moves the frontier, for the rest of the run. */
  lemma KeptEntriesStay<W>(g: Graph, env: Env<W>, s: State<W>, front: seq<Id>, pending: seq<Id>, budget: nat)
    requires WellFormed(g) && Known(g, s.path) && s.error.NoError? && s.path == front + pending && front != []
    requires pending != [] && !NoneReady(g, front, pending) && budget > 0
    ensures var e := RunFrom(g, env, s, |front|, budget);
            e.Finished? ==> |e.st.path| > |front|
  {
    hide Ready, NoneReady, WellFormed, NamesFillUp, Round, Processed;
    KnownSlice(g, s.path, |front|);
    assert s.path[..|front|] == front && s.path[|front|..] == pending;
    NothingKept(g, front, pending);
    RoundIs(g, env, s, |front|);
    var r := Round(g, env, s, |front|, false);
    if r.Next? {
      assert r.idx > |front|;
      FinishCommitsEverything(g, env, r.st, r.idx, budget - 1);
    }
  }

  /**
   * A component that is pending alone ends the run, which reports itself finished, if and only
   * if none of the targets it queues is ready behind it. Targets that are not ready are dropped,
   * and a target that is the component itself is not queued.
   */
  lemma LoneEntryEndsTheRun<W>(
    g: Graph, env: Env<W>, s: State<W>, front: seq<Id>, x: Id, ids: seq<Id>, budget: nat)
    requires Pending(g, s, front, x) && x in g.nodes && Ready(g, front, x)
    requires MovesOn(g, env, s, x, ids) && budget > 0 && (budget > 1 || NoRepeats(x, ids) == [])
    ensures var e := RunFrom(g, env, s, |front|, budget);
            (e.Finished? && e.st.path == front + [x]) <==> NoneReady(g, front + [x], NoRepeats(x, ids))
  {
    hide Ready, NoneReady, WellFormed, NamesFillUp, Round, MovesOn, Known, After;
    var done, queued := front + [x], NoRepeats(x, ids);
    SoloTurn(g, env, s, front, x, ids);
    RunUnrolls(g, env, s, |front|, 1, budget);
    var t := After(g, env, s, |front|, 1).st;
    ExtensionDropsRepeats(s.path, ids);
    assert t.path == done + queued;
    hide ExtendIds, NoRepeats, RunFrom;
    if queued == [] {
      assert t.path == done == t.path[..|done|];
      NothingIsReady(g, done);
    } else if NoneReady(g, done, queued) {
      EmptyTurn(g, env, t, done, queued);
      var u := Round(g, env, t, |done|, false).st;
      assert u.path[..|done|] == done;
    } else {
      KeptEntriesStay(g, env, t, done, queued, budget - 1);
    }
  }

  lemma NothingIsReady(g: Graph, before: seq<Id>)
    ensures NoneReady(g, before, [])
  {
  }

  // ---------- Errors of a lone entry ----------

  /** Post-processing `x` does not raise. */
  predicate Concludes(g: Graph, x: Id, v: View)
    requires WellFormed(g) && x in g.nodes
  {
    (g.nodes[x].kind.IsItem() ==> !v.ends.Raises?) && (TakesGoto(g.nodes[x], v) || Successors(g, x, v).Some?)
  }

  lemma LonePostProcess<W>(g: Graph, env: Env<W>, s: State<W>, front: seq<Id>, x: Id)
    requires WellFormed(g) && Known(g, s.path) && x in g.nodes && s.path == front + [x] && s.error.NoError?
    requires !g.nodes[x].kind.Message? && Concludes(g, x, env.view(s.world, x))
    ensures var end := |front| + 1; var v := env.view(s.world, x);
            && s.path[..end] == s.path && PostProcessAll(g, env, s, |front|, end).Done?
            && (LeavesError(g, env, s, |front|, end) <==> Unhandled(g.nodes[x], v))
            && (Unhandled(g.nodes[x], v) ==> PostProcessAll(g, env, s, |front|, end).st.error == v.error)
  {
    hide WellFormed, NamesFillUp, PostProcess, Unhandled, Concludes;
    var end := |front| + 1;
    assert s.path[..end] == s.path && s.path[|front|] == x;
    LoneConcludes(g, env, s, x);
    PostProcessErrs(g, env, s, x);
    var t := PostProcess(g, env, s, x).st;
    assert PostProcessAll(g, env, t, end, end) == Done(t);
  }

  lemma LoneConcludes<W>(g: Graph, env: Env<W>, s: State<W>, x: Id)
    requires WellFormed(g) && x in g.nodes && s.path != []
    requires !g.nodes[x].kind.Message? && Concludes(g, x, env.view(s.world, x))
    ensures PostProcess(g, env, s, x).Done? && Deliver(g, env, s, x) == s
  {
    hide WellFormed, NamesFillUp, ExtendIds, Held, Drainable, Successors;
  }

  /** A component that is pending alone and does not raise stops the run where it stood before if
      and only if it leaves an error that is not handled. */
  lemma LoneEntryStops<W>(g: Graph, env: Env<W>, s: State<W>, front: seq<Id>, x: Id, budget: nat)
    requires Pending(g, s, front, x) && x in g.nodes && Ready(g, front, x) && budget > 0
    requires !g.nodes[x].kind.Message? && Concludes(g, x, env.view(env.batch(s.world, [x]), x))
    ensures var v := env.view(env.batch(s.world, [x]), x); var e := RunFrom(g, env, s, |front|, budget);
            && ((e.Stopped? && e.st.path == front) <==> Unhandled(g.nodes[x], v))
            && (Unhandled(g.nodes[x], v) ==> e.st.error == v.error)
  {
    hide Round, Ready, WellFormed, NamesFillUp, PostProcessAll, LeavesError, Unhandled, Concludes, Known, Kept, After;
    var idx := |front|;
    SoloBatch(g, env, Announce(s, idx), front, x);
    var s2 := Ran(g, env, s, idx);
    LonePostProcess(g, env, s2, front, x);
    StopsOnUnhandledErrors(g, env, s, idx);
    RoundStopsAtFrontier(g, env, s, idx);
    RoundIs(g, env, s, idx);
    assert s.path[..idx] == front;
    var r := Round(g, env, s, idx, false);
    if r.Next? && RunFrom(g, env, r.st, r.idx, budget - 1).Stopped? {
      StopKeepsCompletedBatches(g, env, r.st, r.idx, budget - 1);
    }
  }

  /** So it is with an item node that leads nowhere: it sends control back to itself. */
  lemma EmptyBodyEndsTheRun<W>(g: Graph, env: Env<W>, container: Id, item: Id, s: State<W>, front: seq<Id>, budget: nat)
    requires Pending(g, s, front, item) && container in g.nodes && g.nodes[container].kind.IsContainer()
    requires g.nodes[item].kind.IsItem() && g.nodes[item].parent == Some(container) && Ready(g, front, item)
    requires Start(g, container) == item && g.nodes[item].downstream == []
    requires var v := env.view(env.batch(s.world, [item]), item); Calm(v) && v.ends.No?
    requires budget > 0
    ensures var e := RunFrom(g, env, s, |front|, budget);
            e.Finished? && e.st.path == front + [item]
  {
    hide WellFormed, Round, NamesFillUp, Start, RunFrom, Ready;
    assert [item][1..] == [] && NoRepeats(item, [item]) == [];
    LoneEntryEndsTheRun(g, env, s, front, item, [item], budget);
    NothingIsReady(g, front + [item]);
  }

  /** `n` times the same list of ids. */
  function Repeat(ids: seq<Id>, n: nat): seq<Id> {
    if n == 0 then [] else Repeat(ids, n - 1) + ids
  }

  /** The turns that `n` passes through the body take. */
  function PassTurns(cs: seq<Id>, n: nat): nat { n * (|cs| + 1) }

  lemma OneMorePassTurns(cs: seq<Id>, n: nat)
    requires n > 0
    ensures PassTurns(cs, n) == PassTurns(cs, n - 1) + |cs| + 1
  {
  }

  lemma {:induction false} RepeatLength(item: Id, cs: seq<Id>, n: nat)
    ensures |Repeat([item] + cs, n)| == PassTurns(cs, n)
  {
    if n > 0 {
      RepeatLength(item, cs, n - 1);
      OneMorePassTurns(cs, n);
    }
  }

  lemma {:induction false} RepeatFromTheLeft(ids: seq<Id>, n: nat)
    ensures ids + Repeat(ids, n) == Repeat(ids, n + 1)
  {
    if n > 0 {
      RepeatFromTheLeft(ids, n - 1);
      assert ids + (Repeat(ids, n - 1) + ids) == ids + Repeat(ids, n - 1) + ids;
    } else {
      assert ids + [] == [] + ids;
    }
  }

  /** What follows the container exists and does not wait for the user. */
  predicate LeadsOn(g: Graph, container: Id) {
    container in g.nodes && Known(g, g.nodes[container].downstream) &&
    forall y <- g.nodes[container].downstream :: !IsFillUp(g, y)
  }
}
