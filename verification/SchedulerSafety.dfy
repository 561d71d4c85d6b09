/** What the saved path is worth after any sequence of runs: dependencies of every entry
    precede it, a failed run forgets exactly what it did not complete, a pause only reorders. */
module SchedulerSafety {
  import opened Workflow
  import opened Scheduler

  // ---------- The batch filter ----------

  /** The filter decides entry by entry: splitting the pending list at any entry, what
      happens to that entry depends only on what was kept before it. */
  lemma {:induction false} KeptSplits(g: Graph, before: seq<Id>, a: seq<Id>, x: Id, b: seq<Id>)
    requires Known(g, a + [x] + b)
    ensures Known(g, a) && x in g.nodes && Known(g, b)
    ensures var mid := Kept(g, before, a);
            Kept(g, before, a + [x] + b) == Kept(g, if Ready(g, mid, x) then mid + [x] else mid, b)
    decreases |a|
  {
    var all := a + [x] + b;
    forall y | y in a ensures y in all {}
    assert all[|a|] == x;
    forall y | y in b ensures y in all {}
    if a == [] {
      assert all == [x] + b;
    } else {
      assert all[1..] == a[1..] + [x] + b;
      forall y | y in all[1..] ensures y in all {}
      var next := if Ready(g, before, a[0]) then before + [a[0]] else before;
      assert all[0] == a[0];
      KeptSplits(g, next, a[1..], x, b);
    }
  }

  /** Every entry the filter keeps is ready after exactly the entries before it. */
  lemma {:induction false} KeptAreReady(g: Graph, before: seq<Id>, pending: seq<Id>, k: nat)
    requires Known(g, pending) && |before| <= k < |Kept(g, before, pending)|
    ensures var r := Kept(g, before, pending);
            r[k] in pending && Ready(g, r[..k], r[k])
    decreases |pending|
  {
    var r := Kept(g, before, pending);
    if pending != [] {
      assert forall y <- pending[1..] :: y in pending;
      if Ready(g, before, pending[0]) {
        if k == |before| {
          assert before + [pending[0]] <= r;
          assert r[..k] == before;
        } else {
          KeptAreReady(g, before + [pending[0]], pending[1..], k);
        }
      } else {
        KeptAreReady(g, before, pending[1..], k);
      }
    }
  }

  // ---------- The dependency invariant ----------

  /** Everything entry `k` refers to occurs earlier in the path. */
  predicate DepsMet(g: Graph, path: seq<Id>, k: nat)
    requires k < |path|
  {
    path[k] in g.nodes && (g.nodes[path[k]].kind.IsEntry() || forall r <- g.nodes[path[k]].refs :: r in path[..k])
  }

  /** The path starts with a user fill-up, by its id or by its kind. */
  predicate StartsWithFillUp(g: Graph, path: seq<Id>) {
    path != [] && (NamesFillUp(path[0]) || IsFillUp(g, path[0]))
  }

  predicate CheckedUpTo(g: Graph, path: seq<Id>, n: nat) {
    n <= |path| && (StartsWithFillUp(g, path) || forall k: nat | k < n :: DepsMet(g, path, k))
  }

  predicate DependencyInvariant(g: Graph, path: seq<Id>) {
    path == [] || CheckedUpTo(g, path, |path|)
  }

  lemma CheckedGrows(g: Graph, path: seq<Id>, longer: seq<Id>, n: nat)
    requires CheckedUpTo(g, path, n) && path[..n] <= longer && n <= |longer|
    requires path != [] && longer != [] && path[0] == longer[0]
    ensures CheckedUpTo(g, longer, n)
  {
    forall k: nat | k < n && DepsMet(g, path, k)
      ensures DepsMet(g, longer, k)
    {
      assert path[..n][k] == longer[k];
      assert path[..k] == path[..n][..k] == longer[..k];
    }
  }

  lemma KeptIsChecked(g: Graph, path: seq<Id>, idx: nat)
    requires idx <= |path| && path != [] && Known(g, path) && Known(g, path[idx..])
    requires CheckedUpTo(g, path, idx)
    requires idx > 0 || Ready(g, [], path[0])
    ensures var r := Kept(g, path[..idx], path[idx..]);
            r != [] && r[0] == path[0] && CheckedUpTo(g, r, |r|)
  {
    var r := Kept(g, path[..idx], path[idx..]);
    if idx == 0 {
      assert path[idx..] == path && path[..idx] == [];
      assert [path[0]] <= r;
    } else {
      assert path[..idx][0] == r[0];
    }
    CheckedGrows(g, path, r, idx);
    if !StartsWithFillUp(g, r) {
      forall k: nat | k < |r| ensures DepsMet(g, r, k) {
        if k >= idx {
          KeptAreReady(g, path[..idx], path[idx..], k);
          assert (r[..k] + [r[k]])[0] == r[0];
        }
      }
    }
  }

  lemma {:induction false} SelectedFillUps(g: Graph, ids: seq<Id>)
    ensures forall x <- Selected(g, ids, true) :: IsFillUp(g, x)
    ensures (exists x <- ids :: IsFillUp(g, x)) ==> Selected(g, ids, true) != []
    ensures forall x <- Selected(g, ids, true) + Selected(g, ids, false) :: x in ids
  {
    if ids != [] {
      SelectedFillUps(g, ids[1..]);
      assert forall x | x in Selected(g, ids, true) + Selected(g, ids, false) ::
          x == ids[0] || x in Selected(g, ids[1..], true) + Selected(g, ids[1..], false);
    }
  }

  /** A turn that is not canceled: when its batch has run, and when it is post-processed. */
  function Ran<W>(g: Graph, env: Env<W>, s: State<W>, idx: nat): (r: State<W>)
    requires idx <= |s.path| && Known(g, s.path)
    ensures idx <= |r.path| && Known(g, r.path) && r.path[..|r.path|] == r.path && s.path[..idx] <= r.path
    ensures r.error == s.error
  {
    var r := RunBatch(g, env, Announce(s, idx), idx);
    assert r.path[..|r.path|] == r.path;
    r
  }

  function Processed<W>(g: Graph, env: Env<W>, s: State<W>, idx: nat): (r: Step<W>)
    requires WellFormed(g) && idx <= |s.path| && Known(g, s.path)
    ensures Ran(g, env, s, idx).path <= r.st.path
  {
    hide Ran;
    PostProcessAll(g, env, Ran(g, env, s, idx), idx, |Ran(g, env, s, idx).path|)
  }

  predicate HasFillUp(g: Graph, ids: seq<Id>) { exists x <- ids :: IsFillUp(g, x) }

  lemma RoundIs<W>(g: Graph, env: Env<W>, s: State<W>, idx: nat)
    requires WellFormed(g) && idx <= |s.path| && Known(g, s.path)
    ensures var p, end := Processed(g, env, s, idx), |Ran(g, env, s, idx).path|; var t := p.st;
            Round(g, env, s, idx, false) ==
              if p.Raised? then Exits(Aborted(t))
              else if !t.error.NoError? then Exits(Stopped(Close(t, idx)))
              else if !Known(g, t.path) then Exits(Aborted(t))
              else if HasFillUp(g, t.path[end..]) then Exits(Paused(Pause(g, t, end)))
              else Next(t, end)
    ensures Round(g, env, s, idx, true) == Exits(Aborted(Announce(s, idx)))
  {
    hide PostProcessAll, RunBatch, Announce, Pause, Close, WellFormed, Known, IsFillUp;
  }

  /** The batch of a turn is checked, as it is part of the path from then on. */
  lemma BatchIsChecked<W>(g: Graph, env: Env<W>, s: State<W>, idx: nat)
    requires WellFormed(g) && idx < |s.path| && Known(g, s.path)
    requires CheckedUpTo(g, s.path, idx) && (idx > 0 || Ready(g, [], s.path[0]))
    ensures var s2 := Ran(g, env, s, idx);
            s2.path != [] && CheckedUpTo(g, Processed(g, env, s, idx).st.path, |s2.path|)
  {
    hide PostProcessAll, Ready, Kept, NamesFillUp, DepsMet, CheckedUpTo, WellFormed;
    KnownSlice(g, s.path, idx);
    KeptIsChecked(g, s.path, idx);
    var s2 := Ran(g, env, s, idx);
    CheckedGrows(g, s2.path, Processed(g, env, s, idx).st.path, |s2.path|);
  }

  lemma RoundKeepsDependencies<W>(g: Graph, env: Env<W>, s: State<W>, idx: nat, canceled: bool)
    requires WellFormed(g) && idx < |s.path| && Known(g, s.path)
    requires CheckedUpTo(g, s.path, idx) && (idx > 0 || Ready(g, [], s.path[0]))
    ensures match Round(g, env, s, idx, canceled)
            case Next(t, i) => 0 < i && CheckedUpTo(g, t.path, i)
            case Exits(Aborted(_)) => true
            case Exits(e) => Known(g, e.st.path) && DependencyInvariant(g, e.st.path)
  {
    hide Processed, Ran, Ready, NamesFillUp, Selected, DepsMet;
    RoundIs(g, env, s, idx);
    if !canceled {
      BatchIsChecked(g, env, s, idx);
      var t, end := Processed(g, env, s, idx).st, |Ran(g, env, s, idx).path|;
      assert t.path[..idx] == s.path[..idx];
      if idx > 0 {
        CheckedGrows(g, s.path, t.path[..idx], idx);
      }
      SelectedFillUps(g, t.path[end..]);
    }
  }

  lemma {:induction false} RunKeepsDependencies<W>(g: Graph, env: Env<W>, s: State<W>, idx: nat, budget: nat)
    requires WellFormed(g) && idx <= |s.path| && s.path != [] && Known(g, s.path)
    requires CheckedUpTo(g, s.path, idx) && (idx > 0 || Ready(g, [], s.path[0]))
    ensures var e := RunFrom(g, env, s, idx, budget);
            e.Aborted? || (Known(g, e.st.path) && DependencyInvariant(g, e.st.path))
    decreases budget
  {
    hide Round, Ready, Known, WellFormed, CheckedUpTo;
    if idx == |s.path| {
      assert s.path[..idx] == s.path;
    } else {
      RoundKeepsDependencies(g, env, s, idx, budget == 0);
      match Round(g, env, s, idx, budget == 0)
      case Exits(_) =>
      case Next(t, i) => RunKeepsDependencies(g, env, t, i, budget - 1);
    }
  }

  lemma StartIsChecked(g: Graph, path: seq<Id>)
    requires WellFormed(g) && Known(g, path) && DependencyInvariant(g, path)
    ensures var p := RunStart(path);
            Known(g, p) && CheckedUpTo(g, p, |p| - 1) && (|p| > 1 || Ready(g, [], p[0]))
  {
    var p := RunStart(path);
    if p == path {
      assert |p| == 1 ==> ([] + [p[0]])[0] == p[|p| - 1];
    } else if path != [] {
      CheckedGrows(g, path, p, |path|);
    }
  }

  lemma RunKeepsTheInvariant<W>(g: Graph, env: Env<W>, path: seq<Id>, w: W, early: bool, budget: nat)
    requires WellFormed(g) && Known(g, path) && DependencyInvariant(g, path)
    ensures var e := Run(g, env, path, w, early, budget);
            e.Aborted? || (Known(g, e.st.path) && DependencyInvariant(g, e.st.path))
  {
    hide RunFrom;
    StartIsChecked(g, path);
    if !early {
      RunKeepsDependencies(g, env, Opened(env, path, w), |RunStart(path)| - 1, budget);
    }
  }

  /** What a caller decides about one run: cancel it before it starts, or at some batch. */
  datatype Attempt = Attempt(early: bool, budget: nat)

  /** The saved path and the world after a sequence of runs, none of which was aborted. */
  function Session<W>(g: Graph, env: Env<W>, path: seq<Id>, w: W, attempts: seq<Attempt>): Option<(seq<Id>, W)>
    requires WellFormed(g)
    decreases |attempts|
  {
    hide Run;
    if attempts == [] then Some((path, w))
    else if !Known(g, path) then None
    else match Run(g, env, path, w, attempts[0].early, attempts[0].budget)
      case Aborted(_) => None
      case e => Session(g, env, e.st.path, e.st.world, attempts[1..])
  }

  /** After any sequence of runs that finished, stopped on an error or paused, from an
      empty path, the dependency invariant holds. */
  lemma {:induction false} SessionKeepsDependencies<W>(
    g: Graph, env: Env<W>, path: seq<Id>, w: W, attempts: seq<Attempt>)
    requires WellFormed(g) && Known(g, path) && DependencyInvariant(g, path)
    ensures match Session(g, env, path, w, attempts)
            case None => true
            case Some((p, _)) => Known(g, p) && DependencyInvariant(g, p)
    decreases |attempts|
  {
    hide Run, DependencyInvariant;
    if attempts != [] {
      var e := Run(g, env, path, w, attempts[0].early, attempts[0].budget);
      RunKeepsTheInvariant(g, env, path, w, attempts[0].early, attempts[0].budget);
      if !e.Aborted? {
        SessionKeepsDependencies(g, env, e.st.path, e.st.world, attempts[1..]);
      }
    }
  }

  // ---------- Commit and roll back ----------

  /** Where a run stands after `n` further turns of its main loop. */
  function After<W>(g: Graph, env: Env<W>, s: State<W>, idx: nat, n: nat): (r: Turn<W>)
    requires WellFormed(g) && idx <= |s.path| && Known(g, s.path)
    ensures r.Next? ==> idx <= r.idx <= |r.st.path| && Known(g, r.st.path) && s.path[..idx] <= r.st.path[..r.idx]
    decreases n
  {
    if n == 0 then Next(s, idx)
    else if idx == |s.path| then Exits(Finished(Close(s, idx)))
    else match Round(g, env, s, idx, false)
      case Exits(e) => Exits(e)
      case Next(t, i) =>
        assert s.path[..idx] == t.path[..i][..idx];
        After(g, env, t, i, n - 1)
  }

  /** A run is its turns, one after the other. */
  lemma {:induction false} RunUnrolls<W>(g: Graph, env: Env<W>, s: State<W>, idx: nat, n: nat, budget: nat)
    requires WellFormed(g) && idx <= |s.path| && Known(g, s.path) && n <= budget
    requires After(g, env, s, idx, n).Next?
    ensures var a := After(g, env, s, idx, n);
            RunFrom(g, env, s, idx, budget) == RunFrom(g, env, a.st, a.idx, budget - n)
    decreases n
  {
    hide Round, Known, WellFormed, Close;
    if n > 0 {
      var r := Round(g, env, s, idx, false);
      RunUnrolls(g, env, r.st, r.idx, n - 1, budget - 1);
    }
  }

  /** A run that does not finish ends in a turn: the `n`-th, which is canceled if the budget is
      used up by then. */
  lemma {:induction false} RunEndsInATurn<W>(g: Graph, env: Env<W>, s: State<W>, idx: nat, budget: nat)
    requires WellFormed(g) && idx <= |s.path| && Known(g, s.path)
    requires !RunFrom(g, env, s, idx, budget).Finished?
    ensures exists n | 0 <= n <= budget :: EndsInTurn(g, env, s, idx, budget, n)
    decreases budget
  {
    hide Round, Known, WellFormed, Close;
    var r := Round(g, env, s, idx, budget == 0);
    if r.Exits? {
      assert EndsInTurn(g, env, s, idx, budget, 0);
    } else {
      RunEndsInATurn(g, env, r.st, r.idx, budget - 1);
      var n :| 0 <= n <= budget - 1 && EndsInTurn(g, env, r.st, r.idx, budget - 1, n);
      assert After(g, env, s, idx, n + 1) == After(g, env, r.st, r.idx, n);
      assert EndsInTurn(g, env, s, idx, budget, n + 1);
    }
  }

  ghost predicate EndsInTurn<W>(g: Graph, env: Env<W>, s: State<W>, idx: nat, budget: nat, n: nat)
    requires WellFormed(g) && idx <= |s.path| && Known(g, s.path)
  {
    var a := After(g, env, s, idx, n);
    && n <= budget && a.Next? && a.idx < |a.st.path|
    && Round(g, env, a.st, a.idx, n == budget) == Exits(RunFrom(g, env, s, idx, budget))
  }

  /** A run that stops on an error saves exactly the entries whose batches were completed:
      the frontier at the beginning of the turn that failed. */
  lemma StopKeepsCompletedBatches<W>(g: Graph, env: Env<W>, s: State<W>, idx: nat, budget: nat)
    requires WellFormed(g) && idx <= |s.path| && Known(g, s.path)
    requires RunFrom(g, env, s, idx, budget).Stopped?
    ensures exists n | 0 <= n < budget ::
              && EndsInTurn(g, env, s, idx, budget, n)
              && var a := After(g, env, s, idx, n);
                 RunFrom(g, env, s, idx, budget).st.path == a.st.path[..a.idx]
  {
    hide Round, RunFrom, Known, WellFormed, After;
    RunEndsInATurn(g, env, s, idx, budget);
    var n :| 0 <= n <= budget && EndsInTurn(g, env, s, idx, budget, n);
    var a := After(g, env, s, idx, n);
    RoundStopsAtFrontier(g, env, a.st, a.idx);
    assert n < budget by {
      RoundIs(g, env, a.st, a.idx);
    }
  }

  lemma RoundStopsAtFrontier<W>(g: Graph, env: Env<W>, s: State<W>, idx: nat)
    requires WellFormed(g) && idx <= |s.path| && Known(g, s.path)
    ensures var r := Round(g, env, s, idx, false);
            r.Exits? && r.exit.Stopped? ==> r.exit.st.path == s.path[..idx] && !r.exit.st.error.NoError?
  {
    var s2 := RunBatch(g, env, Announce(s, idx), idx);
    assert s2.path[..|s2.path|] == s2.path;
    var t := PostProcessAll(g, env, s2, idx, |s2.path|).st;
    assert t.path[..idx] == s2.path[..idx] == s.path[..idx];
  }

  /** The component left an error, and says neither where to go on nor what to answer instead. */
  predicate Unhandled(n: Node, v: View) {
    !v.error.NoError? && !TakesGoto(n, v) && !(n.handler.Handler? && n.handler.hasDefault)
  }

  lemma PostProcessErrs<W>(g: Graph, env: Env<W>, s: State<W>, x: Id)
    requires WellFormed(g) && x in g.nodes && s.path != []
    ensures var v := env.view(Deliver(g, env, s, x).world, x);
            PostProcess(g, env, s, x).st.error == if Unhandled(g.nodes[x], v) then v.error else s.error
  {
    hide WellFormed, Held, Drainable, ExtendIds, Successors;
  }

  /** Some entry from `i` on leaves an unhandled error, when its turn has come. */
  predicate LeavesError<W>(g: Graph, env: Env<W>, s: State<W>, i: nat, end: nat)
    requires WellFormed(g) && i <= end <= |s.path| && Known(g, s.path[..end])
    decreases end - i
  {
    hide PostProcess, WellFormed;
    i < end &&
    var x := s.path[i];
    assert x in s.path[..end];
    var r := PostProcess(g, env, s, x);
    assert r.st.path[..end] == s.path[..end];
    var v := env.view(Deliver(g, env, s, x).world, x);
    Unhandled(g.nodes[x], v) || (r.Done? && LeavesError(g, env, r.st, i + 1, end))
  }

  lemma {:induction false} ErrorsAreKept<W>(g: Graph, env: Env<W>, s: State<W>, i: nat, end: nat)
    requires WellFormed(g) && i <= end <= |s.path| && Known(g, s.path[..end])
    ensures PostProcessAll(g, env, s, i, end).st.error.NoError? <==> s.error.NoError? && !LeavesError(g, env, s, i, end)
    decreases end - i
  {
    hide PostProcess, WellFormed, Unhandled;
    if i < end {
      var x := s.path[i];
      assert x in s.path[..end];
      PostProcessErrs(g, env, s, x);
      UnhandledIsAnError(g.nodes[x], env.view(Deliver(g, env, s, x).world, x));
      var r := PostProcess(g, env, s, x);
      if r.Done? {
        assert r.st.path[..end] == s.path[..end];
        ErrorsAreKept(g, env, r.st, i + 1, end);
      }
    }
  }

  lemma UnhandledIsAnError(n: Node, v: View)
    ensures Unhandled(n, v) ==> !v.error.NoError?
  {
  }

  /** A turn that is post-processed to its end stops the run if and only if some entry of its
      batch left an error that it neither sends on nor has a default answer for. Nothing that
      comes after such an error in the batch can undo it. */
  lemma StopsOnUnhandledErrors<W>(g: Graph, env: Env<W>, s: State<W>, idx: nat)
    requires WellFormed(g) && idx <= |s.path| && Known(g, s.path) && s.error.NoError?
    requires Processed(g, env, s, idx).Done?
    ensures var r, s2 := Round(g, env, s, idx, false), Ran(g, env, s, idx);
            (r.Exits? && r.exit.Stopped?) <==> LeavesError(g, env, s2, idx, |s2.path|)
  {
    hide Round, WellFormed, Known, PostProcessAll, RunBatch, LeavesError;
    RoundIs(g, env, s, idx);
    ErrorsAreKept(g, env, Ran(g, env, s, idx), idx, |Ran(g, env, s, idx).path|);
  }

  function NoRepeats(prev: Id, ids: seq<Id>): seq<Id>
    decreases |ids|
  {
    if ids == [] then [] else (if ids[0] == prev then [] else [ids[0]]) + NoRepeats(ids[0], ids[1..])
  }

  lemma {:induction false} ExtensionDropsRepeats(path: seq<Id>, ids: seq<Id>)
    requires path != []
    ensures ExtendIds(path, ids) == path + NoRepeats(path[|path| - 1], ids)
    decreases |ids|
  {
    if ids == [] {
      assert path + [] == path;
    } else {
      var p, prev := AppendId(path, ids[0]), path[|path| - 1];
      ExtensionDropsRepeats(p, ids[1..]);
      assert p[|p| - 1] == ids[0];
      hide AppendId, ExtendIds;
      var rest := NoRepeats(ids[0], ids[1..]);
      if prev == ids[0] {
        assert [] + rest == rest;
      } else {
        assert path + [ids[0]] + rest == path + ([ids[0]] + rest);
      }
    }
  }

  /** `line` has the entries of `ids` in it, no others behind its first, and no two alike side by side. */
  predicate Queues(line: seq<Id>, ids: seq<Id>) {
    && line != []
    && (forall k | 0 < k < |line| :: line[k] != line[k - 1] && line[k] in ids)
    && (forall x <- ids :: x in line)
    && (ids != [] ==> line[|line| - 1] == ids[|ids| - 1])
    && (ids == [] ==> |line| == 1)
  }

  lemma {:induction false} NoRepeatsQueues(prev: Id, ids: seq<Id>)
    ensures Queues([prev] + NoRepeats(prev, ids), ids)
    decreases |ids|
  {
    if ids == [] {
      assert [prev] + NoRepeats(prev, ids) == [prev];
    } else {
      hide Queues;
      NoRepeatsQueues(ids[0], ids[1..]);
      var rest := [ids[0]] + NoRepeats(ids[0], ids[1..]);
      LongerQueue(prev, rest, ids);
      assert [prev] + NoRepeats(prev, ids) == if ids[0] == prev then rest else [prev] + rest;
    }
  }

  lemma LongerQueue(prev: Id, rest: seq<Id>, ids: seq<Id>)
    requires ids != [] && Queues(rest, ids[1..]) && rest[0] == ids[0]
    ensures Queues(rest, ids)
    ensures prev != ids[0] ==> Queues([prev] + rest, ids)
  {
    forall x | x in ids ensures x in rest {
      assert x == ids[0] || x in ids[1..];
    }
    forall k | 0 < k < |rest| ensures rest[k] in ids {
      assert rest[k] in ids[1..];
    }
    var line := [prev] + rest;
    forall k | 0 < k < |line| && prev != ids[0] ensures line[k] != line[k - 1] && line[k] in ids {
      assert line[k] == rest[k - 1] && (k > 1 ==> line[k - 1] == rest[k - 2]);
    }
    assert line[|line| - 1] == rest[|rest| - 1];
  }

  /** All targets of a component are queued, in order, but for one that was queued just before;
      so no component is queued twice in a row, and the last target ends the path. */
  lemma TargetsAreQueued(path: seq<Id>, ids: seq<Id>)
    requires path != []
    ensures var r, n := ExtendIds(path, ids), |path|;
            path <= r && r == path + NoRepeats(path[n - 1], ids) && Queues(r[n - 1..], ids)
  {
    ExtensionDropsRepeats(path, ids);
    NoRepeatsQueues(path[|path| - 1], ids);
    assert ExtendIds(path, ids)[|path| - 1..] == [path[|path| - 1]] + NoRepeats(path[|path| - 1], ids);
  }

  /** An error in the very first batch of a run that was not resumed restores the saved path. */
  lemma FirstBatchErrorRestoresPath<W>(g: Graph, env: Env<W>, path: seq<Id>, w: W, budget: nat)
    requires WellFormed(g) && Known(g, path) && Known(g, RunStart(path)) && budget > 0
    requires var r := Round(g, env, Opened(env, path, w), |RunStart(path)| - 1, false);
             r.Exits? && r.exit.Stopped?
    ensures var e := Run(g, env, path, w, false, budget);
            && e.Stopped?
            && e.st.path == if path == [] || !NamesFillUp(path[|path| - 1]) then path else path[..|path| - 1]
  {
    hide Round, NamesFillUp, WellFormed, Known;
    RoundStopsAtFrontier(g, env, Opened(env, path, w), |RunStart(path)| - 1);
  }

  /** A run that finishes kept everything it had on its path: nothing is truncated, the
      path has a last entry to report, and what was complete before the run is still there. */
  lemma {:induction false} FinishCommitsEverything<W>(g: Graph, env: Env<W>, s: State<W>, idx: nat, budget: nat)
    requires WellFormed(g) && idx <= |s.path| && Known(g, s.path) && s.path != []
    requires idx > 0 || Ready(g, [], s.path[0])
    requires s.error.NoError?
    ensures var e := RunFrom(g, env, s, idx, budget);
            e.Finished? ==>
              && e.st.error.NoError? && e.st.path != []
              && s.path[..idx] <= e.st.path
              && exists n | 0 <= n <= budget ::
                   var a := After(g, env, s, idx, n);
                   a.Next? && a.idx == |a.st.path| && e.st.path == a.st.path
    decreases budget
  {
    hide Round, NamesFillUp, Known, WellFormed, Ready;
    var e := RunFrom(g, env, s, idx, budget);
    if idx == |s.path| {
      assert s.path[..idx] == s.path;
      assert After(g, env, s, idx, 0) == Next(s, idx);
    } else if e.Finished? {
      var r := Round(g, env, s, idx, false);
      FirstEntryStays(g, env, s, idx);
      FinishCommitsEverything(g, env, r.st, r.idx, budget - 1);
      var n :| 0 <= n <= budget - 1 && After(g, env, r.st, r.idx, n).Next? &&
               After(g, env, r.st, r.idx, n).idx == |After(g, env, r.st, r.idx, n).st.path| &&
               e.st.path == After(g, env, r.st, r.idx, n).st.path;
      assert After(g, env, s, idx, n + 1) == After(g, env, r.st, r.idx, n);
      assert s.path[..idx] <= r.st.path[..r.idx] <= e.st.path;
    }
  }

  lemma FirstEntryStays<W>(g: Graph, env: Env<W>, s: State<W>, idx: nat)
    requires WellFormed(g) && idx < |s.path| && Known(g, s.path)
    requires idx > 0 || Ready(g, [], s.path[0])
    ensures var r := Round(g, env, s, idx, false);
            r.Next? ==> r.idx > 0 && r.st.path[0] == s.path[0]
  {
    hide PostProcessAll, NamesFillUp, IsFillUp, Ready, Selected;
    KnownSlice(g, s.path, idx);
    var kept := Kept(g, s.path[..idx], s.path[idx..]);
    if idx == 0 {
      assert s.path[idx..] == s.path && s.path[..idx] == [];
      assert [s.path[0]] <= kept;
    } else {
      assert s.path[..idx][0] == kept[0];
    }
    var s2 := RunBatch(g, env, Announce(s, idx), idx);
    assert s2.path[..|s2.path|] == s2.path;
  }

  // ---------- Pausing ----------

  /** Selection goes entry by entry, so it keeps the order of what it selects. */
  lemma {:induction false} SelectedSplits(g: Graph, a: seq<Id>, x: Id, b: seq<Id>, fillUps: bool)
    ensures Selected(g, a + [x] + b, fillUps) ==
            Selected(g, a, fillUps) + (if IsFillUp(g, x) == fillUps then [x] else []) + Selected(g, b, fillUps)
  {
    if a == [] {
      assert [] + [x] + b == [x] + b;
    } else {
      assert (a + [x] + b)[1..] == a[1..] + [x] + b;
      SelectedSplits(g, a[1..], x, b, fillUps);
    }
  }

  /** A pause stores the pending user fill-ups, then everything else that is pending: a
      permutation of the pending entries, each group in its old order (SelectedSplits). */
  lemma {:induction false} PauseIsAPartition(g: Graph, pending: seq<Id>)
    ensures var yes, no := Selected(g, pending, true), Selected(g, pending, false);
            && (forall x <- yes :: IsFillUp(g, x))
            && (forall x <- no :: !IsFillUp(g, x))
            && multiset(yes + no) == multiset(pending)
  {
    if pending != [] {
      PauseIsAPartition(g, pending[1..]);
      assert pending == [pending[0]] + pending[1..];
    }
  }

  predicate PausesAt<W>(g: Graph, t: State<W>, end: nat) {
    end <= |t.path| && Known(g, t.path) && t.error.NoError? && HasFillUp(g, t.path[end..])
  }

  /** A run that pauses stores what the batch it ran last left pending: with `t` the state when
      that batch was post-processed, the entries of `t` behind the batch. */
  lemma PauseStoresPending<W>(g: Graph, env: Env<W>, s: State<W>, idx: nat, budget: nat)
    requires WellFormed(g) && idx <= |s.path| && Known(g, s.path)
    requires RunFrom(g, env, s, idx, budget).Paused?
    ensures exists n | 0 <= n < budget ::
              && EndsInTurn(g, env, s, idx, budget, n)
              && var a := After(g, env, s, idx, n);
                 var step, end := Processed(g, env, a.st, a.idx), |Ran(g, env, a.st, a.idx).path|;
                 && step.Done? && PausesAt(g, step.st, end)
                 && RunFrom(g, env, s, idx, budget).st == Pause(g, step.st, end)
  {
    hide Round, RunFrom, Known, WellFormed, After, Processed, Ran, Pause, HasFillUp;
    RunEndsInATurn(g, env, s, idx, budget);
    var n :| 0 <= n <= budget && EndsInTurn(g, env, s, idx, budget, n);
    var a := After(g, env, s, idx, n);
    RoundIs(g, env, a.st, a.idx);
    assert n < budget;
  }

  /** The run after a pause starts a single node: the last one saved if its id names a fill-up,
      and "begin" otherwise. */
  lemma ResumeAfterPause<W>(g: Graph, t: State<W>, end: nat)
    requires PausesAt(g, t, end)
    ensures var saved := Pause(g, t, end).path;
            && saved != []
            && var p, last := RunStart(saved), saved[|saved| - 1];
               && (p == saved <==> NamesFillUp(last))
               && p[|p| - 1..] == [if NamesFillUp(last) then last else BEGIN]
  {
    hide NamesFillUp;
    LastSaved(g, t.path[end..]);
  }

  /** So "begin" is appended exactly when something other than a fill-up was pending, if and
      only if the id and the kind of the last entry agree on what a fill-up is. */
  lemma ResumeAgreesWithKinds<W>(g: Graph, t: State<W>, end: nat)
    requires PausesAt(g, t, end)
    ensures var saved := Pause(g, t, end).path;
            && saved != []
            && var p, last := RunStart(saved), saved[|saved| - 1];
               (p != saved <==> exists x <- t.path[end..] :: !IsFillUp(g, x)) <==>
               (NamesFillUp(last) <==> IsFillUp(g, last))
  {
    hide NamesFillUp, Selected;
    LastSaved(g, t.path[end..]);
  }

  lemma LastSaved(g: Graph, pending: seq<Id>)
    requires HasFillUp(g, pending)
    ensures var saved := Selected(g, pending, true) + Selected(g, pending, false);
            && saved != []
            && (IsFillUp(g, saved[|saved| - 1]) <==> forall x <- pending :: IsFillUp(g, x))
  {
    hide Selected, IsFillUp;
    SelectedMembers(g, pending, true);
    SelectedMembers(g, pending, false);
    var yes, no := Selected(g, pending, true), Selected(g, pending, false);
    var x :| x in pending && IsFillUp(g, x);
    assert x in yes;
    var last := (yes + no)[|yes + no| - 1];
    if no != [] {
      assert last == no[|no| - 1] && last in no;
    } else {
      assert last in yes;
    }
  }

  /** They need not agree: all that is pending here is a fill-up with the id "ask", and the run
      is started afresh all the same. */
  lemma AFillUpByAnotherName()
    ensures var g := Graph(["begin", "ask"], map["begin" := Node(Begin, ["ask"], None, {}, NoHandler),
                                                 "ask" := Node(UserFillUp, [], None, {"begin"}, NoHandler)]);
            var t := State(["begin", "ask"], [], NoError, [], 0);
            PausesAt(g, t, 1) && RunStart(Pause(g, t, 1).path) == ["ask", "begin"]
  {
    var t := State(["begin", "ask"], [], NoError, [], 0);
    assert t.path[1..] == ["ask"] && ["ask"][1..] == [] && "ask" in t.path[1..];
  }

  lemma {:induction false} SelectedMembers(g: Graph, ids: seq<Id>, fillUps: bool)
    ensures forall x :: x in Selected(g, ids, fillUps) <==> x in ids && IsFillUp(g, x) == fillUps
  {
    if ids != [] {
      SelectedMembers(g, ids[1..], fillUps);
    }
  }

  // ---------- Aborted runs ----------

  /** Once `f` entries are checked, the path is sound exactly when it starts with a fill-up or
      the entries behind them happen to have their dependencies met. */
  predicate SoundIfRestIs(g: Graph, path: seq<Id>, f: nat) {
    && f <= |path| && CheckedUpTo(g, path, f)
    && (DependencyInvariant(g, path) <==>
        StartsWithFillUp(g, path) || forall k: nat | f <= k < |path| :: DepsMet(g, path, k))
  }

  lemma CheckedFront(g: Graph, path: seq<Id>, f: nat)
    requires path != [] && CheckedUpTo(g, path, f)
    ensures SoundIfRestIs(g, path, f)
  {
  }

  lemma {:induction false} AfterIsChecked<W>(g: Graph, env: Env<W>, s: State<W>, idx: nat, n: nat)
    requires WellFormed(g) && idx <= |s.path| && Known(g, s.path) && s.path != []
    requires CheckedUpTo(g, s.path, idx) && (idx > 0 || Ready(g, [], s.path[0]))
    requires After(g, env, s, idx, n).Next?
    ensures var a := After(g, env, s, idx, n);
            && a.st.path != [] && CheckedUpTo(g, a.st.path, a.idx) && (a.idx > 0 || Ready(g, [], a.st.path[0]))
    decreases n
  {
    hide Round, Known, WellFormed, CheckedUpTo, Ready;
    if n > 0 {
      RoundKeepsDependencies(g, env, s, idx, false);
      var r := Round(g, env, s, idx, false);
      AfterIsChecked(g, env, r.st, r.idx, n - 1);
    }
  }

  /** The path a run leaves in memory when it is aborted in its `n`-th turn: if that turn was
      canceled, the entries before the frontier are checked, and those that were only queued
      decide; if an exception ended it, the batch is checked as well, and what post-processing
      had queued behind it decides. */
  lemma AbortedRunLeaves<W>(g: Graph, env: Env<W>, path: seq<Id>, w: W, budget: nat)
    requires WellFormed(g) && Known(g, path) && DependencyInvariant(g, path)
    requires Run(g, env, path, w, false, budget).Aborted?
    ensures Known(g, RunStart(path))
    ensures var s, idx := Opened(env, path, w), |RunStart(path)| - 1;
            var left := Run(g, env, path, w, false, budget).st.path;
            exists n | 0 <= n <= budget ::
              && EndsInTurn(g, env, s, idx, budget, n)
              && var a := After(g, env, s, idx, n);
                 if n == budget then left == a.st.path && SoundIfRestIs(g, left, a.idx)
                 else left == Processed(g, env, a.st, a.idx).st.path
                      && SoundIfRestIs(g, left, |Ran(g, env, a.st, a.idx).path|)
  {
    hide Round, RunFrom, Known, WellFormed, After, Processed, Ran;
    hide SoundIfRestIs, CheckedUpTo, Ready, DependencyInvariant, RunStart;
    StartIsChecked(g, path);
    var s, idx := Opened(env, path, w), |RunStart(path)| - 1;
    RunEndsInATurn(g, env, s, idx, budget);
    var n :| 0 <= n <= budget && EndsInTurn(g, env, s, idx, budget, n);
    var a := After(g, env, s, idx, n);
    AfterIsChecked(g, env, s, idx, n);
    RoundIs(g, env, a.st, a.idx);
    if n == budget {
      CheckedFront(g, a.st.path, a.idx);
    } else {
      BatchIsChecked(g, env, a.st, a.idx);
      CheckedFront(g, Processed(g, env, a.st, a.idx).st.path, |Ran(g, env, a.st, a.idx).path|);
    }
  }

  /** A run canceled before or at its first batch leaves its starting path, which is sound. */
  lemma EarlyCancelKeepsDependencies<W>(
    g: Graph, env: Env<W>, path: seq<Id>, w: W, early: bool, budget: nat)
    requires WellFormed(g) && Known(g, path) && DependencyInvariant(g, path)
    requires early || budget == 0
    ensures var e := Run(g, env, path, w, early, budget);
            e.Aborted? && e.st.path == RunStart(path) && DependencyInvariant(g, e.st.path)
  {
    StartIsChecked(g, path);
    var p := RunStart(path);
    if p == path + [BEGIN] && !StartsWithFillUp(g, p) {
      forall k: nat | k < |p| ensures DepsMet(g, p, k) {}
    }
  }

  function TwoSteps(): Graph {
    Graph(["begin", "report", "search"],
          map["begin" := Node(Begin, ["report"], None, {}, NoHandler),
              "report" := Node(Other, [], None, {"search"}, NoHandler),
              "search" := Node(Other, [], None, {}, NoHandler)])
  }

  function QuietEnv(): Env<nat> {
    Env(w => w, (w, ids) => w, (w, x) => View(NoError, false, No, None), (w, x) => w, (w, x, failed) => w)
  }

  /** A later cancellation is another matter: entries that were only queued stay on the path,
      unchecked. Here "report" is left there without the "search" it depends on. */
  lemma LateCancelBreaksDependencies()
    ensures WellFormed(TwoSteps())
    ensures var e := Run(TwoSteps(), QuietEnv(), [], 0, false, 1);
            e.Aborted? && e.st.path == ["begin", "report"] && !DependencyInvariant(TwoSteps(), e.st.path)
  {
    hide PostProcessAll, RunBatch;
    var s := Opened(QuietEnv(), [], 0);
    TwoStepsFirstTurn(s);
    hide Round, WellFormed, Known;
    var r := Round(TwoSteps(), QuietEnv(), s, 0, false);
    CanceledRound(TwoSteps(), QuietEnv(), r.st, 1);
    assert !DepsMet(TwoSteps(), r.st.path, 1);
    assert !MarkedAt("begin", 0);
  }

  lemma CanceledRound<W>(g: Graph, env: Env<W>, s: State<W>, idx: nat)
    requires WellFormed(g) && idx <= |s.path| && Known(g, s.path)
    ensures Round(g, env, s, idx, true) == Exits(Aborted(Announce(s, idx)))
  {
  }

  lemma TwoStepsFirstTurn(s: State<nat>)
    requires s.path == ["begin"] && s.error.NoError?
    ensures WellFormed(TwoSteps())
    ensures var r := Round(TwoSteps(), QuietEnv(), s, 0, false);
            r.Next? && r.idx == 1 && r.st.path == ["begin", "report"]
  {
    var g, env := TwoSteps(), QuietEnv();
    var s1 := Announce(s, 0);
    assert s1.path[0..] == ["begin"] && s1.path[..0] == [];
    assert Kept(g, ["begin"], ["begin"][1..]) == ["begin"];
    var s2 := RunBatch(g, env, s1, 0);
    assert s2.path == ["begin"] == s2.path[..1];
    TwoStepsBegin(s2);
    var t := PostProcess(g, env, s2, "begin").st;
    hide PostProcess, RunBatch;
    assert PostProcessAll(g, env, t, 1, 1) == Done(t);
    assert t.path[1..] == ["report"];
  }

  lemma TwoStepsIsWellFormed()
    ensures WellFormed(TwoSteps())
  {
  }

  lemma TwoStepsBegin(s: State<nat>)
    requires s.path == ["begin"] && s.error.NoError?
    ensures WellFormed(TwoSteps())
    ensures var r := PostProcess(TwoSteps(), QuietEnv(), s, "begin");
            r.Done? && r.st.path == ["begin", "report"] && r.st.error.NoError?
  {
    hide NamesFillUp, Ready, WellFormed, Held, Drainable;
    TwoStepsIsWellFormed();
    assert ExtendIds(["begin", "report"], ["report"][1..]) == ["begin", "report"];
    assert AppendId(["begin"], "report") == ["begin", "report"];
  }
}
