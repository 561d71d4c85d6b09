/** The running workflow as the object it is: a path that is popped, appended to and
    truncated in place. Every method is proved to do exactly what the scheduler
    functions say, so the theorems about those hold of the object. */
module Canvas {
  import opened Workflow
  import S = Scheduler
  import Safety = SchedulerSafety
  import EventTrace

  datatype Ending = Finished | Stopped | Paused | Aborted

  function ExitOf<W>(ending: Ending, st: S.State<W>): S.Exit<W> {
    match ending
    case Finished => S.Finished(st)
    case Stopped => S.Stopped(st)
    case Paused => S.Paused(st)
    case Aborted => S.Aborted(st)
  }

  class Canvas<W> {
    const graph: Graph
    const env: S.Env<W>
    var path: seq<Id>
    var partials: seq<Id>
    var error: S.Error
    var trace: seq<Event>
    var world: W

    constructor (graph: Graph, env: S.Env<W>, path: seq<Id>, world: W)
      requires WellFormed(graph) && Known(graph, path)
      ensures Valid() && this.graph == graph && this.env == env && this.path == path && this.world == world
    {
      this.graph, this.env, this.path, this.world := graph, env, path, world;
      partials, error, trace := [], S.NoError, [];
    }

    ghost predicate Valid()
      reads this
    {
      WellFormed(graph) && Known(graph, path)
    }

    ghost function Now(): S.State<W>
      reads this
    {
      S.State(path, partials, error, trace, world)
    }

    /** Drop, in place, every pending entry that is not ready; the others are to be started. */
    method FilterPending(from: nat) returns (started: seq<Id>)
      requires Valid() && from <= |path|
      modifies this`path
      ensures Known(graph, old(path)[from..])
      ensures path == S.Kept(graph, old(path)[..from], old(path)[from..])
      ensures Valid() && from <= |path| && started == path[from..]
    {
      hide NamesFillUp, WellFormed;
      S.KnownSlice(graph, path, from);
      var i, t := from, |path|;
      started := [];
      while i < t
        invariant WellFormed(graph) && from <= i <= t == |path| && Known(graph, path)
        invariant started == path[from..i]
        invariant Known(graph, path[i..])
        invariant S.Kept(graph, path[..i], path[i..]) == S.Kept(graph, old(path)[..from], old(path)[from..])
        decreases t - i
      {
        var x := path[i];
        ghost var before, pending := path[..i], path[i..];
        PendingSplits(path, i);
        var ready := IsReady(i);
        if ready {
          started := started + [x];
          i := i + 1;
        } else {
          path := path[..i] + path[i + 1..];
          t := t - 1;
        }
        assert path[i..] == pending[1..];
        assert path[..i] == if ready then before + [x] else before;
      }
      assert path[..i] == path && path[i..] == [];
    }

    method IsReady(i: nat) returns (ready: bool)
      requires Known(graph, path) && i < |path|
      ensures ready == S.Ready(graph, path[..i], path[i])
    {
      var n := graph.nodes[path[i]];
      assert (path[..i] + [path[i]])[0] == path[0];
      ready := n.kind.IsEntry() || !((exists r <- n.refs :: r !in path[..i]) && !NamesFillUp(path[0]));
    }

    lemma PendingSplits(ids: seq<Id>, i: nat)
      requires Known(graph, ids) && i < |ids|
      ensures ids[i..][0] == ids[i] && ids[i..][1..] == ids[i + 1..] && Known(graph, ids[i + 1..])
      ensures Known(graph, ids[..i] + ids[i + 1..])
    {
      assert forall y <- ids[i + 1..] :: y in ids;
    }

    method RunBatch(from: nat)
      requires Valid() && from <= |path|
      modifies this`path, this`world
      ensures Valid() && Now() == S.RunBatch(graph, env, old(Now()), from)
    {
      var started := FilterPending(from);
      world := env.batch(world, started);
    }

    method AppendPath(x: Id)
      requires path != []
      modifies this`path
      ensures path == S.AppendId(old(path), x)
    {
      if path[|path| - 1] != x {
        path := path + [x];
      }
    }

    method ExtendPath(ids: seq<Id>)
      requires path != []
      modifies this`path
      ensures path == S.ExtendIds(old(path), ids)
    {
      assert ids[0..] == ids;
      for i := 0 to |ids|
        invariant path != []
        invariant S.ExtendIds(path, ids[i..]) == S.ExtendIds(old(path), ids)
      {
        assert ids[i..][1..] == ids[i + 1..];
        AppendPath(ids[i]);
      }
    }

    /** A message has been read: report the held-back nodes in front that stream no more. */
    method DeliverMessage(x: Id)
      requires x in graph.nodes && graph.nodes[x].kind.Message?
      modifies this`world, this`partials, this`trace
      ensures Now() == S.Deliver(graph, env, old(Now()), x)
    {
      world := env.deliver(world, x);
      trace := trace + [Event.Message(x), MessageEnd(x)];
      ghost var shown, k := trace, S.Drainable(env, world, partials);
      Drain();
      assert shown + S.Held(old(partials)[..k])
          == old(trace) + [Event.Message(x), MessageEnd(x)] + S.Held(old(partials)[..k]);
    }

    method Drain()
      modifies this`partials, this`trace
      ensures var k := S.Drainable(env, world, old(partials));
              partials == old(partials)[k..] && trace == old(trace) + S.Held(old(partials)[..k])
    {
      ghost var done: nat := 0;
      while partials != [] && !env.view(world, partials[0]).streaming
        invariant done <= |old(partials)| && partials == old(partials)[done..]
        invariant trace == old(trace) + S.Held(old(partials)[..done])
        invariant S.Drainable(env, world, old(partials)) == done + S.Drainable(env, world, partials)
        decreases |partials|
      {
        HeldSnoc(old(partials), done);
        trace := trace + [NodeFinished(partials[0], true)];
        partials := partials[1..];
        done := done + 1;
      }
    }

    lemma HeldSnoc(ids: seq<Id>, k: nat)
      requires k < |ids|
      ensures S.Held(ids[..k]) + [NodeFinished(ids[k], true)] == S.Held(ids[..k + 1])
    {
    }

    /** Everything that happens to one entry of a batch after the batch has run. */
    method PostProcess(x: Id) returns (ok: bool)
      requires WellFormed(graph) && x in graph.nodes && path != []
      modifies this
      ensures old(path) <= path
      ensures (if ok then S.Done(Now()) else S.Raised(Now())) == S.PostProcess(graph, env, old(Now()), x)
    {
      var n := graph.nodes[x];
      if n.kind.Message? {
        DeliverMessage(x);
      }
      ghost var s1 := Now();
      var v := env.view(world, x);
      var otherBranch := Recover(x, v);
      Conclude(x, v);
      hide S.Deliver, S.Recover, S.Conclude, S.Route, NamesFillUp, S.TakesGoto;
      ok := Route(x, v, otherBranch);
    }

    /** Did the invocation leave an error, and what does the component want done about it? */
    method Recover(x: Id, v: S.View) returns (otherBranch: bool)
      requires x in graph.nodes
      modifies this`path, this`trace, this`error
      ensures Now() == S.Recover(graph, old(Now()), x, v)
      ensures otherBranch == S.TakesGoto(graph.nodes[x], v) && old(path) <= path
      ensures error == if Safety.Unhandled(graph.nodes[x], v) then v.error else old(error)
      ensures path != old(path) ==> otherBranch && trace == old(trace)
    {
      var n := graph.nodes[x];
      otherBranch := false;
      if !v.error.NoError? {
        if n.handler.Handler? && n.handler.goto != [] {
          path := path + n.handler.goto;
          otherBranch := true;
        } else if n.handler.Handler? && n.handler.hasDefault {
          trace := trace + [Event.Message(x), MessageEnd(x)];
        } else {
          error := v.error;
        }
      }
    }

    /** Report the component finished, unless its output is still streaming. */
    method Conclude(x: Id, v: S.View)
      requires x in graph.nodes
      modifies this`world, this`trace, this`partials
      ensures Now() == S.Conclude(graph, env, old(Now()), x, v)
      ensures |trace| == |old(trace)| + if graph.nodes[x].kind.IsContainer() then 0 else 1
      ensures partials == old(partials) || (partials == old(partials) + [x] && v.streaming && error.NoError?)
    {
      if !graph.nodes[x].kind.IsContainer() {
        if v.streaming && error.NoError? {
          partials := partials + [x];
          trace := trace + [NodeHeld(x)];
        } else {
          trace := trace + [NodeFinished(x, false)];
        }
      }
      world := env.settle(world, x, !error.NoError?);
    }

    method Route(x: Id, v: S.View, otherBranch: bool) returns (ok: bool)
      requires WellFormed(graph) && x in graph.nodes && path != []
      requires otherBranch == S.TakesGoto(graph.nodes[x], v)
      modifies this`path, this`trace
      ensures old(path) <= path && (otherBranch || !ok ==> path == old(path))
      ensures |old(trace)| <= |trace| <= |old(trace)| + 1
      ensures (if ok then S.Done(Now()) else S.Raised(Now())) == S.Route(graph, old(Now()), x, v)
    {
      var n := graph.nodes[x];
      ok := true;
      if n.kind.IsItem() && v.ends.Raises? {
        ok := false;
      } else if n.kind.IsItem() && v.ends.Yes? {
        trace := trace + [NodeFinished(n.parent.value, false)];
        if !otherBranch {
          ExtendPath(graph.nodes[n.parent.value].downstream);
        }
      } else if otherBranch {
      } else if n.kind.IsRouter() {
        if v.next.None? {
          ok := false;
        } else {
          ExtendPath(v.next.value);
        }
      } else if n.kind.IsContainer() {
        ExtendPath([Start(graph, x)]);
      } else if n.kind.ExitLoop? && graph.nodes[n.parent.value].kind.Loop? {
        ExtendPath(graph.nodes[n.parent.value].downstream);
      } else if n.downstream == [] && n.parent.Some? {
        ExtendPath([Start(graph, n.parent.value)]);
      } else {
        ExtendPath(n.downstream);
      }
    }

    method PostProcessAll(from: nat) returns (ok: bool)
      requires Valid() && from <= |path|
      modifies this
      ensures old(path) <= path
      ensures (if ok then S.Done(Now()) else S.Raised(Now())) ==
              S.PostProcessAll(graph, env, old(Now()), from, old(|path|))
    {
      hide S.PostProcess, NamesFillUp;
      var end := |path|;
      ghost var before := path;
      assert path[..end] == path;
      for i := from to end
        invariant end <= |path| && path[..end] == before
        invariant S.PostProcessAll(graph, env, Now(), i, end) ==
                  S.PostProcessAll(graph, env, old(Now()), from, old(|path|))
      {
        assert path[i] == before[i];
        ok := PostProcess(path[i]);
        assert path[..end] == before;
        if !ok {
          return;
        }
      }
      ok := true;
    }

    /** One turn of the main loop: None means go on at `next`. */
    method Turn(idx: nat, canceled: bool) returns (ending: Option<Ending>, next: nat)
      requires Valid() && idx <= |path|
      modifies this
      ensures match S.Round(graph, env, old(Now()), idx, canceled)
              case Next(t, i) => ending.None? && Now() == t && next == i
              case Exits(e) => ending.Some? && ExitOf(ending.value, Now()) == e
    {
      hide S.RunBatch, S.PostProcessAll, NamesFillUp, S.Selected, S.Begun, WellFormed, IsFillUp;
      next := idx;
      trace := trace + S.Begun(path[idx..]);
      if canceled {
        return Some(Aborted), next;
      }
      RunBatch(idx);
      var end := |path|;
      assert path[..end] == path;
      var ok := PostProcessAll(idx);
      if !ok {
        return Some(Aborted), next;
      }
      if !error.NoError? {
        CloseAt(idx);
        return Some(Stopped), next;
      }
      if !Known(graph, path) {
        return Some(Aborted), next;
      }
      if exists x <- path[end..] :: IsFillUp(graph, x) {
        path := S.Selected(graph, path[end..], true) + S.Selected(graph, path[end..], false);
        trace := trace + [UserInputs];
        return Some(Paused), next;
      }
      return None, end;
    }

    method CloseAt(idx: nat)
      requires idx <= |path|
      modifies this`path, this`trace
      ensures Now() == S.Close(old(Now()), idx)
      ensures path <= old(path) && |path| == idx && old(trace) <= trace
    {
      path := path[..idx];
      if !error.Failed? {
        trace := trace + [WorkflowFinished];
      } else {
        assert trace + [] == trace;
      }
    }

    /** A whole run. The scheduler theorems apply to the path and the events it leaves. */
    method Run(early: bool, budget: nat) returns (ending: Ending)
      requires Valid()
      modifies this
      ensures ExitOf(ending, Now()) == S.Run(graph, env, old(path), old(world), early, budget)
      ensures EventTrace.WellFormedTrace(graph, Now())
      ensures !early ==> EventTrace.ClosesAs(ExitOf(ending, Now())) && [WorkflowStarted] <= trace
      ensures !ending.Aborted? && Safety.DependencyInvariant(graph, old(path)) ==>
                Valid() && Safety.DependencyInvariant(graph, path)
    {
      hide EventTrace.WellFormedTrace, EventTrace.ClosesAs, Safety.DependencyInvariant;
      hide S.Run, S.RunStart, WellFormed, NamesFillUp;
      EventTrace.RunHasWellFormedTrace(graph, env, path, world, early, budget);
      EventTrace.RunOpensAndCloses(graph, env, path, world, early, budget);
      if Safety.DependencyInvariant(graph, path) {
        Safety.RunKeepsTheInvariant(graph, env, path, world, early, budget);
      }
      EventTrace.KnownStart(graph, path);
      ending := RunToEnd(early, budget);
    }

    method RunToEnd(early: bool, budget: nat) returns (ending: Ending)
      requires Valid() && Known(graph, S.RunStart(path))
      modifies this
      ensures ExitOf(ending, Now()) == S.Run(graph, env, old(path), old(world), early, budget)
    {
      hide S.Round, NamesFillUp, WellFormed;
      partials, error, trace := [], S.NoError, [];
      world := env.open(world);
      if path == [] || !NamesFillUp(path[|path| - 1]) {
        path := path + [BEGIN];
      }
      if early {
        return Aborted;
      }
      trace := [WorkflowStarted];
      var idx: nat, left: nat := |path| - 1, budget;
      assert Now() == S.Opened(env, old(path), old(world));
      while idx < |path|
        invariant Valid() && idx <= |path| && left <= budget
        invariant S.RunFrom(graph, env, Now(), idx, left) == S.Run(graph, env, old(path), old(world), early, budget)
        decreases left
      {
        var stop, next := Turn(idx, left == 0);
        if stop.Some? {
          return stop.value;
        }
        idx, left := next, left - 1;
      }
      CloseAt(idx);
      return Finished;
    }
  }
}
