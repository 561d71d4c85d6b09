/** One run of a workflow, as functions on states.

    Everything a component does when it is invoked is left to an environment over an
    arbitrary world `W`: `batch` is the effect of running a batch of components side by
    side, `view` is what the scheduler reads off a component afterwards. */
module Scheduler {
  import opened Workflow

  datatype Error = NoError | Canceled | Failed

  datatype Ends = Yes | No | Raises

  /** `streaming`: the output named content is an unread stream.
      `ends`: the answer of an item node to "is the iteration over?".
      `next`: the targets a categorize or switch node chose, None when it chose nothing. */
  datatype View = View(error: Error, streaming: bool, ends: Ends, next: Option<seq<Id>>)

  datatype Env<!W> = Env(
    open: W -> W,
    batch: (W, seq<Id>) -> W,
    view: (W, Id) -> View,
    deliver: (W, Id) -> W,
    settle: (W, Id, bool) -> W)

  /** `partials` are the nodes whose node_finished is held back. */
  datatype State<W> = State(
    path: seq<Id>, partials: seq<Id>, error: Error, trace: seq<Event>, world: W)

  datatype Step<W> = Done(st: State<W>) | Raised(st: State<W>)

  datatype Exit<W> =
    | Finished(st: State<W>)
    | Stopped(st: State<W>)
    | Paused(st: State<W>)
    | Aborted(st: State<W>)

  // ---------- Batches ----------

  /** May `x` run right after the entries of `before`? */
  predicate Ready(g: Graph, before: seq<Id>, x: Id)
    requires x in g.nodes
  {
    || g.nodes[x].kind.IsEntry()
    || (forall r <- g.nodes[x].refs :: r in before)
    || NamesFillUp((before + [x])[0])
  }

  /** The greedy fold over the pending entries: keep an entry when it is ready after
      everything kept so far, forget it otherwise. */
  function Kept(g: Graph, before: seq<Id>, pending: seq<Id>): (r: seq<Id>)
    requires Known(g, pending)
    ensures before <= r && |r| <= |before| + |pending|
    ensures Known(g, before) ==> Known(g, r)
    decreases |pending|
  {
    if pending == [] then before
    else if Ready(g, before, pending[0]) then Kept(g, before + [pending[0]], pending[1..])
    else Kept(g, before, pending[1..])
  }

  // ---------- Post-processing of one entry ----------

  function AppendId(path: seq<Id>, x: Id): (r: seq<Id>)
    requires path != []
    ensures path <= r
  {
    if path[|path| - 1] == x then path else path + [x]
  }

  function ExtendIds(path: seq<Id>, ids: seq<Id>): (r: seq<Id>)
    requires path != []
    ensures path <= r
    decreases |ids|
  {
    if ids == [] then path else ExtendIds(AppendId(path, ids[0]), ids[1..])
  }

  function Held(ids: seq<Id>): (r: seq<Event>)
    ensures |r| == |ids|
  {
    seq(|ids|, i requires 0 <= i < |ids| => NodeFinished(ids[i], true))
  }

  /** How many leading entries of `partials` no longer stream. */
  function Drainable<W>(env: Env<W>, w: W, partials: seq<Id>): (k: nat)
    ensures k <= |partials|
    ensures forall j | 0 <= j < k :: !env.view(w, partials[j]).streaming
    ensures k < |partials| ==> env.view(w, partials[k]).streaming
  {
    if partials == [] || env.view(w, partials[0]).streaming then 0
    else 1 + Drainable(env, w, partials[1..])
  }

  function Deliver<W>(g: Graph, env: Env<W>, s: State<W>, x: Id): State<W>
    requires x in g.nodes
  {
    if g.nodes[x].kind.Message? then
      var w := env.deliver(s.world, x);
      var k := Drainable(env, w, s.partials);
      s.(world := w, partials := s.partials[k..],
         trace := s.trace + [Event.Message(x), MessageEnd(x)] + Held(s.partials[..k]))
    else s
  }

  predicate TakesGoto(n: Node, v: View) {
    !v.error.NoError? && n.handler.Handler? && n.handler.goto != []
  }

  function Recover<W>(g: Graph, s: State<W>, x: Id, v: View): State<W>
    requires x in g.nodes
  {
    var n := g.nodes[x];
    if v.error.NoError? then s
    else if TakesGoto(n, v) then s.(path := s.path + n.handler.goto)
    else if n.handler.Handler? && n.handler.hasDefault then s.(trace := s.trace + [Event.Message(x), MessageEnd(x)])
    else s.(error := v.error)
  }

  function Conclude<W>(g: Graph, env: Env<W>, s: State<W>, x: Id, v: View): State<W>
    requires x in g.nodes
  {
    var t := s.(world := env.settle(s.world, x, !s.error.NoError?));
    if g.nodes[x].kind.IsContainer() then t
    else if v.streaming && s.error.NoError? then t.(partials := s.partials + [x], trace := s.trace + [NodeHeld(x)])
    else t.(trace := s.trace + [NodeFinished(x, false)])
  }

  predicate ItemEnds(n: Node, v: View) { n.kind.IsItem() && v.ends.Yes? }

  /** Where control goes after `x`; None when the router chose nothing. */
  function Successors(g: Graph, x: Id, v: View): Option<seq<Id>>
    requires WellFormed(g) && x in g.nodes
  {
    var n := g.nodes[x];
    if ItemEnds(n, v) then Some(g.nodes[n.parent.value].downstream)
    else if n.kind.IsRouter() then v.next
    else if n.kind.IsContainer() then Some([Start(g, x)])
    else if n.kind.ExitLoop? && g.nodes[n.parent.value].kind.Loop? then Some(g.nodes[n.parent.value].downstream)
    else if n.downstream == [] && n.parent.Some? then Some([Start(g, n.parent.value)])
    else Some(n.downstream)
  }

  function Route<W>(g: Graph, s: State<W>, x: Id, v: View): (r: Step<W>)
    requires WellFormed(g) && x in g.nodes && s.path != []
    ensures s.path <= r.st.path
  {
    var n := g.nodes[x];
    if n.kind.IsItem() && v.ends.Raises? then Raised(s)
    else
      var t := if ItemEnds(n, v) then s.(trace := s.trace + [NodeFinished(n.parent.value, false)]) else s;
      if TakesGoto(n, v) then Done(t)
      else match Successors(g, x, v)
        case None => Raised(t)
        case Some(ids) => Done(t.(path := ExtendIds(t.path, ids)))
  }

  function PostProcess<W>(g: Graph, env: Env<W>, s: State<W>, x: Id): (r: Step<W>)
    requires WellFormed(g) && x in g.nodes && s.path != []
    ensures s.path <= r.st.path
  {
    var s1 := Deliver(g, env, s, x);
    var v := env.view(s1.world, x);
    Route(g, Conclude(g, env, Recover(g, s1, x, v), x, v), x, v)
  }

  function PostProcessAll<W>(g: Graph, env: Env<W>, s: State<W>, i: nat, end: nat): (r: Step<W>)
    requires WellFormed(g) && i <= end <= |s.path| && Known(g, s.path[..end])
    ensures s.path <= r.st.path
    decreases end - i
  {
    if i == end then Done(s)
    else
      var x := s.path[i];
      assert x in s.path[..end];
      match PostProcess(g, env, s, x)
      case Raised(t) => Raised(t)
      case Done(t) =>
        assert t.path[..end] == s.path[..end];
        PostProcessAll(g, env, t, i + 1, end)
  }

  // ---------- Rounds and runs ----------

  function Begun(ids: seq<Id>): (r: seq<Event>)
    ensures |r| == |ids|
  {
    seq(|ids|, i requires 0 <= i < |ids| => NodeStarted(ids[i]))
  }

  function Announce<W>(s: State<W>, idx: nat): State<W>
    requires idx <= |s.path|
  {
    s.(trace := s.trace + Begun(s.path[idx..]))
  }

  function RunBatch<W>(g: Graph, env: Env<W>, s: State<W>, idx: nat): (r: State<W>)
    requires idx <= |s.path| && Known(g, s.path)
    ensures s.path[..idx] <= r.path && Known(g, r.path)
  {
    KnownSlice(g, s.path, idx);
    var kept := Kept(g, s.path[..idx], s.path[idx..]);
    s.(path := kept, world := env.batch(s.world, kept[idx..]))
  }

  lemma KnownSlice(g: Graph, ids: seq<Id>, k: nat)
    requires Known(g, ids) && k <= |ids|
    ensures Known(g, ids[..k]) && Known(g, ids[k..])
  {
    forall x | x in ids[..k] ensures x in ids {}
    forall x | x in ids[k..] ensures x in ids {}
  }

  /** How one turn of the main loop leaves it. */
  datatype Turn<W> =
    | Next(st: State<W>, idx: nat)
    | Exits(exit: Exit<W>)

  function Selected(g: Graph, ids: seq<Id>, fillUps: bool): (r: seq<Id>)
  {
    if ids == [] then []
    else if IsFillUp(g, ids[0]) == fillUps then [ids[0]] + Selected(g, ids[1..], fillUps)
    else Selected(g, ids[1..], fillUps)
  }

  function Pause<W>(g: Graph, s: State<W>, idx: nat): State<W>
    requires idx <= |s.path|
  {
    s.(path := Selected(g, s.path[idx..], true) + Selected(g, s.path[idx..], false),
       trace := s.trace + [UserInputs])
  }

  /** A turn emits node_started for every pending entry, runs the batch, post-processes it,
      and decides what comes next. `canceled`: the batch finds the task canceled. */
  function Round<W>(g: Graph, env: Env<W>, s: State<W>, idx: nat, canceled: bool): (r: Turn<W>)
    requires WellFormed(g) && idx <= |s.path| && Known(g, s.path)
    ensures r.Next? ==> idx <= r.idx <= |r.st.path| && Known(g, r.st.path) && s.path[..idx] <= r.st.path
    ensures r.Next? ==> !canceled && r.st.error.NoError?
    ensures canceled ==> r.Exits? && r.exit.Aborted?
    ensures r.Exits? ==> !r.exit.Finished?
  {
    var s1 := Announce(s, idx);
    if canceled then Exits(Aborted(s1))
    else
      var s2 := RunBatch(g, env, s1, idx);
      var end := |s2.path|;
      assert s2.path[..end] == s2.path;
      match PostProcessAll(g, env, s2, idx, end)
      case Raised(t) => Exits(Aborted(t))
      case Done(t) =>
        if !t.error.NoError? then Exits(Stopped(Close(t, idx)))
        else if !Known(g, t.path) then Exits(Aborted(t))
        else if exists x <- t.path[end..] :: IsFillUp(g, x) then Exits(Paused(Pause(g, t, end)))
        else Next(t, end)
  }

  /** The end of a run: forget what never ran, and report. */
  function Close<W>(s: State<W>, idx: nat): State<W>
    requires idx <= |s.path|
  {
    s.(path := s.path[..idx],
       trace := s.trace + if s.error.Failed? then [] else [WorkflowFinished])
  }

  /** `budget` is the number of batches that start before the task is found canceled. */
  function RunFrom<W>(g: Graph, env: Env<W>, s: State<W>, idx: nat, budget: nat): (r: Exit<W>)
    requires WellFormed(g) && idx <= |s.path| && Known(g, s.path)
    decreases budget
  {
    if idx == |s.path| then Finished(Close(s, idx))
    else match Round(g, env, s, idx, budget == 0)
      case Exits(e) => e
      case Next(t, next) => RunFrom(g, env, t, next, budget - 1)
  }

  function RunStart(path: seq<Id>): (r: seq<Id>)
    ensures r != [] && path <= r
  {
    if path == [] || !NamesFillUp(path[|path| - 1]) then path + [BEGIN] else path
  }

  function Opened<W>(env: Env<W>, path: seq<Id>, w: W): State<W> {
    State(RunStart(path), [], NoError, [WorkflowStarted], env.open(w))
  }

  /** A whole run on the saved path; `early`: the task is canceled before anything starts. */
  function Run<W>(g: Graph, env: Env<W>, path: seq<Id>, w: W, early: bool, budget: nat): (r: Exit<W>)
    requires WellFormed(g) && Known(g, path)
  {
    if early then Aborted(Opened(env, path, w).(trace := []))
    else RunFrom(g, env, Opened(env, path, w), |RunStart(path)| - 1, budget)
  }
}
