/** What happens to one entry of a batch, said in terms of what its component is and answers. */
module SchedulerLaws {
  import opened Workflow
  import opened Scheduler
  import opened SchedulerSafety

  // ---------- The filter ----------

  /** Behind a user fill-up nothing is dropped, whatever it refers to. */
  lemma {:induction false} FillUpsWaiveDependencies(g: Graph, before: seq<Id>, pending: seq<Id>)
    requires Known(g, pending)
    requires before + pending != [] && NamesFillUp((before + pending)[0])
    ensures Kept(g, before, pending) == before + pending
    decreases |pending|
  {
    hide NamesFillUp;
    if pending == [] {
      assert before + pending == before;
    } else {
      var x := pending[0];
      assert x in pending && forall y <- pending[1..] :: y in pending;
      assert (before + [x])[0] == (before + pending)[0];
      assert before + [x] + pending[1..] == before + pending;
      FillUpsWaiveDependencies(g, before + [x], pending[1..]);
    }
  }

  /** Nothing that the filter could go by waives the dependencies of `x`, and one is not met. */
  predicate MustWait(g: Graph, before: seq<Id>, x: Id)
    requires x in g.nodes
  {
    && g.nodes[x].kind != Begin && g.nodes[x].kind != UserFillUp
    && (exists r <- g.nodes[x].refs :: r !in before)
    && !NamesFillUp(if before == [] then x else before[0])
  }

  /** An entry is dropped if and only if it is neither a begin nor a user fill-up, refers to a
      component that was not kept before it, and the path starts with no fill-up. */
  lemma DroppedExactly(g: Graph, before: seq<Id>, a: seq<Id>, x: Id, b: seq<Id>)
    requires Known(g, a + [x] + b)
    ensures Known(g, a) && x in g.nodes && Known(g, b)
    ensures var mid := Kept(g, before, a);
            Kept(g, before, a + [x] + b) == Kept(g, if MustWait(g, mid, x) then mid else mid + [x], b)
  {
    hide NamesFillUp, Kept;
    KeptSplits(g, before, a, x, b);
    var mid := Kept(g, before, a);
    assert (mid + [x])[0] == if mid == [] then x else mid[0];
  }

  lemma LowerOf(s: string)
    requires |s| == 10
    ensures Lower(s) == [LowerChar(s[0]), LowerChar(s[1]), LowerChar(s[2]), LowerChar(s[3]), LowerChar(s[4]),
                         LowerChar(s[5]), LowerChar(s[6]), LowerChar(s[7]), LowerChar(s[8]), LowerChar(s[9])]
  {
  }

  /** An id names a fill-up by containing the word, whatever the case of its letters. */
  lemma NamesOfFillUps(a: string, b: string)
    ensures NamesFillUp(a + "userfillup" + b) && NamesFillUp(a + "UserFillUp" + b)
    ensures !NamesFillUp(BEGIN) && !NamesFillUp("Message:0")
  {
    LowerOf("userfillup");
    LowerOf("UserFillUp");
    var s, t := a + "userfillup" + b, a + "UserFillUp" + b;
    assert s[|a|..|a| + 10] == "userfillup" && t[|a|..|a| + 10] == "UserFillUp";
    assert MarkedAt(s, |a|) && MarkedAt(t, |a|);
  }

  // ---------- Where control goes ----------

  /** What a component answers after its message, if it has one, has been delivered. */
  function Answer<W>(g: Graph, env: Env<W>, s: State<W>, x: Id): View
    requires x in g.nodes
  {
    env.view(if g.nodes[x].kind == Kind.Message then env.deliver(s.world, x) else s.world, x)
  }

  /** An error sends control to the targets declared for it. */
  predicate SentOn(n: Node, v: View) { v.error != NoError && n.handler.Handler? && n.handler.goto != [] }

  /** The path after `ids` have been queued behind it. */
  function Queued(path: seq<Id>, ids: seq<Id>): seq<Id>
    requires path != []
  {
    path + NoRepeats(path[|path| - 1], ids)
  }

  predicate LeadsTo<W>(g: Graph, env: Env<W>, s: State<W>, x: Id, ids: seq<Id>)
    requires WellFormed(g) && x in g.nodes && s.path != []
  {
    var r := PostProcess(g, env, s, x);
    r.Done? && r.st.path == Queued(s.path, ids)
  }

  /** The targets that were found are queued. */
  lemma LeadsWhere<W>(g: Graph, env: Env<W>, s: State<W>, x: Id, ids: seq<Id>)
    requires WellFormed(g) && x in g.nodes && s.path != [] && !SentOn(g.nodes[x], Answer(g, env, s, x))
    requires (g.nodes[x].kind.IsItem() ==> Answer(g, env, s, x).ends != Raises)
    requires Successors(g, x, Answer(g, env, s, x)) == Some(ids)
    ensures LeadsTo(g, env, s, x, ids)
  {
    hide WellFormed, Held, Drainable, ExtendIds, Successors, NoRepeats;
    ExtensionDropsRepeats(s.path, ids);
  }

  /** After an error the declared targets are queued, all of them and in order, and nothing else;
      only an item node that cannot tell whether it is over raises. */
  lemma ErrorsAreSentOn<W>(g: Graph, env: Env<W>, s: State<W>, x: Id)
    requires WellFormed(g) && x in g.nodes && s.path != []
    requires SentOn(g.nodes[x], Answer(g, env, s, x))
    ensures var r, n := PostProcess(g, env, s, x), g.nodes[x];
            && r.st.path == s.path + n.handler.goto
            && (r.Raised? <==> (n.kind == IterationItem || n.kind == LoopItem) && Answer(g, env, s, x).ends == Raises)
  {
    hide WellFormed, Held, Drainable, ExtendIds, Successors;
  }

  /** A categorize or switch node leads to what it chose, and raises when it chose nothing. */
  lemma RoutersLeadToTheirChoice<W>(g: Graph, env: Env<W>, s: State<W>, x: Id)
    requires WellFormed(g) && x in g.nodes && s.path != []
    requires g.nodes[x].kind == Categorize || g.nodes[x].kind == Kind.Switch
    requires !SentOn(g.nodes[x], Answer(g, env, s, x))
    ensures var v := Answer(g, env, s, x);
            if v.next == None then PostProcess(g, env, s, x).Raised? && PostProcess(g, env, s, x).st.path == s.path
            else LeadsTo(g, env, s, x, v.next.value)
  {
    hide WellFormed, Held, Drainable, ExtendIds, LeadsTo;
    var v := Answer(g, env, s, x);
    if v.next.Some? {
      LeadsWhere(g, env, s, x, v.next.value);
    }
  }

  /** An iteration or loop node leads to its item node. */
  lemma ContainersLeadInside<W>(g: Graph, env: Env<W>, s: State<W>, x: Id)
    requires WellFormed(g) && x in g.nodes && s.path != []
    requires g.nodes[x].kind == Kind.Iteration || g.nodes[x].kind == Kind.Loop
    requires !SentOn(g.nodes[x], Answer(g, env, s, x))
    ensures LeadsTo(g, env, s, x, [Start(g, x)])
    ensures var y := Start(g, x);
            && y in g.nodes && g.nodes[y].parent == Some(x)
            && g.nodes[y].kind == if g.nodes[x].kind == Kind.Loop then LoopItem else IterationItem
  {
    hide WellFormed, LeadsTo;
    LeadsWhere(g, env, s, x, [Start(g, x)]);
  }

  /** An item node that is over leads to what follows its container; one that cannot tell raises. */
  lemma SpentItemsLeadOn<W>(g: Graph, env: Env<W>, s: State<W>, x: Id)
    requires WellFormed(g) && x in g.nodes && s.path != []
    requires g.nodes[x].kind == IterationItem || g.nodes[x].kind == LoopItem
    requires !SentOn(g.nodes[x], Answer(g, env, s, x))
    ensures g.nodes[x].parent.Some? && g.nodes[x].parent.value in g.nodes
    ensures Answer(g, env, s, x).ends == Yes ==> LeadsTo(g, env, s, x, g.nodes[g.nodes[x].parent.value].downstream)
    ensures Answer(g, env, s, x).ends == Raises ==>
              PostProcess(g, env, s, x).Raised? && PostProcess(g, env, s, x).st.path == s.path
  {
    hide Held, Drainable, ExtendIds, StartIn, NamesFillUp, LeadsTo;
    if Answer(g, env, s, x).ends == Yes {
      LeadsWhere(g, env, s, x, g.nodes[g.nodes[x].parent.value].downstream);
    }
  }

  /** An exit node inside a loop leads to what follows the loop. */
  lemma ExitsLeadOn<W>(g: Graph, env: Env<W>, s: State<W>, x: Id)
    requires WellFormed(g) && x in g.nodes && s.path != []
    requires g.nodes[x].kind == ExitLoop && !SentOn(g.nodes[x], Answer(g, env, s, x))
    ensures g.nodes[x].parent.Some? && g.nodes[x].parent.value in g.nodes
    ensures g.nodes[g.nodes[x].parent.value].kind == Kind.Loop ==>
              LeadsTo(g, env, s, x, g.nodes[g.nodes[x].parent.value].downstream)
  {
    hide StartIn, NamesFillUp, LeadsTo;
    if g.nodes[g.nodes[x].parent.value].kind == Kind.Loop {
      LeadsWhere(g, env, s, x, g.nodes[g.nodes[x].parent.value].downstream);
    }
  }

  /** None of the special cases: not a router or a container, not an item node that is over, not
      an exit from a loop. */
  predicate IsOrdinary(g: Graph, x: Id, v: View)
    requires x in g.nodes
  {
    var n := g.nodes[x];
    && n.kind != Categorize && n.kind != Kind.Switch && n.kind != Kind.Iteration && n.kind != Kind.Loop
    && ((n.kind == IterationItem || n.kind == LoopItem) ==> v.ends == No)
    && (n.kind == ExitLoop && n.parent.Some? && n.parent.value in g.nodes ==> g.nodes[n.parent.value].kind != Kind.Loop)
  }

  lemma OrdinarySuccessors(g: Graph, x: Id, v: View) returns (ids: seq<Id>)
    requires WellFormed(g) && x in g.nodes && IsOrdinary(g, x, v)
    ensures Successors(g, x, v) == Some(ids) && (g.nodes[x].kind.IsItem() ==> v.ends != Raises)
    ensures var n := g.nodes[x];
            && (n.downstream != [] || n.parent == None ==> ids == n.downstream)
            && (n.downstream == [] && n.parent.Some? ==>
                && n.parent.value in g.nodes && g.nodes[n.parent.value].kind.IsContainer()
                && ids == [Start(g, n.parent.value)])
  {
    hide StartIn, NamesFillUp;
    var n := g.nodes[x];
    ids := if n.downstream == [] && n.parent.Some? then [Start(g, n.parent.value)] else n.downstream;
  }

  /** Everything else leads downstream, or, at the end of a body, back to the item node. */
  lemma OthersLeadDownstream<W>(g: Graph, env: Env<W>, s: State<W>, x: Id)
    requires WellFormed(g) && x in g.nodes && s.path != []
    requires IsOrdinary(g, x, Answer(g, env, s, x)) && !SentOn(g.nodes[x], Answer(g, env, s, x))
    ensures var n := g.nodes[x];
            && (n.downstream != [] || n.parent == None ==> LeadsTo(g, env, s, x, n.downstream))
            && (n.downstream == [] && n.parent.Some? ==>
                && n.parent.value in g.nodes && g.nodes[n.parent.value].kind.IsContainer()
                && LeadsTo(g, env, s, x, [Start(g, n.parent.value)]))
  {
    hide WellFormed, IsOrdinary, SentOn, LeadsTo, Successors;
    var ids := OrdinarySuccessors(g, x, Answer(g, env, s, x));
    LeadsWhere(g, env, s, x, ids);
  }

  // ---------- What is reported ----------

  predicate IsContainerKind(k: Kind) { k == Kind.Iteration || k == Kind.Loop }

  /** The error is answered for by a default. */
  predicate AnsweredFor(n: Node, v: View) {
    v.error != NoError && !SentOn(n, v) && n.handler.Handler? && n.handler.hasDefault
  }

  function WorldSeen<W>(g: Graph, env: Env<W>, s: State<W>, x: Id): W
    requires x in g.nodes
  {
    if g.nodes[x].kind == Kind.Message then env.deliver(s.world, x) else s.world
  }

  /** An error that is neither sent on nor answered for becomes the error of the run, and the
      component is settled in its light. */
  lemma ErrorsAreRecorded<W>(g: Graph, env: Env<W>, s: State<W>, x: Id)
    requires WellFormed(g) && x in g.nodes && s.path != []
    ensures var t, v, n := PostProcess(g, env, s, x).st, Answer(g, env, s, x), g.nodes[x];
            && t.error == (if v.error == NoError || SentOn(n, v) || AnsweredFor(n, v) then s.error else v.error)
            && t.world == env.settle(WorldSeen(g, env, s, x), x, t.error != NoError)
  {
    hide WellFormed, Route, Deliver, Successors, PostProcess, LateReports;
    DeliverEvents(g, env, s, x);
    var s1, s2, s3 := Stages(g, env, s, x);
    RouteKeeps(g, s3, x, Answer(g, env, s, x));
  }

  /** The component is held back: it streams, and the run has no error. */
  predicate IsHeld<W>(g: Graph, env: Env<W>, s: State<W>, x: Id)
    requires WellFormed(g) && x in g.nodes && s.path != []
  {
    && !IsContainerKind(g.nodes[x].kind) && Answer(g, env, s, x).streaming
    && PostProcess(g, env, s, x).st.error == NoError
  }

  /** How many nodes that were held back before are no longer. */
  function Released<W>(g: Graph, env: Env<W>, s: State<W>, x: Id): int
    requires WellFormed(g) && x in g.nodes && s.path != []
  {
    |s.partials| + (if IsHeld(g, env, s, x) then 1 else 0) - |PostProcess(g, env, s, x).st.partials|
  }

  /** Everything up to where control goes. */
  lemma Stages<W>(g: Graph, env: Env<W>, s: State<W>, x: Id) returns (s1: State<W>, s2: State<W>, s3: State<W>)
    requires WellFormed(g) && x in g.nodes && s.path != []
    ensures var v, n := Answer(g, env, s, x), g.nodes[x];
            && s1 == Deliver(g, env, s, x) && s2 == Recover(g, s1, x, v) && s3 == Conclude(g, env, s2, x, v)
            && PostProcess(g, env, s, x) == Route(g, s3, x, v) && s3.path != []
  {
    hide WellFormed, Route, TakesGoto, Held, Drainable;
    s1 := Deliver(g, env, s, x);
    s2 := Recover(g, s1, x, Answer(g, env, s, x));
    s3 := Conclude(g, env, s2, x, Answer(g, env, s, x));
  }

  lemma RouteKeeps<W>(g: Graph, s: State<W>, x: Id, v: View)
    requires WellFormed(g) && x in g.nodes && s.path != []
    ensures g.nodes[x].kind == IterationItem || g.nodes[x].kind == LoopItem ==> g.nodes[x].parent.Some?
    ensures var n, t := g.nodes[x], Route(g, s, x, v).st;
            var end := if (n.kind == IterationItem || n.kind == LoopItem) && v.ends == Yes
                       then [NodeFinished(n.parent.value, false)] else [];
            t.partials == s.partials && t.error == s.error && t.world == s.world && t.trace == s.trace + end
  {
    hide StartIn, NamesFillUp, IsFillUp, ExtendIds, TakesGoto, Successors;
    assert s.trace + [] == s.trace;
  }

  lemma DeliverEvents<W>(g: Graph, env: Env<W>, s: State<W>, x: Id)
    requires x in g.nodes
    ensures var t, w, held := Deliver(g, env, s, x), WorldSeen(g, env, s, x), s.partials;
            var k := |held| - |t.partials|;
            var message := if g.nodes[x].kind == Kind.Message then [Event.Message(x), MessageEnd(x)] else [];
            && 0 <= k <= |held| && t.partials == held[k..] && t.world == w && t.error == s.error
            && (g.nodes[x].kind != Kind.Message ==> k == 0)
            && (g.nodes[x].kind == Kind.Message ==>
                && (forall j | 0 <= j < k :: !env.view(w, held[j]).streaming)
                && (k < |held| ==> env.view(w, held[k]).streaming))
            && t.trace == s.trace + message + LateReports(held[..k])
  {
    hide Drainable;
    var held := s.partials;
    var k := if g.nodes[x].kind == Kind.Message then Drainable(env, WorldSeen(g, env, s, x), held) else 0;
    assert |held| - |Deliver(g, env, s, x).partials| == k;
    HeldAreLate(held[..k]);
    assert held[0..] == held && held[..0] == [];
    assert s.trace + [] + LateReports(held[..0]) == s.trace;
  }

  function LateReports(ids: seq<Id>): seq<Event> {
    if ids == [] then [] else LateReports(ids[..|ids| - 1]) + [NodeFinished(ids[|ids| - 1], true)]
  }

  lemma {:induction false} HeldAreLate(ids: seq<Id>)
    ensures Held(ids) == LateReports(ids)
  {
    if ids != [] {
      HeldAreLate(ids[..|ids| - 1]);
      assert Held(ids) == Held(ids[..|ids| - 1]) + [NodeFinished(ids[|ids| - 1], true)];
    }
  }

  /** A component that streams is held back, behind all others, and stays so until a message has
      been delivered and no node before it streams any more; then it is released. */
  lemma StreamsAreHeldBack<W>(g: Graph, env: Env<W>, s: State<W>, x: Id)
    requires WellFormed(g) && x in g.nodes && s.path != []
    ensures var k, t := Released(g, env, s, x), PostProcess(g, env, s, x).st;
            var w, held := WorldSeen(g, env, s, x), s.partials;
            && 0 <= k <= |held|
            && t.partials == held[k..] + (if IsHeld(g, env, s, x) then [x] else [])
            && (g.nodes[x].kind != Kind.Message ==> k == 0)
            && (g.nodes[x].kind == Kind.Message ==>
                && (forall j | 0 <= j < k :: !env.view(w, held[j]).streaming)
                && (k < |held| ==> env.view(w, held[k]).streaming))
  {
    hide WellFormed, Route, Deliver, TakesGoto, Successors, PostProcess;
    DeliverEvents(g, env, s, x);
    var s1, s2, s3 := Stages(g, env, s, x);
    RouteKeeps(g, s3, x, Answer(g, env, s, x));
  }

  /** The events of one entry, in order: its message, and then the reports of the nodes released
      by it; a default answer; its own report, or the mark that it is held back; and at the end of
      an iteration or loop the report of that. */
  lemma EventsOfAnEntry<W>(g: Graph, env: Env<W>, s: State<W>, x: Id)
    requires WellFormed(g) && x in g.nodes && s.path != []
    ensures 0 <= Released(g, env, s, x) <= |s.partials|
    ensures g.nodes[x].kind == IterationItem || g.nodes[x].kind == LoopItem ==> g.nodes[x].parent.Some?
    ensures var n, v, k := g.nodes[x], Answer(g, env, s, x), Released(g, env, s, x);
            var message := if n.kind == Kind.Message then [Event.Message(x), MessageEnd(x)] else [];
            var late := LateReports(s.partials[..k]);
            var answer := if AnsweredFor(n, v) then [Event.Message(x), MessageEnd(x)] else [];
            var own := if IsContainerKind(n.kind) then [] else
                         [if IsHeld(g, env, s, x) then NodeHeld(x) else NodeFinished(x, false)];
            var end := if (n.kind == IterationItem || n.kind == LoopItem) && v.ends == Yes
                       then [NodeFinished(n.parent.value, false)] else [];
            PostProcess(g, env, s, x).st.trace == s.trace + message + late + answer + own + end
  {
    hide WellFormed, Route, Deliver, Successors, PostProcess, LateReports;
    DeliverEvents(g, env, s, x);
    StreamsAreHeldBack(g, env, s, x);
    var s1, s2, s3 := Stages(g, env, s, x);
    RouteKeeps(g, s3, x, Answer(g, env, s, x));
  }

  // ---------- The start of a run ----------

  /** A run begins at its last entry, with nothing held back, no error and the start reported;
      one that is canceled before does not get there. */
  lemma RunsOpen<W>(g: Graph, env: Env<W>, path: seq<Id>, w: W, budget: nat)
    requires WellFormed(g) && Known(g, path)
    ensures var start := if path != [] && NamesFillUp(path[|path| - 1]) then path else path + ["begin"];
            && Known(g, start)
            && Run(g, env, path, w, false, budget)
               == RunFrom(g, env, State(start, [], NoError, [WorkflowStarted], env.open(w)), |start| - 1, budget)
            && Run(g, env, path, w, true, budget) == Aborted(State(start, [], NoError, [], env.open(w)))
  {
    hide NamesFillUp, RunFrom;
  }

  // ---------- A turn ----------

  /** A turn reports every pending entry as started, in order, drops what must wait, and runs the
      rest as one batch. */
  lemma TurnsStartWhatIsPending<W>(g: Graph, env: Env<W>, s: State<W>, idx: nat)
    requires idx <= |s.path| && Known(g, s.path)
    ensures Known(g, s.path[idx..])
    ensures var t := Ran(g, env, s, idx);
            && t.trace == s.trace + Starts(s.path[idx..])
            && t.path == Kept(g, s.path[..idx], s.path[idx..])
            && t.world == env.batch(s.world, t.path[idx..])
            && t.partials == s.partials && t.error == s.error
  {
    KnownSlice(g, s.path, idx);
    BegunAreStarts(s.path[idx..]);
  }

  function Starts(ids: seq<Id>): seq<Event> {
    if ids == [] then [] else Starts(ids[..|ids| - 1]) + [NodeStarted(ids[|ids| - 1])]
  }

  lemma {:induction false} BegunAreStarts(ids: seq<Id>)
    ensures Begun(ids) == Starts(ids)
  {
    if ids != [] {
      BegunAreStarts(ids[..|ids| - 1]);
      assert Begun(ids) == Begun(ids[..|ids| - 1]) + [NodeStarted(ids[|ids| - 1])];
    }
  }

  /** How a turn ends that is not canceled: with `t` the state when its batch has been
      post-processed, and `end` where the batch ends on the path. */
  lemma TurnsEnd<W>(g: Graph, env: Env<W>, s: State<W>, idx: nat)
    requires WellFormed(g) && idx <= |s.path| && Known(g, s.path)
    ensures var p, end := Processed(g, env, s, idx), |Ran(g, env, s, idx).path|; var t := p.st;
            var r := Round(g, env, s, idx, false);
            var unknown := exists x <- t.path :: x !in g.nodes;
            var fillUp := exists x <- t.path[end..] :: x in g.nodes && g.nodes[x].kind == UserFillUp;
            && (p.Raised? || (t.error == NoError && unknown) ==> r == Exits(Aborted(t)))
            && (p.Done? && t.error != NoError ==> r.Exits? && r.exit.Stopped? && r.exit.st.path == s.path[..idx])
            && (p.Done? && t.error == NoError && !unknown && fillUp ==>
                && r.Exits? && r.exit.Paused? && r.exit.st.trace == t.trace + [UserInputs]
                && r.exit.st.path == Selected(g, t.path[end..], true) + Selected(g, t.path[end..], false))
            && (p.Done? && t.error == NoError && !unknown && !fillUp ==> r == Next(t, end))
  {
    hide Round, WellFormed, Processed, Ran, Selected;
    RoundIs(g, env, s, idx);
    RoundStopsAtFrontier(g, env, s, idx);
  }
}
