/** An iteration, run by the scheduler, is a map over its array. */
module IterationRun {
  import opened Workflow
  import opened Scheduler
  import opened SchedulerSafety
  import opened BodyPass
  import opened Iteration

  /** What component `c` of the body does to the outputs. */
  type Body<!V> = (Id, map<Port, V>) -> map<Port, V>

  function ItemView<V>(w: World<V>): View {
    View(if w.failed then Failed else NoError, false, if w.idx == -1 then Yes else No, None)
  }

  /** The environment runs the iteration, its item node and its body as such, without errors
      in the body. It is free to do anything with other components. */
  ghost predicate Behaves<V(!new)>(env: Env<World<V>>, cfg: Config<V>, body: Body<V>, cs: seq<Id>) {
    && (forall w: World<V> :: env.batch(w, [cfg.item]) == Invoked(cfg, w))
    && (forall w: World<V> :: env.view(w, cfg.item) == ItemView(w))
    && (forall w: World<V>, f: bool :: env.settle(w, cfg.item, f) == w)
    && (forall w: World<V> :: env.batch(w, [cfg.container]) == w)
    && (forall w: World<V> :: Calm(env.view(w, cfg.container)))
    && (forall w: World<V>, f: bool :: env.settle(w, cfg.container, f) == w)
    && (forall w: World<V>, c: Id | c in cs :: env.batch(w, [c]) == w.(vals := body(c, w.vals)))
    && (forall w: World<V>, c: Id | c in cs :: Calm(env.view(w, c)))
    && (forall w: World<V>, c: Id, f: bool | c in cs :: env.settle(w, c, f) == w)
  }

  function BodyVals<V>(body: Body<V>, vals: map<Port, V>, cs: seq<Id>): map<Port, V>
    decreases |cs|
  {
    if cs == [] then vals else BodyVals(body, body(cs[0], vals), cs[1..])
  }

  lemma {:induction false} ChainIsBody<V(!new)>(
    env: Env<World<V>>, cfg: Config<V>, body: Body<V>, all: seq<Id>, w: World<V>, cs: seq<Id>)
    requires Behaves(env, cfg, body, all) && forall c <- cs :: c in all
    ensures ChainWorld(env, w, cs) == w.(vals := BodyVals(body, w.vals, cs))
    decreases |cs|
  {
    if cs != [] {
      var w1 := w.(vals := body(cs[0], w.vals));
      assert env.batch(w, [cs[0]]) == w1 && env.settle(w1, cs[0], false) == w1;
      assert forall c <- cs[1..] :: c in cs;
      ChainIsBody(env, cfg, body, all, w1, cs[1..]);
    }
  }

  /** The outputs after the body has been run on the first `j` elements. */
  function ValsAfter<V>(cfg: Config<V>, body: Body<V>, cs: seq<Id>, vals: map<Port, V>, j: nat): map<Port, V>
    requires j <= |cfg.arr|
  {
    if j == 0 then vals
    else BodyVals(body, HandOut(cfg, ValsAfter(cfg, body, cs, vals, j - 1), cfg.arr[j - 1], j - 1), cs)
  }

  /** What has been collected when element `j` is about to be handed out. */
  function OutsAfter<V>(
    cfg: Config<V>, body: Body<V>, cs: seq<Id>, vals: map<Port, V>, outs: map<string, seq<V>>, j: nat)
    : map<string, seq<V>>
    requires j <= |cfg.arr| + 1
  {
    if j <= 1 then outs
    else Collated(cfg, ValsAfter(cfg, body, cs, vals, j - 1), OutsAfter(cfg, body, cs, vals, outs, j - 1))
  }

  /** The results of output `k`, one for each of the first `n` elements. */
  function Results<V>(cfg: Config<V>, body: Body<V>, cs: seq<Id>, vals: map<Port, V>, k: string, n: nat): (r: seq<V>)
    requires n <= |cfg.arr| && k in cfg.outputs
    ensures |r| == n
  {
    seq(n, j requires 0 <= j < n => Val(cfg, ValsAfter(cfg, body, cs, vals, j + 1), cfg.outputs[k]))
  }

  /** Each output gains its results, in order, and no others. */
  lemma {:induction false} CollectsResults<V>(
    cfg: Config<V>, body: Body<V>, cs: seq<Id>, vals: map<Port, V>, outs: map<string, seq<V>>, j: nat, k: string)
    requires 1 <= j <= |cfg.arr| + 1 && Collects(cfg, k)
    ensures Out(OutsAfter(cfg, body, cs, vals, outs, j), k) == Out(outs, k) + Results(cfg, body, cs, vals, k, j - 1)
    decreases j
  {
    hide ValsAfter, Collated, Val;
    if j == 1 {
      assert Results(cfg, body, cs, vals, k, 0) == [];
      assert Out(outs, k) + [] == Out(outs, k);
    } else {
      CollectsResults(cfg, body, cs, vals, outs, j - 1, k);
      CollatedOne(cfg, ValsAfter(cfg, body, cs, vals, j - 1), OutsAfter(cfg, body, cs, vals, outs, j - 1), k);
      ResultsSnoc(cfg, body, cs, vals, k, j - 1);
      Assoc(Out(outs, k), Results(cfg, body, cs, vals, k, j - 2),
            [Val(cfg, ValsAfter(cfg, body, cs, vals, j - 1), cfg.outputs[k])]);
    }
  }

  lemma CollatedOne<V>(cfg: Config<V>, vals: map<Port, V>, outs: map<string, seq<V>>, k: string)
    requires Collects(cfg, k)
    ensures k in cfg.outputs
    ensures Out(Collated(cfg, vals, outs), k) == Out(outs, k) + [Val(cfg, vals, cfg.outputs[k])]
  {
  }

  lemma ResultsSnoc<V>(cfg: Config<V>, body: Body<V>, cs: seq<Id>, vals: map<Port, V>, k: string, n: nat)
    requires 1 <= n <= |cfg.arr| && k in cfg.outputs
    ensures Results(cfg, body, cs, vals, k, n) ==
            Results(cfg, body, cs, vals, k, n - 1) + [Val(cfg, ValsAfter(cfg, body, cs, vals, n), cfg.outputs[k])]
  {
    hide ValsAfter, Val;
  }

  /** When the collected value is a function of the element alone, the results are that
      function mapped over the array. */
  lemma ResultsAreAMap<V(!new)>(cfg: Config<V>, body: Body<V>, cs: seq<Id>, vals: map<Port, V>, k: string, f: V -> V)
    requires k in cfg.outputs
    requires forall vs: map<Port, V>, a: V, i: int ::
               Val(cfg, BodyVals(body, HandOut(cfg, vs, a, i), cs), cfg.outputs[k]) == f(a)
    ensures Results(cfg, body, cs, vals, k, |cfg.arr|) == seq(|cfg.arr|, j requires 0 <= j < |cfg.arr| => f(cfg.arr[j]))
  {
    var r := Results(cfg, body, cs, vals, k, |cfg.arr|);
    forall j | 0 <= j < |cfg.arr|
      ensures r[j] == f(cfg.arr[j])
    {
      var given := HandOut(cfg, ValsAfter(cfg, body, cs, vals, j), cfg.arr[j], j);
      assert r[j] == Val(cfg, BodyVals(body, given, cs), cfg.outputs[k]);
    }
  }

  /** The item node is pending, and everything about the iteration is as it should be. */
  ghost predicate IterationSetup<V(!new)>(
    g: Graph, env: Env<World<V>>, cfg: Config<V>, body: Body<V>, cs: seq<Id>, base: seq<Id>)
  {
    && WellFormed(g)
    && IsChain(g, cfg.container, cfg.item, cs)
    && DependsBackwards(g, base, cfg.item, cs)
    && Behaves(env, cfg, body, cs)
  }

  lemma BehavedBodyIsCalm<V(!new)>(env: Env<World<V>>, cfg: Config<V>, body: Body<V>, cs: seq<Id>)
    requires Behaves(env, cfg, body, cs)
    ensures CalmBody(env, cs)
  {
  }

  /** One pass: the element at the current index is handed out and the body run on it. */
  lemma OnePass<V(!new)>(
    g: Graph, env: Env<World<V>>, cfg: Config<V>, body: Body<V>, cs: seq<Id>, base: seq<Id>,
    s: State<World<V>>, front: seq<Id>)
    requires IterationSetup(g, env, cfg, body, cs, base) && Pending(g, s, front, cfg.item)
    requires forall x <- base :: x in front
    requires -1 <= s.world.idx < |cfg.arr| && cfg.arr != [] && !s.world.failed
    ensures var r := After(g, env, s, |front|, |cs| + 1);
            && r.Next? && r.idx == |front| + |cs| + 1
            && Pending(g, r.st, front + [cfg.item] + cs, cfg.item)
            && r.st.world == World(
                 s.world.idx + 1, false,
                 BodyVals(body, HandOut(cfg, s.world.vals, Element(cfg, s.world.idx), s.world.idx), cs),
                 if s.world.idx > 0 then Collated(cfg, s.world.vals, s.world.outs) else s.world.outs)
  {
    hide After, Pending, IsChain, DependsBackwards, Collated, WellFormed, NamesFillUp, BodyVals, HandOut;
    var w := s.world;
    var w1 := Invoked(cfg, w);
    assert env.batch(w, [cfg.item]) == w1;
    assert env.view(w1, cfg.item) == ItemView(w1);
    assert env.settle(w1, cfg.item, false) == w1;
    BehavedBodyIsCalm(env, cfg, body, cs);
    ItemPass(g, env, cfg.container, cfg.item, cs, base, s, front);
    ChainIsBody(env, cfg, body, cs, w1, cs);
  }

  /** Any number of passes, from a fresh item node. */
  lemma {:induction false} Passes<V(!new)>(
    g: Graph, env: Env<World<V>>, cfg: Config<V>, body: Body<V>, cs: seq<Id>, base: seq<Id>,
    s: State<World<V>>, front: seq<Id>, j: nat)
    requires IterationSetup(g, env, cfg, body, cs, base) && Pending(g, s, front, cfg.item)
    requires forall x <- base :: x in front
    requires s.world.idx == 0 && !s.world.failed && j <= |cfg.arr|
    ensures var r := After(g, env, s, |front|, PassTurns(cs, j));
            && r.Next? && r.idx == |front| + PassTurns(cs, j)
            && Pending(g, r.st, front + Repeat([cfg.item] + cs, j), cfg.item)
            && r.st.world == World(j, false, ValsAfter(cfg, body, cs, s.world.vals, j),
                                   OutsAfter(cfg, body, cs, s.world.vals, s.world.outs, j))
    decreases j
  {
    hide Behaves, IsChain, DependsBackwards, WellFormed, Known, NamesFillUp, After;
    hide Repeat, ValsAfter, OutsAfter, BodyVals, HandOut, Collated, Element, PassTurns;
    var m := |cs| + 1;
    NoPass(g, env, cfg, body, cs, s, front);
    if j > 0 {
      Passes(g, env, cfg, body, cs, base, s, front, j - 1);
      var r := After(g, env, s, |front|, PassTurns(cs, j - 1));
      var front1 := front + Repeat([cfg.item] + cs, j - 1);
      RepeatLength(cfg.item, cs, j - 1);
      OnePass(g, env, cfg, body, cs, base, r.st, front1);
      OneMorePassTurns(cs, j);
      AfterAdds(g, env, s, |front|, PassTurns(cs, j - 1), m);
      OneMorePass(cfg, body, cs, s.world, front, j);
    }
  }

  lemma NoPass<V(!new)>(
    g: Graph, env: Env<World<V>>, cfg: Config<V>, body: Body<V>, cs: seq<Id>, s: State<World<V>>, front: seq<Id>)
    requires Pending(g, s, front, cfg.item) && s.world.idx == 0 && !s.world.failed
    ensures PassTurns(cs, 0) == 0 && After(g, env, s, |front|, 0) == Next(s, |front|)
    ensures front + Repeat([cfg.item] + cs, 0) == front
    ensures s.world == World(0, false, ValsAfter(cfg, body, cs, s.world.vals, 0),
                             OutsAfter(cfg, body, cs, s.world.vals, s.world.outs, 0))
  {
  }

  lemma OneMorePass<V(!new)>(cfg: Config<V>, body: Body<V>, cs: seq<Id>, w: World<V>, front: seq<Id>, j: nat)
    requires 1 <= j <= |cfg.arr|
    ensures front + Repeat([cfg.item] + cs, j - 1) + [cfg.item] + cs == front + Repeat([cfg.item] + cs, j)
    ensures Element(cfg, j - 1) == cfg.arr[j - 1]
    ensures ValsAfter(cfg, body, cs, w.vals, j) ==
            BodyVals(body, HandOut(cfg, ValsAfter(cfg, body, cs, w.vals, j - 1), cfg.arr[j - 1], j - 1), cs)
    ensures OutsAfter(cfg, body, cs, w.vals, w.outs, j) ==
            if j - 1 > 0
            then Collated(cfg, ValsAfter(cfg, body, cs, w.vals, j - 1), OutsAfter(cfg, body, cs, w.vals, w.outs, j - 1))
            else OutsAfter(cfg, body, cs, w.vals, w.outs, j - 1)
  {
    hide Collated, HandOut, BodyVals;
  }

  /** From a fresh item node to the component after the iteration: the body is walked once
      per element, and each collecting output gains its results in order. */
  lemma IterationIsAMap<V(!new)>(
    g: Graph, env: Env<World<V>>, cfg: Config<V>, body: Body<V>, cs: seq<Id>, base: seq<Id>,
    s: State<World<V>>, front: seq<Id>)
    requires IterationSetup(g, env, cfg, body, cs, base) && Pending(g, s, front, cfg.item)
    requires forall x <- base :: x in front
    requires s.world.idx == 0 && !s.world.failed
    requires LeadsOn(g, cfg.container)
    ensures var n := |cfg.arr|;
            var done := front + Repeat([cfg.item] + cs, n) + [cfg.item];
            Arrives(g, env, s, |front|, PassTurns(cs, n) + 1,
                    ExtendIds(done, Following(g, cfg.container)), |done|, Mapped(cfg, body, cs, s.world))
    ensures IsMapped(cfg, body, cs, s.world, Mapped(cfg, body, cs, s.world))
  {
    hide IsChain, DependsBackwards, WellFormed, Known, NamesFillUp, After, ExtendIds, IsFillUp;
    hide Repeat, Mapped, IsMapped, Behaves, Arrives, Following, PassTurns;
    LeaveIteration(g, env, cfg, body, cs, base, s, front);
    AllResultsCollected(cfg, body, cs, s.world);
  }

  /** The iteration took `w0` to `w1`: the item node is spent, the body ran on every element,
      and every collecting output gained its results. */
  ghost predicate IsMapped<V>(cfg: Config<V>, body: Body<V>, cs: seq<Id>, w0: World<V>, w1: World<V>) {
    && w1.idx == -1 && !w1.failed
    && w1.vals == ValsAfter(cfg, body, cs, w0.vals, |cfg.arr|)
    && forall k <- cfg.outputs | Collects(cfg, k) ::
         Out(w1.outs, k) == Out(w0.outs, k) + Results(cfg, body, cs, w0.vals, k, |cfg.arr|)
  }

  /** The world when the item node has been invoked for the last time. */
  function Mapped<V>(cfg: Config<V>, body: Body<V>, cs: seq<Id>, w: World<V>): World<V> {
    World(-1, false, ValsAfter(cfg, body, cs, w.vals, |cfg.arr|),
          OutsAfter(cfg, body, cs, w.vals, w.outs, |cfg.arr| + 1))
  }

  function Following(g: Graph, x: Id): seq<Id> {
    if x in g.nodes then g.nodes[x].downstream else []
  }

  lemma AllResultsCollected<V>(cfg: Config<V>, body: Body<V>, cs: seq<Id>, w0: World<V>)
    ensures IsMapped(cfg, body, cs, w0, Mapped(cfg, body, cs, w0))
  {
    hide ValsAfter, OutsAfter, Results;
    forall k <- cfg.outputs | Collects(cfg, k)
      ensures Out(OutsAfter(cfg, body, cs, w0.vals, w0.outs, |cfg.arr| + 1), k) ==
              Out(w0.outs, k) + Results(cfg, body, cs, w0.vals, k, |cfg.arr|)
    {
      CollectsResults(cfg, body, cs, w0.vals, w0.outs, |cfg.arr| + 1, k);
    }
  }

  lemma LeaveIteration<V(!new)>(
    g: Graph, env: Env<World<V>>, cfg: Config<V>, body: Body<V>, cs: seq<Id>, base: seq<Id>,
    s: State<World<V>>, front: seq<Id>)
    requires IterationSetup(g, env, cfg, body, cs, base) && Pending(g, s, front, cfg.item)
    requires forall x <- base :: x in front
    requires s.world.idx == 0 && !s.world.failed
    requires LeadsOn(g, cfg.container)
    ensures var n := |cfg.arr|;
            var done := front + Repeat([cfg.item] + cs, n) + [cfg.item];
            Arrives(g, env, s, |front|, PassTurns(cs, n) + 1,
                    ExtendIds(done, Following(g, cfg.container)), |done|, Mapped(cfg, body, cs, s.world))
  {
    hide IsChain, WellFormed, Known, NamesFillUp, After, ExtendIds, IsFillUp;
    hide Repeat, ValsAfter, OutsAfter, BodyVals, HandOut, Collated, Element, Behaves, PassTurns;
    var n := |cfg.arr|;
    Passes(g, env, cfg, body, cs, base, s, front, n);
    var r := After(g, env, s, |front|, PassTurns(cs, n));
    var front1 := front + Repeat([cfg.item] + cs, n);
    RepeatLength(cfg.item, cs, n);
    LastInvocation(env, cfg, body, cs, r.st.world);
    ChainItem(g, cfg.container, cfg.item, cs);
    assert Ready(g, front1, cfg.item);
    hide Ready, DependsBackwards;
    ItemEndsPass(g, env, cfg.container, cfg.item, r.st, front1);
    AfterAdds(g, env, s, |front|, PassTurns(cs, n), 1);
    OutsAtTheEnd(cfg, body, cs, s.world.vals, s.world.outs);
  }

  lemma ChainItem(g: Graph, container: Id, item: Id, cs: seq<Id>)
    requires WellFormed(g) && IsChain(g, container, item, cs)
    ensures container in g.nodes && item in g.nodes
    ensures g.nodes[container].kind.IsContainer()
    ensures g.nodes[item].kind.IsItem() && g.nodes[item].parent == Some(container)
    ensures Start(g, container) == item && container != item
  {
  }

  lemma LastInvocation<V(!new)>(env: Env<World<V>>, cfg: Config<V>, body: Body<V>, cs: seq<Id>, w: World<V>)
    requires Behaves(env, cfg, body, cs) && w.idx == |cfg.arr| && !w.failed
    ensures var w1 := env.settle(env.batch(w, [cfg.item]), cfg.item, false);
            var v := env.view(env.batch(w, [cfg.item]), cfg.item);
            && Calm(v) && v.ends.Yes?
            && w1 == w.(idx := -1, outs := if w.idx > 0 then Collated(cfg, w.vals, w.outs) else w.outs)
  {
    hide Collated;
    var w1 := Invoked(cfg, w);
    assert env.batch(w, [cfg.item]) == w1;
    assert env.view(w1, cfg.item) == ItemView(w1);
    assert env.settle(w1, cfg.item, false) == w1;
  }

  lemma OutsAtTheEnd<V>(cfg: Config<V>, body: Body<V>, cs: seq<Id>, vals: map<Port, V>, outs: map<string, seq<V>>)
    ensures var n := |cfg.arr|;
            OutsAfter(cfg, body, cs, vals, outs, n + 1) ==
            if n > 0 then Collated(cfg, ValsAfter(cfg, body, cs, vals, n), OutsAfter(cfg, body, cs, vals, outs, n))
            else OutsAfter(cfg, body, cs, vals, outs, n)
  {
    hide Collated, ValsAfter;
  }

  /** An iteration that is entered again (its item node was left at index -1) first walks
      its body on the last element, whose results it drops, and is fresh after that. */
  lemma ReentryRepeatsTheLastElement<V(!new)>(
    g: Graph, env: Env<World<V>>, cfg: Config<V>, body: Body<V>, cs: seq<Id>, base: seq<Id>,
    s: State<World<V>>, front: seq<Id>)
    requires IterationSetup(g, env, cfg, body, cs, base) && Pending(g, s, front, cfg.item)
    requires forall x <- base :: x in front
    requires s.world.idx == -1 && !s.world.failed && cfg.arr != []
    ensures var r := After(g, env, s, |front|, |cs| + 1);
            var front1 := front + [cfg.item] + cs;
            && r.Next? && r.idx == |front1|
            && Pending(g, r.st, front1, cfg.item) && (forall x <- base :: x in front1)
            && r.st.world.idx == 0 && !r.st.world.failed && r.st.world.outs == s.world.outs
            && r.st.world.vals == BodyVals(body, HandOut(cfg, s.world.vals, cfg.arr[|cfg.arr| - 1], -1), cs)
  {
    hide IsChain, WellFormed, Known, NamesFillUp, After, BodyVals, HandOut, Behaves, Collated;
    OnePass(g, env, cfg, body, cs, base, s, front);
  }

  /** Entering it again over an empty array is an error of the item node, and stops the run where
      it stood if and only if the node has neither targets nor a default answer for it. */
  lemma ReentryFailsOnEmpty<V(!new)>(
    g: Graph, env: Env<World<V>>, cfg: Config<V>, body: Body<V>, cs: seq<Id>, base: seq<Id>,
    s: State<World<V>>, front: seq<Id>, budget: nat)
    requires IterationSetup(g, env, cfg, body, cs, base) && Pending(g, s, front, cfg.item)
    requires forall x <- base :: x in front
    requires s.world.idx == -1 && cfg.arr == [] && budget > 0
    ensures var e := RunFrom(g, env, s, |front|, budget);
            var v := ItemView(Invoked(cfg, s.world));
            && v.error.Failed?
            && ((e.Stopped? && e.st.path == front) <==> Unhandled(g.nodes[cfg.item], v))
            && (Unhandled(g.nodes[cfg.item], v) ==> e.st.error.Failed?)
  {
    hide WellFormed, NamesFillUp, IsChain, RunFrom, Unhandled;
    assert env.batch(s.world, [cfg.item]) == Invoked(cfg, s.world);
    assert env.view(Invoked(cfg, s.world), cfg.item) == ItemView(Invoked(cfg, s.world));
    hide Behaves;
    ChainItem(g, cfg.container, cfg.item, cs);
    assert Ready(g, front, cfg.item);
    hide Ready, DependsBackwards;
    EndedItemConcludes(g, cfg.item, ItemView(Invoked(cfg, s.world)));
    LoneEntryStops(g, env, s, front, cfg.item, budget);
  }

  lemma EndedItemConcludes(g: Graph, x: Id, v: View)
    requires WellFormed(g) && x in g.nodes && g.nodes[x].kind.IsItem() && v.ends.Yes?
    ensures Concludes(g, x, v) && !g.nodes[x].kind.Message?
  {
    hide WellFormed;
  }

  /** The iteration node itself lets the item node in. */
  lemma EnterIteration<V(!new)>(
    g: Graph, env: Env<World<V>>, cfg: Config<V>, body: Body<V>, cs: seq<Id>, base: seq<Id>,
    s: State<World<V>>, front: seq<Id>)
    requires IterationSetup(g, env, cfg, body, cs, base) && Pending(g, s, front, cfg.container)
    requires cfg.container in g.nodes && Ready(g, front, cfg.container)
    ensures var r := After(g, env, s, |front|, 1);
            && r.Next? && r.idx == |front| + 1
            && Pending(g, r.st, front + [cfg.container], cfg.item) && r.st.world == s.world
  {
    hide WellFormed, NamesFillUp, After, Round, IsChain, DependsBackwards;
    ChainItem(g, cfg.container, cfg.item, cs);
    assert env.batch(s.world, [cfg.container]) == s.world;
    assert env.settle(s.world, cfg.container, false) == s.world;
    assert Calm(env.view(s.world, cfg.container));
    SoloTurn(g, env, s, front, cfg.container, [cfg.item]);
    ExtendOne(s.path, cfg.item);
  }

  /** From the iteration node to what follows it, the first time: the node itself, one pass per
      element, the item node once more. Every collecting output gains its results in order. */
  lemma IterationFromItsNode<V(!new)>(
    g: Graph, env: Env<World<V>>, cfg: Config<V>, body: Body<V>, cs: seq<Id>, base: seq<Id>,
    s: State<World<V>>, front: seq<Id>)
    requires IterationSetup(g, env, cfg, body, cs, base) && Pending(g, s, front, cfg.container)
    requires cfg.container in g.nodes && Ready(g, front, cfg.container)
    requires forall x <- base :: x in front + [cfg.container]
    requires s.world.idx == 0 && !s.world.failed && LeadsOn(g, cfg.container)
    ensures var n := |cfg.arr|;
            var done := front + [cfg.container] + Repeat([cfg.item] + cs, n) + [cfg.item];
            Arrives(g, env, s, |front|, 1 + (PassTurns(cs, n) + 1),
                    ExtendIds(done, Following(g, cfg.container)), |done|, Mapped(cfg, body, cs, s.world))
    ensures IsMapped(cfg, body, cs, s.world, Mapped(cfg, body, cs, s.world))
  {
    hide IterationSetup, WellFormed, Known, Ready, After, Arrives, ExtendIds, Repeat, Mapped, IsMapped, PassTurns;
    hide LeadsOn, Following;
    EnterIteration(g, env, cfg, body, cs, base, s, front);
    var r, n := After(g, env, s, |front|, 1), |cfg.arr|;
    var front1 := front + [cfg.container];
    IterationIsAMap(g, env, cfg, body, cs, base, r.st, front1);
    var done := front1 + Repeat([cfg.item] + cs, n) + [cfg.item];
    ArrivesLater(g, env, s, |front|, 1, PassTurns(cs, n) + 1,
                 ExtendIds(done, Following(g, cfg.container)), |done|, Mapped(cfg, body, cs, s.world));
  }

  /** The world after the pass that a spent item node begins with. */
  function Repeated<V>(cfg: Config<V>, body: Body<V>, cs: seq<Id>, w: World<V>): World<V>
    requires cfg.arr != []
  {
    World(0, false, BodyVals(body, HandOut(cfg, w.vals, cfg.arr[|cfg.arr| - 1], -1), cs), w.outs)
  }

  /** And any later time, over an array that is not empty: one pass more, on the last element,
      comes first. Nothing is collected from it; the outputs gain the results of the others. */
  lemma IterationOnceMore<V(!new)>(
    g: Graph, env: Env<World<V>>, cfg: Config<V>, body: Body<V>, cs: seq<Id>, base: seq<Id>,
    s: State<World<V>>, front: seq<Id>)
    requires IterationSetup(g, env, cfg, body, cs, base) && Pending(g, s, front, cfg.container)
    requires cfg.container in g.nodes && Ready(g, front, cfg.container)
    requires forall x <- base :: x in front + [cfg.container]
    requires s.world.idx == -1 && !s.world.failed && cfg.arr != [] && LeadsOn(g, cfg.container)
    ensures var n, w1 := |cfg.arr|, Repeated(cfg, body, cs, s.world);
            var done := front + [cfg.container] + Repeat([cfg.item] + cs, n + 1) + [cfg.item];
            && w1.outs == s.world.outs
            && IsMapped(cfg, body, cs, w1, Mapped(cfg, body, cs, w1))
            && Arrives(g, env, s, |front|, 1 + (|cs| + 1 + (PassTurns(cs, n) + 1)),
                       ExtendIds(done, Following(g, cfg.container)), |done|, Mapped(cfg, body, cs, w1))
  {
    hide IterationSetup, WellFormed, Known, Ready, After, Arrives, ExtendIds, Repeat, Mapped, IsMapped, PassTurns;
    hide LeadsOn, Following, BodyVals, HandOut, Repeated;
    EnterIteration(g, env, cfg, body, cs, base, s, front);
    var r, n := After(g, env, s, |front|, 1), |cfg.arr|;
    PassesAfterTheRepeated(g, env, cfg, body, cs, base, r.st, front + [cfg.container]);
    var done := front + [cfg.container] + Repeat([cfg.item] + cs, n + 1) + [cfg.item];
    var w1 := Repeated(cfg, body, cs, s.world);
    ArrivesLater(g, env, s, |front|, 1, |cs| + 1 + (PassTurns(cs, n) + 1),
                 ExtendIds(done, Following(g, cfg.container)), |done|, Mapped(cfg, body, cs, w1));
  }

  lemma PassesAfterTheRepeated<V(!new)>(
    g: Graph, env: Env<World<V>>, cfg: Config<V>, body: Body<V>, cs: seq<Id>, base: seq<Id>,
    s: State<World<V>>, front: seq<Id>)
    requires IterationSetup(g, env, cfg, body, cs, base) && Pending(g, s, front, cfg.item)
    requires forall x <- base :: x in front
    requires s.world.idx == -1 && !s.world.failed && cfg.arr != [] && LeadsOn(g, cfg.container)
    ensures var n, w1 := |cfg.arr|, Repeated(cfg, body, cs, s.world);
            var done := front + Repeat([cfg.item] + cs, n + 1) + [cfg.item];
            && w1.outs == s.world.outs
            && IsMapped(cfg, body, cs, w1, Mapped(cfg, body, cs, w1))
            && Arrives(g, env, s, |front|, |cs| + 1 + (PassTurns(cs, n) + 1),
                       ExtendIds(done, Following(g, cfg.container)), |done|, Mapped(cfg, body, cs, w1))
  {
    hide IterationSetup, WellFormed, Known, After, Arrives, ExtendIds, Mapped, IsMapped, PassTurns;
    hide LeadsOn, Following, BodyVals, HandOut, Repeat;
    ReentryRepeatsTheLastElement(g, env, cfg, body, cs, base, s, front);
    var r, n := After(g, env, s, |front|, |cs| + 1), |cfg.arr|;
    var front1 := front + [cfg.item] + cs;
    IterationIsAMap(g, env, cfg, body, cs, base, r.st, front1);
    RepeatFromTheLeft([cfg.item] + cs, n);
    var done := front + Repeat([cfg.item] + cs, n + 1) + [cfg.item];
    assert front1 + Repeat([cfg.item] + cs, n) + [cfg.item] == done;
    ArrivesLater(g, env, s, |front|, |cs| + 1, PassTurns(cs, n) + 1,
                 ExtendIds(done, Following(g, cfg.container)), |done|, Mapped(cfg, body, cs, r.st.world));
  }
}
