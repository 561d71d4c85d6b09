/** A loop, run by the scheduler: how often its item node lets the body in. */
module LoopRun {
  import opened Workflow
  import opened Scheduler
  import opened SchedulerSafety
  import opened BodyPass
  import Loop

  // ---------- The counter over a run ----------

  /** The counter after `k` invocations of the item node, one after the other. */
  function SteppedBy(c: int, k: nat, max: int): int
    decreases k
  {
    if k == 0 then c else SteppedBy(Loop.Stepped(c, max), k - 1, max)
  }

  lemma {:induction false} SteppedForm(c: int, k: nat, max: int)
    requires -1 <= c <= max
    ensures -1 <= SteppedBy(c, k, max) <= max
    ensures k <= max - c ==> SteppedBy(c, k, max) == c + k
    ensures k == max - c + 1 ==> SteppedBy(c, k, max) == -1
    decreases k
  {
    if k > 0 {
      SteppedForm(Loop.Stepped(c, max), k - 1, max);
    }
  }

  /** The environment runs the item node of a loop as a counter with maximum `max`, kept where
      `at` reads it. The termination conditions may answer anything at any time, and every
      other component may do anything else. */
  ghost predicate Counts<W(!new)>(env: Env<W>, at: W -> int, item: Id, max: nat) {
    && (forall w, ids :: at(env.batch(w, ids)) == SteppedBy(at(w), multiset(ids)[item], max))
    && (forall w :: at(w) == -1 ==> env.view(w, item).ends.Yes?)
    && (forall w, x :: at(env.deliver(w, x)) == at(w))
    && (forall w, x, f :: at(env.settle(w, x, f)) == if x == item && env.view(w, item).ends.Yes? then -1 else at(w))
  }

  /** The batches a run starts, in order. */
  function Batches<W>(g: Graph, env: Env<W>, s: State<W>, idx: nat, budget: nat): seq<seq<Id>>
    requires WellFormed(g) && idx <= |s.path| && Known(g, s.path)
    decreases budget
  {
    if idx == |s.path| || budget == 0 then []
    else
      var r := Round(g, env, s, idx, false);
      [Ran(g, env, s, idx).path[idx..]] + if r.Next? then Batches(g, env, r.st, r.idx, budget - 1) else []
  }

  /** The counter before the first of them and after each of them. */
  function Counters<W>(g: Graph, env: Env<W>, at: W -> int, s: State<W>, idx: nat, budget: nat): (r: seq<int>)
    requires WellFormed(g) && idx <= |s.path| && Known(g, s.path)
    ensures |r| == |Batches(g, env, s, idx, budget)| + 1 && r[0] == at(s.world)
    decreases budget
  {
    hide Round, Known, WellFormed, Ran;
    if idx == |s.path| || budget == 0 then [at(s.world)]
    else
      var r := Round(g, env, s, idx, false);
      [at(s.world)] + if r.Next? then Counters(g, env, at, r.st, r.idx, budget - 1) else [at(r.exit.st.world)]
  }

  /** A batch takes the counter from `c` to `d`: it is stepped at every visit, and left at -1
      where a visit ended the loop. */
  predicate Steps(c: int, batch: seq<Id>, d: int, item: Id, max: nat) {
    d == SteppedBy(c, multiset(batch)[item], max) || (item in batch && d == -1)
  }

  predicate Follows(cs: seq<int>, bs: seq<seq<Id>>, item: Id, max: nat) {
    |cs| == |bs| + 1 && forall t | 0 <= t < |bs| :: Steps(cs[t], bs[t], cs[t + 1], item, max)
  }

  lemma PostProcessSteps<W(!new)>(g: Graph, env: Env<W>, at: W -> int, item: Id, max: nat, s: State<W>, x: Id)
    requires WellFormed(g) && x in g.nodes && s.path != [] && Counts(env, at, item, max)
    ensures var d := at(PostProcess(g, env, s, x).st.world);
            d == at(s.world) || (x == item && d == -1)
  {
    hide WellFormed, NamesFillUp, Held, Drainable, ExtendIds, Successors;
  }

  lemma {:induction false} PostProcessAllSteps<W(!new)>(
    g: Graph, env: Env<W>, at: W -> int, item: Id, max: nat, s: State<W>, i: nat, end: nat)
    requires WellFormed(g) && i <= end <= |s.path| && Known(g, s.path[..end]) && Counts(env, at, item, max)
    ensures var d := at(PostProcessAll(g, env, s, i, end).st.world);
            d == at(s.world) || (item in s.path[i..end] && d == -1)
    decreases end - i
  {
    hide PostProcess, WellFormed, Counts;
    if i < end {
      var x := s.path[i];
      assert x in s.path[..end];
      PostProcessSteps(g, env, at, item, max, s, x);
      var r := PostProcess(g, env, s, x);
      assert s.path[i..end] == [x] + s.path[i + 1..end];
      if r.Done? {
        assert r.st.path[..end] == s.path[..end];
        assert r.st.path[i + 1..end] == r.st.path[..end][i + 1..] == s.path[..end][i + 1..] == s.path[i + 1..end];
        PostProcessAllSteps(g, env, at, item, max, r.st, i + 1, end);
      }
    }
  }

  /** The counter after a turn, however the turn ends. */
  lemma TurnSteps<W(!new)>(g: Graph, env: Env<W>, at: W -> int, item: Id, max: nat, s: State<W>, idx: nat)
    requires WellFormed(g) && idx <= |s.path| && Known(g, s.path) && Counts(env, at, item, max)
    ensures var r := Round(g, env, s, idx, false);
            var w := if r.Next? then r.st.world else r.exit.st.world;
            Steps(at(s.world), Ran(g, env, s, idx).path[idx..], at(w), item, max)
  {
    hide Round, WellFormed, Known, PostProcessAll, Kept, SteppedBy;
    RoundIs(g, env, s, idx);
    var s2 := Ran(g, env, s, idx);
    PostProcessAllSteps(g, env, at, item, max, s2, idx, |s2.path|);
    assert s2.path[idx..|s2.path|] == s2.path[idx..];
  }

  lemma FollowsCons(c: int, batch: seq<Id>, cs: seq<int>, bs: seq<seq<Id>>, item: Id, max: nat)
    requires Follows(cs, bs, item, max) && Steps(c, batch, cs[0], item, max)
    ensures Follows([c] + cs, [batch] + bs, item, max)
  {
    hide Steps;
    var cs1, bs1 := [c] + cs, [batch] + bs;
    forall t | 0 <= t < |bs1| ensures Steps(cs1[t], bs1[t], cs1[t + 1], item, max) {
      if t > 0 {
        assert Steps(cs[t - 1], bs[t - 1], cs[t - 1 + 1], item, max);
      }
    }
  }

  lemma FollowsNothing(c: int, item: Id, max: nat)
    ensures Follows([c], [], item, max)
  {
  }

  lemma {:induction false} RunFollows<W(!new)>(
    g: Graph, env: Env<W>, at: W -> int, item: Id, max: nat, s: State<W>, idx: nat, budget: nat)
    requires WellFormed(g) && idx <= |s.path| && Known(g, s.path) && Counts(env, at, item, max)
    ensures Follows(Counters(g, env, at, s, idx, budget), Batches(g, env, s, idx, budget), item, max)
    decreases budget
  {
    hide Round, WellFormed, Known, Ran, Counts, Steps, Follows;
    if idx == |s.path| || budget == 0 {
      FollowsNothing(at(s.world), item, max);
    } else {
      TurnSteps(g, env, at, item, max, s, idx);
      var r := Round(g, env, s, idx, false);
      var batch := Ran(g, env, s, idx).path[idx..];
      if r.Next? {
        RunFollows(g, env, at, item, max, r.st, r.idx, budget - 1);
        FollowsCons(at(s.world), batch, Counters(g, env, at, r.st, r.idx, budget - 1),
                    Batches(g, env, r.st, r.idx, budget - 1), item, max);
      } else {
        FollowsNothing(at(r.exit.st.world), item, max);
        FollowsCons(at(s.world), batch, [at(r.exit.st.world)], [], item, max);
      }
    }
  }

  // ---------- The bound ----------

  function VisitsIn(bs: seq<seq<Id>>, item: Id): nat {
    if bs == [] then 0 else VisitsIn(bs[..|bs| - 1], item) + multiset(bs[|bs| - 1])[item]
  }

  /** Nothing from turn `a` up to turn `b` ends the loop. */
  predicate GoesOn(cs: seq<int>, bs: seq<seq<Id>>, item: Id, a: nat, b: nat)
    requires |cs| == |bs| + 1 && b <= |bs|
  {
    forall t | a <= t < b :: item in bs[t] ==> cs[t + 1] != -1
  }

  /** No batch steps the counter past -1: a batch with more visits than that leaves `end`
      nothing to see. */
  predicate NeverPastTheEnd(cs: seq<int>, bs: seq<seq<Id>>, item: Id, max: nat, a: nat, b: nat)
    requires |cs| == |bs| + 1 && b <= |bs|
  {
    forall t | a <= t < b :: multiset(bs[t])[item] <= max + 1 - cs[t]
  }

  predicate OncePerBatch(bs: seq<seq<Id>>, item: Id, a: nat, b: nat)
    requires b <= |bs|
  {
    forall t | a <= t < b :: multiset(bs[t])[item] <= 1
  }

  lemma {:induction false} CountersInRange(cs: seq<int>, bs: seq<seq<Id>>, item: Id, max: nat, t: nat)
    requires Follows(cs, bs, item, max) && -1 <= cs[0] <= max && t < |cs|
    ensures -1 <= cs[t] <= max
  {
    if t > 0 {
      CountersInRange(cs, bs, item, max, t - 1);
      assert Steps(cs[t - 1], bs[t - 1], cs[t - 1 + 1], item, max);
      SteppedForm(cs[t - 1], multiset(bs[t - 1])[item], max);
    }
  }

  lemma {:induction false} StretchIsBounded(cs: seq<int>, bs: seq<seq<Id>>, item: Id, max: nat, a: nat, b: nat)
    requires Follows(cs, bs, item, max) && a <= b <= |bs| && -1 <= cs[a] <= max
    requires GoesOn(cs, bs, item, a, b)
    ensures VisitsIn(bs[a..b], item) <= max - cs[a] <==> NeverPastTheEnd(cs, bs, item, max, a, b)
    ensures NeverPastTheEnd(cs, bs, item, max, a, b) ==> cs[b] == cs[a] + VisitsIn(bs[a..b], item) <= max
    decreases b - a
  {
    if a < b {
      hide SteppedBy, VisitsIn, Follows, GoesOn, NeverPastTheEnd, Steps;
      StretchIsShorter(cs, bs, item, max, a, b);
      StretchIsBounded(cs, bs, item, max, a, b - 1);
      VisitsOfOneMore(bs, item, a, b);
      PastTheEndOneMore(cs, bs, item, max, a, b);
      if NeverPastTheEnd(cs, bs, item, max, a, b - 1) {
        OneBatchMore(cs[b - 1], bs[b - 1], cs[b], item, max);
      }
    } else {
      assert bs[a..b] == [];
    }
  }

  lemma StretchIsShorter(cs: seq<int>, bs: seq<seq<Id>>, item: Id, max: nat, a: nat, b: nat)
    requires Follows(cs, bs, item, max) && a < b <= |bs| && GoesOn(cs, bs, item, a, b)
    ensures GoesOn(cs, bs, item, a, b - 1)
    ensures Steps(cs[b - 1], bs[b - 1], cs[b], item, max) && (item in bs[b - 1] ==> cs[b] != -1)
  {
    hide Steps;
    assert Steps(cs[b - 1], bs[b - 1], cs[b - 1 + 1], item, max);
    assert item in bs[b - 1] ==> cs[b - 1 + 1] != -1;
  }

  lemma PastTheEndOneMore(cs: seq<int>, bs: seq<seq<Id>>, item: Id, max: nat, a: nat, b: nat)
    requires |cs| == |bs| + 1 && a < b <= |bs|
    ensures NeverPastTheEnd(cs, bs, item, max, a, b) <==>
            NeverPastTheEnd(cs, bs, item, max, a, b - 1) && multiset(bs[b - 1])[item] <= max + 1 - cs[b - 1]
  {
  }

  lemma VisitsOfOneMore(bs: seq<seq<Id>>, item: Id, a: nat, b: nat)
    requires a < b <= |bs|
    ensures VisitsIn(bs[a..b], item) == VisitsIn(bs[a..b - 1], item) + multiset(bs[b - 1])[item]
  {
    assert bs[a..b][..b - 1 - a] == bs[a..b - 1] && bs[a..b][b - 1 - a] == bs[b - 1];
  }

  /** A batch that does not end the loop counts its visits, unless they go past the end. */
  lemma OneBatchMore(c: int, batch: seq<Id>, d: int, item: Id, max: nat)
    requires -1 <= c <= max && Steps(c, batch, d, item, max) && (item in batch ==> d != -1)
    ensures var k := multiset(batch)[item];
            k <= max + 1 - c ==> d == c + k <= max
  {
    hide SteppedBy;
    SteppedForm(c, multiset(batch)[item], max);
    assert multiset(batch)[item] > 0 <==> item in batch;
  }

  /**
   * The bound, for every workflow and every run, whatever its termination conditions answer
   * and whatever else is in its batches: over any stretch of turns in which the loop does not
   * end, the item node lets its body in at most as often as the counter allows (`max` times
   * from a fresh node, once more from a spent one, the remainder from a count an ExitLoop
   * left), if and only if no batch steps the counter past -1. A batch with the item node in it
   * once never does.
   */
  lemma LoopIsBounded<W(!new)>(
    g: Graph, env: Env<W>, at: W -> int, item: Id, max: nat, s: State<W>, idx: nat, budget: nat, a: nat, b: nat)
    requires WellFormed(g) && idx <= |s.path| && Known(g, s.path)
    requires Counts(env, at, item, max) && -1 <= at(s.world) <= max
    requires a <= b <= |Batches(g, env, s, idx, budget)|
    requires GoesOn(Counters(g, env, at, s, idx, budget), Batches(g, env, s, idx, budget), item, a, b)
    ensures var cs, bs := Counters(g, env, at, s, idx, budget), Batches(g, env, s, idx, budget);
            && -1 <= cs[a] <= max
            && (VisitsIn(bs[a..b], item) <= max - cs[a] <==> NeverPastTheEnd(cs, bs, item, max, a, b))
            && (OncePerBatch(bs, item, a, b) ==> VisitsIn(bs[a..b], item) <= max - cs[a])
  {
    hide Counts, Known, WellFormed, Batches, Counters, VisitsIn;
    var cs, bs := Counters(g, env, at, s, idx, budget), Batches(g, env, s, idx, budget);
    RunFollows(g, env, at, item, max, s, idx, budget);
    CountersInRange(cs, bs, item, max, a);
    StretchIsBounded(cs, bs, item, max, a, b);
    forall t | a <= t < b ensures -1 <= cs[t] <= max {
      CountersInRange(cs, bs, item, max, t);
    }
  }

  // ---------- Single file ----------

  /** Whatever `x` answers, it queues one target at most. */
  predicate QueuesOne(g: Graph, x: Id, v: View)
    requires WellFormed(g) && x in g.nodes
  {
    if TakesGoto(g.nodes[x], v) then |g.nodes[x].handler.goto| <= 1
    else
      var ids := Successors(g, x, v);
      ids.Some? ==> |ids.value| <= 1
  }

  /** No component of `body` ever queues two targets; unless this is `always` so, the item node
      may when it ends the loop. */
  ghost predicate SingleFile<W(!new)>(g: Graph, env: Env<W>, item: Id, body: set<Id>, always: bool) {
    WellFormed(g) && body <= g.nodes.Keys &&
    forall w, x | x in body :: QueuesOne(g, x, env.view(w, x)) || (!always && x == item && env.view(w, x).ends.Yes?)
  }

  lemma {:induction false} ExtendLength(path: seq<Id>, ids: seq<Id>)
    requires path != []
    ensures |ExtendIds(path, ids)| <= |path| + |ids|
    decreases |ids|
  {
    if ids != [] {
      ExtendLength(AppendId(path, ids[0]), ids[1..]);
    }
  }

  lemma PostProcessQueues<W(!new)>(g: Graph, env: Env<W>, at: W -> int, item: Id, max: nat, s: State<W>, x: Id)
    requires WellFormed(g) && x in g.nodes && s.path != [] && Counts(env, at, item, max)
    ensures var v := env.view(Deliver(g, env, s, x).world, x); var t := PostProcess(g, env, s, x).st;
            && (QueuesOne(g, x, v) ==> |t.path| <= |s.path| + 1)
            && (x == item && v.ends.Yes? ==> at(t.world) == -1)
  {
    hide WellFormed, NamesFillUp, Held, Drainable, ExtendIds, Successors;
    var v := env.view(Deliver(g, env, s, x).world, x);
    var ids := Successors(g, x, v);
    if ids.Some? {
      ExtendLength(s.path, ids.value);
    }
  }

  predicate InBody(batch: seq<Id>, body: set<Id>) { forall x <- batch :: x in body }

  /** A turn with at most one pending entry, in the body, leaves at most one, or ends the loop. */
  lemma LoneTurn<W(!new)>(
    g: Graph, env: Env<W>, at: W -> int, item: Id, max: nat, body: set<Id>, always: bool, s: State<W>, idx: nat)
    requires SingleFile(g, env, item, body, always) && Counts(env, at, item, max)
    requires idx <= |s.path| <= idx + 1 && Known(g, s.path)
    requires InBody(Ran(g, env, s, idx).path[idx..], body)
    ensures var r, batch := Round(g, env, s, idx, false), Ran(g, env, s, idx).path[idx..];
            && |batch| <= 1
            && (r.Next? ==> |r.st.path| <= r.idx + 1 || (!always && item in batch && at(r.st.world) == -1))
  {
    hide WellFormed, Known, Round, Counts, QueuesOne, PostProcess;
    KnownSlice(g, s.path, idx);
    var s2 := Ran(g, env, s, idx);
    RoundIs(g, env, s, idx);
    if s2.path[idx..] != [] {
      var x := s2.path[idx];
      assert x in s2.path[idx..] && x in s2.path[..idx + 1] && s2.path[..idx + 1] == s2.path;
      PostProcessQueues(g, env, at, item, max, s2, x);
      var p := PostProcess(g, env, s2, x);
      if p.Done? {
        assert p.st.path[..idx + 1] == s2.path;
        assert PostProcessAll(g, env, p.st, idx + 1, idx + 1) == Done(p.st);
      }
      InItsView(g, env, item, body, always, Deliver(g, env, s2, x).world, x);
    }
  }

  lemma InItsView<W(!new)>(g: Graph, env: Env<W>, item: Id, body: set<Id>, always: bool, w: W, x: Id)
    requires SingleFile(g, env, item, body, always) && x in body
    ensures QueuesOne(g, x, env.view(w, x)) || (!always && x == item && env.view(w, x).ends.Yes?)
  {
    hide QueuesOne, WellFormed;
  }

  /** With one entry pending and a body in single file, every batch is a single component, as
      long as the run stays in the body and the loop goes on. */
  lemma {:induction false} BatchesAreSingle<W(!new)>(
    g: Graph, env: Env<W>, at: W -> int, item: Id, max: nat, body: set<Id>, always: bool,
    s: State<W>, idx: nat, budget: nat, b: nat)
    requires WellFormed(g) && SingleFile(g, env, item, body, always) && Counts(env, at, item, max)
    requires idx <= |s.path| <= idx + 1 && Known(g, s.path)
    requires b <= |Batches(g, env, s, idx, budget)|
    requires forall t | 0 <= t < b :: InBody(Batches(g, env, s, idx, budget)[t], body)
    requires always || GoesOn(Counters(g, env, at, s, idx, budget), Batches(g, env, s, idx, budget), item, 0, b)
    ensures forall t | 0 <= t < b :: |Batches(g, env, s, idx, budget)[t]| <= 1
    decreases budget
  {
    hide Round, WellFormed, Known, Counts, SingleFile, InBody, Ran;
    if b > 0 {
      var bs, cs := Batches(g, env, s, idx, budget), Counters(g, env, at, s, idx, budget);
      var r := Round(g, env, s, idx, false);
      assert bs[0] == Ran(g, env, s, idx).path[idx..];
      LoneTurn(g, env, at, item, max, body, always, s, idx);
      if b > 1 {
        var bs1, cs1 := Batches(g, env, r.st, r.idx, budget - 1), Counters(g, env, at, r.st, r.idx, budget - 1);
        assert bs == [bs[0]] + bs1 && cs == [cs[0]] + cs1;
        assert cs[1] == at(r.st.world);
        forall t | 0 <= t < b - 1 ensures InBody(bs1[t], body) && (item in bs1[t] && !always ==> cs1[t + 1] != -1) {
          assert bs1[t] == bs[t + 1] && cs1[t + 1] == cs[t + 1 + 1];
        }
        BatchesAreSingle(g, env, at, item, max, body, always, r.st, r.idx, budget - 1, b - 1);
        forall t | 0 <= t < b ensures |bs[t]| <= 1 {
          assert t > 0 ==> bs[t] == bs1[t - 1];
        }
      }
    }
  }

  /** So the bound holds, as can be seen before the run, for a loop that is entered alone and in
      whose body no component has two targets. */
  lemma SingleFileIsBounded<W(!new)>(
    g: Graph, env: Env<W>, at: W -> int, item: Id, max: nat, body: set<Id>,
    s: State<W>, idx: nat, budget: nat, b: nat)
    requires SingleFile(g, env, item, body, false) && Counts(env, at, item, max) && -1 <= at(s.world) <= max
    requires idx <= |s.path| <= idx + 1 && Known(g, s.path)
    requires b <= |Batches(g, env, s, idx, budget)|
    requires forall t | 0 <= t < b :: InBody(Batches(g, env, s, idx, budget)[t], body)
    requires GoesOn(Counters(g, env, at, s, idx, budget), Batches(g, env, s, idx, budget), item, 0, b)
    ensures VisitsIn(Batches(g, env, s, idx, budget)[0..b], item) <= max - at(s.world)
  {
    hide WellFormed, Known, Counts, Batches, Counters, GoesOn, VisitsIn, InBody;
    BatchesAreSingle(g, env, at, item, max, body, false, s, idx, budget, b);
    SinglesVisitOnce(Batches(g, env, s, idx, budget), item, b);
    LoopIsBounded(g, env, at, item, max, s, idx, budget, 0, b);
  }

  /** And in a whole workflow without forks, for every stretch of every run. */
  lemma WithoutForksLoopsAreBounded<W(!new)>(
    g: Graph, env: Env<W>, at: W -> int, item: Id, max: nat,
    s: State<W>, idx: nat, budget: nat, a: nat, b: nat)
    requires SingleFile(g, env, item, g.nodes.Keys, true) && Counts(env, at, item, max) && -1 <= at(s.world) <= max
    requires idx <= |s.path| <= idx + 1 && Known(g, s.path)
    requires a <= b <= |Batches(g, env, s, idx, budget)|
    requires GoesOn(Counters(g, env, at, s, idx, budget), Batches(g, env, s, idx, budget), item, a, b)
    ensures VisitsIn(Batches(g, env, s, idx, budget)[a..b], item) <= max - Counters(g, env, at, s, idx, budget)[a]
  {
    hide WellFormed, Known, Counts, Batches, Counters, GoesOn, VisitsIn, InBody;
    BatchesAreKnown(g, env, s, idx, budget);
    BatchesAreSingle(g, env, at, item, max, g.nodes.Keys, true, s, idx, budget, b);
    SinglesVisitOnce(Batches(g, env, s, idx, budget), item, b);
    LoopIsBounded(g, env, at, item, max, s, idx, budget, a, b);
  }

  lemma SinglesVisitOnce(bs: seq<seq<Id>>, item: Id, b: nat)
    requires b <= |bs| && forall t | 0 <= t < b :: |bs[t]| <= 1
    ensures forall a | 0 <= a <= b :: OncePerBatch(bs, item, a, b)
  {
    forall t | 0 <= t < b ensures multiset(bs[t])[item] <= 1 {
      assert bs[t] == [] || bs[t] == [bs[t][0]];
    }
  }

  lemma {:induction false} BatchesAreKnown<W>(g: Graph, env: Env<W>, s: State<W>, idx: nat, budget: nat)
    requires WellFormed(g) && idx <= |s.path| && Known(g, s.path)
    ensures forall batch <- Batches(g, env, s, idx, budget) :: InBody(batch, g.nodes.Keys)
    decreases budget
  {
    hide Round, WellFormed, Ran;
    if idx != |s.path| && budget > 0 {
      KnownSlice(g, Ran(g, env, s, idx).path, idx);
      var r := Round(g, env, s, idx, false);
      if r.Next? {
        BatchesAreKnown(g, env, r.st, r.idx, budget - 1);
      }
    }
  }

  /** Leaving by an ExitLoop node leaves the counter where it is, for the next activation. */
  lemma ExitLeavesTheCount<W(!new)>(
    g: Graph, env: Env<W>, at: W -> int, item: Id, max: nat, container: Id, x: Id, s: State<W>, front: seq<Id>)
    requires Pending(g, s, front, x) && x in g.nodes && Ready(g, front, x) && x != item
    requires g.nodes[x].kind.ExitLoop? && g.nodes[x].parent == Some(container) && LeadsOn(g, container)
    requires g.nodes[container].kind.Loop?
    requires Calm(env.view(env.batch(s.world, [x]), x)) && Counts(env, at, item, max)
    ensures var r := After(g, env, s, |front|, 1);
            && r.Next? && r.idx == |front| + 1
            && r.st.path == ExtendIds(s.path, g.nodes[container].downstream)
            && at(r.st.world) == at(s.world)
  {
    hide WellFormed, NamesFillUp, After, ExtendIds, Ready, Known, IsFillUp, Counts, MovesOn, Calm, LeadsOn;
    ExitMovesOn(g, env, container, x, s);
    SoloTurn(g, env, s, front, x, g.nodes[container].downstream);
    OthersDoNotCount(env, at, item, max, s.world, x);
  }

  lemma ExitMovesOn<W>(g: Graph, env: Env<W>, container: Id, x: Id, s: State<W>)
    requires WellFormed(g) && x in g.nodes && LeadsOn(g, container)
    requires g.nodes[x].kind.ExitLoop? && g.nodes[x].parent == Some(container) && g.nodes[container].kind.Loop?
    requires Calm(env.view(env.batch(s.world, [x]), x))
    ensures container in g.nodes && MovesOn(g, env, s, x, g.nodes[container].downstream)
  {
    hide WellFormed;
  }

  lemma OthersDoNotCount<W(!new)>(env: Env<W>, at: W -> int, item: Id, max: nat, w: W, x: Id)
    requires Counts(env, at, item, max) && x != item
    ensures at(env.settle(env.batch(w, [x]), x, false)) == at(w)
  {
    assert multiset([x])[item] == 0;
    assert at(env.batch(w, [x])) == SteppedBy(at(w), multiset([x])[item], max);
  }

  // ---------- A chain body ends ----------

  ghost predicate CalmItem<W(!new)>(env: Env<W>, item: Id) {
    forall w :: Calm(env.view(env.batch(w, [item]), item))
  }

  /** How often the body may still be entered: a fresh item node stands at 0, a spent one at -1. */
  function Allowance(idx: int, max: nat): nat
    requires -1 <= idx <= max
  {
    max - idx
  }

  ghost predicate LoopSetup<W(!new)>(
    g: Graph, env: Env<W>, idx: W -> int, container: Id, item: Id, cs: seq<Id>, base: seq<Id>, max: nat)
  {
    && WellFormed(g)
    && IsChain(g, container, item, cs)
    && DependsBackwards(g, base, item, cs)
    && CalmBody(env, cs)
    && CalmItem(env, item)
    && Counts(env, idx, item, max)
  }

  /** After `k` passes the item node is pending, and does not let its body in again. */
  ghost predicate StopsAfter<W>(g: Graph, env: Env<W>, item: Id, cs: seq<Id>, s: State<W>, front: seq<Id>, k: nat) {
    WellFormed(g) && |front| <= |s.path| && Known(g, s.path) &&
    var r := After(g, env, s, |front|, PassTurns(cs, k));
    && r.Next? && r.idx == |front| + PassTurns(cs, k)
    && Pending(g, r.st, front + Repeat([item] + cs, k), item)
    && !env.view(env.batch(r.st.world, [item]), item).ends.No?
  }

  lemma {:induction false} ChainKeepsCount<W(!new)>(env: Env<W>, idx: W -> int, item: Id, max: nat, w: W, cs: seq<Id>)
    requires Counts(env, idx, item, max) && item !in cs
    ensures idx(ChainWorld(env, w, cs)) == idx(w)
    decreases |cs|
  {
    hide Counts;
    if cs != [] {
      assert item !in cs[1..] && cs[0] in cs;
      OthersDoNotCount(env, idx, item, max, w, cs[0]);
      ChainKeepsCount(env, idx, item, max, env.settle(env.batch(w, [cs[0]]), cs[0], false), cs[1..]);
    }
  }

  lemma ItemCounts<W(!new)>(env: Env<W>, idx: W -> int, item: Id, max: nat, w: W)
    requires Counts(env, idx, item, max) && env.view(env.batch(w, [item]), item).ends.No?
    ensures var w1 := env.batch(w, [item]);
            idx(w1) == Loop.Stepped(idx(w), max) != -1 && idx(env.settle(w1, item, false)) == idx(w1)
  {
    assert multiset([item])[item] == 1;
    assert SteppedBy(idx(w), 1, max) == SteppedBy(Loop.Stepped(idx(w), max), 0, max);
    assert idx(env.batch(w, [item])) == SteppedBy(idx(w), multiset([item])[item], max);
  }

  lemma ItemIsNotInItsBody(g: Graph, container: Id, item: Id, cs: seq<Id>)
    requires WellFormed(g) && IsChain(g, container, item, cs)
    ensures item !in cs
  {
    hide WellFormed, Start;
  }

  /** One pass uses up one unit of the allowance. */
  lemma LoopPass<W(!new)>(
    g: Graph, env: Env<W>, idx: W -> int, container: Id, item: Id, cs: seq<Id>, base: seq<Id>, max: nat,
    s: State<W>, front: seq<Id>)
    requires LoopSetup(g, env, idx, container, item, cs, base, max) && Pending(g, s, front, item)
    requires (forall x <- base :: x in front) && -1 <= idx(s.world) <= max
    requires env.view(env.batch(s.world, [item]), item).ends.No?
    ensures var r := After(g, env, s, |front|, |cs| + 1);
            && r.Next? && r.idx == |front| + |cs| + 1
            && Pending(g, r.st, front + [item] + cs, item)
            && 0 <= idx(r.st.world) <= max && idx(r.st.world) == idx(s.world) + 1
  {
    hide WellFormed, IsChain, DependsBackwards, After, Pending, NamesFillUp, Counts;
    var w1 := env.batch(s.world, [item]);
    assert Calm(env.view(w1, item));
    ItemCounts(env, idx, item, max, s.world);
    ItemPass(g, env, container, item, cs, base, s, front);
    ItemIsNotInItsBody(g, container, item, cs);
    ChainKeepsCount(env, idx, item, max, env.settle(w1, item, false), cs);
  }

  /** A loop over a chain comes to its end: whatever the conditions answer, the item node does
      not let its body in again after at most as many passes as the allowance says. */
  lemma {:induction false} ChainLoopEnds<W(!new)>(
    g: Graph, env: Env<W>, idx: W -> int, container: Id, item: Id, cs: seq<Id>, base: seq<Id>, max: nat,
    s: State<W>, front: seq<Id>)
    requires LoopSetup(g, env, idx, container, item, cs, base, max) && Pending(g, s, front, item)
    requires (forall x <- base :: x in front) && -1 <= idx(s.world) <= max
    ensures exists k: nat :: k <= Allowance(idx(s.world), max) && StopsAfter(g, env, item, cs, s, front, k)
    decreases Allowance(idx(s.world), max)
  {
    hide WellFormed, IsChain, DependsBackwards, After, NamesFillUp, Known;
    hide CalmBody, CalmItem, Counts, PassTurns, Repeat;
    if !env.view(env.batch(s.world, [item]), item).ends.No? {
      StopsNow(g, env, item, cs, s, front);
    } else {
      LoopPass(g, env, idx, container, item, cs, base, max, s, front);
      var r := After(g, env, s, |front|, |cs| + 1);
      var front1 := front + [item] + cs;
      ChainLoopEnds(g, env, idx, container, item, cs, base, max, r.st, front1);
      var k: nat :| k <= Allowance(idx(r.st.world), max) && StopsAfter(g, env, item, cs, r.st, front1, k);
      StopsLater(g, env, item, cs, s, front, k);
    }
  }

  lemma StopsNow<W>(g: Graph, env: Env<W>, item: Id, cs: seq<Id>, s: State<W>, front: seq<Id>)
    requires Pending(g, s, front, item) && !env.view(env.batch(s.world, [item]), item).ends.No?
    ensures StopsAfter(g, env, item, cs, s, front, 0)
  {
    hide Round;
    assert front + Repeat([item] + cs, 0) == front;
  }

  lemma StopsLater<W>(g: Graph, env: Env<W>, item: Id, cs: seq<Id>, s: State<W>, front: seq<Id>, k: nat)
    requires WellFormed(g) && |front| <= |s.path| && Known(g, s.path)
    requires var r := After(g, env, s, |front|, |cs| + 1);
             r.Next? && r.idx == |front| + |cs| + 1 && StopsAfter(g, env, item, cs, r.st, front + [item] + cs, k)
    ensures StopsAfter(g, env, item, cs, s, front, k + 1)
  {
    hide WellFormed, After, NamesFillUp, Known;
    AfterAdds(g, env, s, |front|, |cs| + 1, PassTurns(cs, k));
    OneMorePassTurns(cs, k + 1);
    RepeatFromTheLeft([item] + cs, k);
    assert front + [item] + cs + Repeat([item] + cs, k) == front + ([item] + cs + Repeat([item] + cs, k));
  }
}
