/** A loop whose body forks and comes back on two ways: one batch then holds the item node
    twice, and the counter runs past its end. */
module FanOut {
  import opened Workflow
  import opened Scheduler
  import opened SchedulerSafety
  import opened BodyPass
  import LoopRun

  /** item leads to c1, c2 and c3; c1 and c3 lead back to item, and c2 does so by way of d. */
  function Fan(): Graph {
    Graph(["begin", "loop", "item", "c1", "c2", "c3", "d"],
          map["begin" := Node(Begin, ["loop"], None, {}, NoHandler),
              "loop" := Node(Kind.Loop, [], None, {}, NoHandler),
              "item" := Node(LoopItem, ["c1", "c2", "c3"], Some("loop"), {}, NoHandler),
              "c1" := Node(Other, [], Some("loop"), {}, NoHandler),
              "c2" := Node(Other, ["d"], Some("loop"), {}, NoHandler),
              "c3" := Node(Other, [], Some("loop"), {}, NoHandler),
              "d" := Node(Other, [], Some("loop"), {}, NoHandler)])
  }

  const ITEM: Id := "item"

  /** The world is the counter of the item node, with a maximum of 1. The termination
      conditions never hold. */
  function FanEnv(): Env<int> {
    Env(w => w, (w, ids) => Counted(w, ids), (w, x) => Seen(w, x), (w, x) => w, (w, x, failed) => w)
  }

  function Counted(w: int, ids: seq<Id>): int { LoopRun.SteppedBy(w, multiset(ids)[ITEM], 1) }

  function Seen(w: int, x: Id): View { View(NoError, false, if w == -1 then Yes else No, None) }

  /** What follows a component, while the loop goes on. */
  function Follow(x: Id): seq<Id> {
    match x
    case "begin" => ["loop"]
    case "loop" => [ITEM]
    case "item" => ["c1", "c2", "c3"]
    case "c2" => ["d"]
    case _ => [ITEM]
  }

  function Queued(path: seq<Id>, ids: seq<Id>): (r: seq<Id>)
    requires path != []
    ensures path <= r
    decreases |ids|
  {
    if ids == [] then path else Queued(ExtendIds(path, Follow(ids[0])), ids[1..])
  }

  lemma FanCounts()
    ensures LoopRun.Counts(FanEnv(), (w: int) => w, ITEM, 1)
  {
    hide LoopRun.SteppedBy;
  }

  lemma StartOfLoop()
    ensures StartIn(Fan(), Fan().order, "loop") == Some(ITEM)
  {
    hide NamesFillUp;
    var g := Fan();
    var rest: seq<Id> := [ITEM, "c1", "c2", "c3", "d"];
    assert g.order[1..][1..] == rest;
    assert IsItemOf(g, ITEM, "loop") && !IsItemOf(g, "loop", "loop") && !IsItemOf(g, "begin", "loop");
    hide IsItemOf;
    assert StartIn(g, rest, "loop") == Some(ITEM);
    assert StartIn(g, g.order[1..], "loop") == Some(ITEM);
  }

  lemma FanIsWellFormed()
    ensures WellFormed(Fan())
  {
    hide StartIn, IsItemOf, IsFillUp, NamesFillUp;
    StartOfLoop();
    assert Fan().nodes.Keys == {"begin", "loop", ITEM, "c1", "c2", "c3", "d"};
  }

  lemma FanFollows(w: int, x: Id)
    requires x in Fan().nodes && w != -1
    ensures WellFormed(Fan()) && Successors(Fan(), x, Seen(w, x)) == Some(Follow(x))
    ensures Known(Fan(), Follow(x)) && !Fan().nodes[x].kind.Message?
    ensures forall y <- Follow(x) :: !IsFillUp(Fan(), y)
  {
    hide WellFormed, StartIn;
    FanIsWellFormed();
    StartOfLoop();
  }

  lemma FanPost(s: State<int>, x: Id)
    requires x in Fan().nodes && s.world != -1 && s.path != [] && s.error.NoError?
    ensures WellFormed(Fan())
    ensures var r := PostProcess(Fan(), FanEnv(), s, x);
            r.Done? && r.st.path == ExtendIds(s.path, Follow(x)) && r.st.world == s.world && r.st.error.NoError?
  {
    hide WellFormed, Fan, Follow, ExtendIds, Successors;
    FanFollows(s.world, x);
  }

  lemma {:induction false} FanKept(before: seq<Id>, pending: seq<Id>)
    requires Known(Fan(), pending)
    ensures Kept(Fan(), before, pending) == before + pending
    decreases |pending|
  {
    hide NamesFillUp;
    if pending != [] {
      assert pending[0] in pending && forall y <- pending[1..] :: y in pending;
      assert Fan().nodes[pending[0]].refs == {};
      FanKept(before + [pending[0]], pending[1..]);
      assert before + [pending[0]] + pending[1..] == before + pending;
    } else {
      assert before + pending == before;
    }
  }

  lemma {:induction false} FanQueues(s: State<int>, i: nat, end: nat)
    requires i <= end <= |s.path| && Known(Fan(), s.path) && s.path != []
    requires s.world != -1 && s.error.NoError?
    ensures WellFormed(Fan()) && Known(Fan(), s.path[..end])
    ensures var r := PostProcessAll(Fan(), FanEnv(), s, i, end); var q := Queued(s.path, s.path[i..end]);
            && r.Done? && r.st.path == q && r.st.world == s.world && r.st.error.NoError? && Known(Fan(), q)
    decreases end - i
  {
    hide WellFormed, Fan, Follow, ExtendIds, PostProcess;
    FanIsWellFormed();
    KnownSlice(Fan(), s.path, end);
    if i < end {
      var x := s.path[i];
      assert x in s.path;
      FanPost(s, x);
      FanFollows(s.world, x);
      ExtensionIsKnown(Fan(), s.path, Follow(x));
      var t := PostProcess(Fan(), FanEnv(), s, x).st;
      assert t.path[..end] == s.path[..end];
      assert t.path[i + 1..end] == t.path[..end][i + 1..] == s.path[..end][i + 1..] == s.path[i + 1..end];
      assert s.path[i..end][1..] == s.path[i + 1..end];
      FanQueues(t, i + 1, end);
    }
  }

  lemma FanTurn(s: State<int>, idx: nat)
    requires idx < |s.path| && Known(Fan(), s.path) && s.error.NoError?
    requires Counted(s.world, s.path[idx..]) != -1
    ensures WellFormed(Fan()) && Ran(Fan(), FanEnv(), s, idx).path == s.path
    ensures var r := Round(Fan(), FanEnv(), s, idx, false);
            && r.Next? && r.idx == |s.path| && r.st.path == Queued(s.path, s.path[idx..])
            && r.st.world == Counted(s.world, s.path[idx..]) && r.st.error.NoError?
  {
    hide WellFormed, Fan, Queued, Counted, PostProcessAll, Round;
    FanIsWellFormed();
    KnownSlice(Fan(), s.path, idx);
    FanKept(s.path[..idx], s.path[idx..]);
    assert s.path[..idx] + s.path[idx..] == s.path;
    RoundIs(Fan(), FanEnv(), s, idx);
    var s2 := Ran(Fan(), FanEnv(), s, idx);
    assert s2.path == s.path && s2.world == Counted(s.world, s.path[idx..]);
    FanQueues(s2, idx, |s.path|);
    assert s.path[idx..|s.path|] == s.path[idx..];
    NoFillUps(Processed(Fan(), FanEnv(), s, idx).st.path[|s.path|..]);
  }

  lemma NoFillUps(ids: seq<Id>)
    ensures !HasFillUp(Fan(), ids)
  {
  }

  /** A turn of the run, with the path it begins on and the path it leaves. */
  lemma FanStep(s: State<int>, idx: nat, budget: nat, path: seq<Id>, w: int) returns (t: State<int>)
    requires idx < |s.path| && Known(Fan(), s.path) && s.error.NoError? && budget > 0
    requires Counted(s.world, s.path[idx..]) == w != -1 && Queued(s.path, s.path[idx..]) == path
    ensures t.path == path && t.world == w && t.error.NoError? && |s.path| <= |path|
    ensures WellFormed(Fan()) && Known(Fan(), t.path)
    ensures LoopRun.Batches(Fan(), FanEnv(), s, idx, budget)
         == [s.path[idx..]] + LoopRun.Batches(Fan(), FanEnv(), t, |s.path|, budget - 1)
    ensures LoopRun.Counters(Fan(), FanEnv(), (c: int) => c, s, idx, budget)
         == [s.world] + LoopRun.Counters(Fan(), FanEnv(), (c: int) => c, t, |s.path|, budget - 1)
  {
    hide WellFormed, Fan, FanEnv, Queued, Counted, Round, Ran;
    FanTurn(s, idx);
    t := Round(Fan(), FanEnv(), s, idx, false).st;
  }

  lemma QueuedNext(path: seq<Id>, x: Id, rest: seq<Id>, y: Id)
    requires path != []
    ensures Queued(path, []) == path
    ensures Queued(path, [x] + rest) == Queued(ExtendIds(path, Follow(x)), rest)
    ensures Follow(x) == [y] ==> Queued(path, [x] + rest) == Queued(AppendId(path, y), rest)
  {
    assert ([x] + rest)[1..] == rest;
    ExtendOne(path, y);
  }

  const P: seq<Id> := ["begin", "loop", ITEM]
  const CS: seq<Id> := ["c1", "c2", "c3"]

  lemma Names()
    ensures "begin" != "loop" && "loop" != ITEM && ITEM != "c1" && "c1" != "c2" && "c2" != "c3"
    ensures "c3" != ITEM && ITEM != "d" && "d" != ITEM
    ensures Follow("begin") == ["loop"] && Follow("loop") == [ITEM] && Follow(ITEM) == CS
    ensures Follow("c1") == [ITEM] && Follow("c2") == ["d"] && Follow("c3") == [ITEM]
  {
    assert "loop"[0] != ITEM[0] && "c1"[1] != "c2"[1] && "c2"[1] != "c3"[1];
  }

  lemma FirstPaths()
    ensures Queued(["begin"], ["begin"]) == ["begin", "loop"]
    ensures Queued(["begin", "loop"], ["loop"]) == P
    ensures Queued(P, [ITEM]) == P + CS
  {
    hide Queued, ExtendIds, Follow;
    Names();
    assert ["begin"] + [] == ["begin"] && ["loop"] + [] == ["loop"] && [ITEM] + [] == [ITEM];
    assert AppendId(["begin"], "loop") == ["begin", "loop"] && AppendId(["begin", "loop"], ITEM) == P;
    QueuedNext(["begin"], "begin", [], "loop");
    QueuedNext(["begin", "loop"], "loop", [], ITEM);
    QueuedNext(P, ITEM, [], ITEM);
    QueuedNext(P + CS, ITEM, [], ITEM);
    BodyIsQueued(P);
  }

  lemma BodyIsQueued(path: seq<Id>)
    requires path != [] && path[|path| - 1] == ITEM
    ensures ExtendIds(path, CS) == path + CS
  {
    hide Follow, ExtendIds;
    Names();
    assert CS == ["c1"] + ["c2", "c3"] && ["c2", "c3"] == ["c2"] + ["c3"];
    var p1, p2 := path + ["c1"], path + ["c1"] + ["c2"];
    assert AppendId(path, "c1") == p1 && AppendId(p1, "c2") == p2 && AppendId(p2, "c3") == p2 + ["c3"];
    hide AppendId;
    ExtendNext(path, "c1", ["c2", "c3"]);
    ExtendNext(p1, "c2", ["c3"]);
    ExtendOne(p2, "c3");
    assert p2 + ["c3"] == path + CS;
  }

  lemma ExtendNext(path: seq<Id>, x: Id, rest: seq<Id>)
    requires path != []
    ensures ExtendIds(path, [x] + rest) == ExtendIds(AppendId(path, x), rest)
  {
    assert ([x] + rest)[1..] == rest;
  }

  /** c1 queues the item node, c2 queues d, and c3, as d is last, the item node once more. */
  lemma ItemIsQueuedTwice()
    ensures Queued(P + CS, CS) == P + CS + [ITEM, "d", ITEM]
  {
    hide Queued, ExtendIds, Follow;
    Names();
    var q := P + CS;
    assert CS == ["c1"] + ["c2", "c3"] && ["c2", "c3"] == ["c2"] + ["c3"] && ["c3"] + [] == ["c3"];
    QueuedNext(q, "c1", ["c2", "c3"], ITEM);
    QueuedNext(q + [ITEM], "c2", ["c3"], "d");
    QueuedNext(q + [ITEM] + ["d"], "c3", [], ITEM);
    QueuedNext(q + [ITEM] + ["d"] + [ITEM], "c3", [], ITEM);
    assert q + [ITEM] + ["d"] + [ITEM] == q + [ITEM, "d", ITEM];
  }

  /** One visit steps the counter to 1; two visits then step it to -1 and on to 0. */
  lemma Visits()
    ensures Counted(0, ["begin"]) == 0 && Counted(0, ["loop"]) == 0 && Counted(0, [ITEM]) == 1
    ensures Counted(1, CS) == 1 && Counted(1, [ITEM, "d", ITEM]) == 0
    ensures multiset([ITEM])[ITEM] == 1 && multiset(CS)[ITEM] == 0 && multiset([ITEM, "d", ITEM])[ITEM] == 2
  {
    hide Follow;
    Names();
    assert LoopRun.SteppedBy(-1, 1, 1) == 0;
  }

  lemma SlicesOf(front: seq<Id>, batch: seq<Id>)
    ensures (front + batch)[|front|..] == batch
  {
  }

  /** The run from "begin": its fifth batch holds the item node twice, and the counter goes from
      1 to 0 in it. The loop does not end, though its body has been let in three times where the
      maximum is 1. */
  lemma FanOutrunsItsBound(s: State<int>)
    requires s.path == ["begin"] && s.world == 0 && s.error.NoError?
    ensures WellFormed(Fan()) && Known(Fan(), s.path)
    ensures LoopRun.Counts(FanEnv(), (c: int) => c, ITEM, 1)
    ensures var bs := LoopRun.Batches(Fan(), FanEnv(), s, 0, 5);
            var cs := LoopRun.Counters(Fan(), FanEnv(), (c: int) => c, s, 0, 5);
            && bs == [["begin"], ["loop"], [ITEM], CS, [ITEM, "d", ITEM]] && cs == [0, 0, 0, 1, 1, 0]
            && LoopRun.GoesOn(cs, bs, ITEM, 2, 5)
            && LoopRun.VisitsIn(bs[2..5], ITEM) == 3 > 1 - cs[2]
  {
    hide WellFormed, Fan, FanEnv, Queued, Counted, LoopRun.Counts, LoopRun.Batches, LoopRun.Counters;
    hide LoopRun.GoesOn, LoopRun.VisitsIn, Known;
    FanCounts();
    Visits();
    FirstPaths();
    ItemIsQueuedTwice();
    FanNodes(s.path);
    var p1 := ["begin", "loop"];
    var p3 := P + CS;
    SlicesOf([], ["begin"]);
    SlicesOf(["begin"], ["loop"]);
    SlicesOf(p1, [ITEM]);
    SlicesOf(P, CS);
    SlicesOf(p3, [ITEM, "d", ITEM]);
    assert s.path[0..] == ["begin"];
    var s1 := FanStep(s, 0, 5, p1, 0);
    var s2 := FanStep(s1, 1, 4, P, 0);
    var s3 := FanStep(s2, 2, 3, p3, 1);
    var s4 := FanStep(s3, 3, 2, p3 + [ITEM, "d", ITEM], 1);
    var last := Queued(s4.path, [ITEM, "d", ITEM]);
    var s5 := FanStep(s4, 6, 1, last, 0);
    NoBudget(s5, 9);
    ThreeVisits();
  }

  lemma FanNodes(ids: seq<Id>)
    requires ids == ["begin"]
    ensures WellFormed(Fan()) && Known(Fan(), ids)
  {
    FanIsWellFormed();
  }

  lemma NoBudget(s: State<int>, idx: nat)
    requires WellFormed(Fan()) && idx <= |s.path| && Known(Fan(), s.path)
    ensures LoopRun.Batches(Fan(), FanEnv(), s, idx, 0) == []
    ensures LoopRun.Counters(Fan(), FanEnv(), (c: int) => c, s, idx, 0) == [s.world]
  {
  }

  lemma ThreeVisits()
    ensures var bs := [["begin"], ["loop"], [ITEM], CS, [ITEM, "d", ITEM]];
            LoopRun.VisitsIn(bs[2..5], ITEM) == 3 && LoopRun.GoesOn([0, 0, 0, 1, 1, 0], bs, ITEM, 2, 5)
  {
    hide Counted;
    Visits();
    var bs := [[ITEM], CS, [ITEM, "d", ITEM]];
    assert bs[..2] == [[ITEM], CS] && [[ITEM], CS][..1] == [[ITEM]];
    assert [["begin"], ["loop"], [ITEM], CS, [ITEM, "d", ITEM]][2..5] == bs;
    assert LoopRun.VisitsIn([[ITEM]], ITEM) == 1;
    assert LoopRun.VisitsIn([[ITEM], CS], ITEM) == 1;
  }
}
