/** An iteration whose body waits for a component that has not run: the run is over after the
    first element, and reports itself finished. */
module UnreadyBody {
  import opened Workflow
  import opened Scheduler
  import opened SchedulerSafety
  import opened BodyPass

  const EACH: Id := "each"
  const ITEM: Id := "item"
  const USE: Id := "use"

  function Waiting(): Graph {
    Graph(["begin", EACH, ITEM, USE, "late"],
          map["begin" := Node(Begin, [EACH], None, {}, NoHandler),
              EACH := Node(Kind.Iteration, ["late"], None, {}, NoHandler),
              ITEM := Node(IterationItem, [USE], Some(EACH), {}, NoHandler),
              USE := Node(Other, [], Some(EACH), {"late"}, NoHandler),
              "late" := Node(Other, [], None, {}, NoHandler)])
  }

  /** Nothing fails, and the item node always has one more element. */
  function CalmEnv<W>(): Env<W> {
    Env(w => w, (w, ids) => w, (w, x) => View(NoError, false, No, None), (w, x) => w, (w, x, failed) => w)
  }

  lemma StartOfEach()
    ensures StartIn(Waiting(), Waiting().order, EACH) == Some(ITEM)
  {
    hide NamesFillUp;
    var g := Waiting();
    var rest: seq<Id> := [ITEM, USE, "late"];
    assert g.order[1..][1..] == rest;
    assert IsItemOf(g, ITEM, EACH) && !IsItemOf(g, EACH, EACH) && !IsItemOf(g, "begin", EACH);
    hide IsItemOf;
    assert StartIn(g, rest, EACH) == Some(ITEM);
    assert StartIn(g, g.order[1..], EACH) == Some(ITEM);
  }

  lemma WaitingIsWellFormed()
    ensures WellFormed(Waiting())
  {
    hide StartIn, IsItemOf, IsFillUp, NamesFillUp;
    StartOfEach();
    assert Waiting().nodes.Keys == {"begin", EACH, ITEM, USE, "late"};
  }

  lemma ItemMovesOnToUse<W>(s: State<W>)
    ensures WellFormed(Waiting()) && MovesOn(Waiting(), CalmEnv(), s, ITEM, [USE])
  {
    hide WellFormed, NamesFillUp, StartIn;
    WaitingIsWellFormed();
  }

  lemma UseIsNotReady()
    ensures ITEM in Waiting().nodes && Ready(Waiting(), ["begin", EACH], ITEM)
    ensures NoneReady(Waiting(), ["begin", EACH, ITEM], NoRepeats(ITEM, [USE]))
  {
    assert "late" !in ["begin", EACH, ITEM] by {
      assert "late"[0] != EACH[0] && "late"[0] != ITEM[0];
    }
    assert !NamesFillUp("begin");
    assert NoRepeats(ITEM, [USE]) == [USE] by {
      assert [USE][1..] == [];
    }
  }

  lemma WaitingBodyEndsTheRun<W>(s: State<W>, budget: nat)
    requires s.path == ["begin", EACH, ITEM] && s.error.NoError? && budget > 1
    ensures WellFormed(Waiting()) && Known(Waiting(), s.path)
    ensures var e := RunFrom(Waiting(), CalmEnv(), s, 2, budget);
            e.Finished? && e.st.path == s.path
  {
    hide WellFormed, Ready, NoneReady, NamesFillUp, RunFrom, MovesOn;
    var front := ["begin", EACH];
    assert front + [ITEM] == s.path;
    ItemMovesOnToUse(s);
    UseIsNotReady();
    LoneEntryEndsTheRun(Waiting(), CalmEnv(), s, front, ITEM, [USE], budget);
  }
}
