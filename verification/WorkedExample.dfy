/** A workflow that doubles every number of an array: the iteration theorem applied, from its
    assumptions about components to the array of results. */
module WorkedExample {
  import opened Workflow
  import opened Scheduler
  import opened BodyPass
  import opened Iteration
  import opened IterationRun

  function Doubling(): Graph {
    Graph(["begin", "each", "item", "double", "show"],
          map["begin" := Node(Begin, ["each"], None, {}, NoHandler),
              "each" := Node(Kind.Iteration, ["show"], None, {"begin"}, NoHandler),
              "item" := Node(IterationItem, ["double"], Some("each"), {}, NoHandler),
              "double" := Node(Other, [], Some("each"), {"item"}, NoHandler),
              "show" := Node(Other, [], None, {"each"}, NoHandler)])
  }

  function DoublingConfig(arr: seq<int>): Config<int> {
    Config("each", "item", Doubling().order, {"item", "double"}, arr, map["results" := ("double", "out")], 0, i => i)
  }

  function Body(c: Id, vals: map<Port, int>): map<Port, int> {
    if ("item", "item") in vals then vals[(c, "out") := 2 * vals[("item", "item")]] else vals
  }

  function Ran(arr: seq<int>, w: World<int>, ids: seq<Id>): World<int> {
    if ids == ["item"] then Invoked(DoublingConfig(arr), w)
    else if ids == ["double"] then w.(vals := Body("double", w.vals))
    else w
  }

  function Seen(w: World<int>, x: Id): View {
    if x == "item" then ItemView(w) else View(NoError, false, No, None)
  }

  function DoublingEnv(arr: seq<int>): Env<World<int>> {
    Env(w => w, (w, ids) => Ran(arr, w, ids), (w, x) => Seen(w, x), (w, x) => w, (w, x, failed) => w)
  }

  lemma StartOfEach()
    ensures StartIn(Doubling(), Doubling().order, "each") == Some("item")
  {
    hide NamesFillUp;
    var g := Doubling();
    var rest: seq<Id> := ["item", "double", "show"];
    assert g.order[1..][1..] == rest;
    assert IsItemOf(g, "item", "each") && !IsItemOf(g, "each", "each") && !IsItemOf(g, "begin", "each");
    hide IsItemOf;
    assert StartIn(g, rest, "each") == Some("item");
    assert StartIn(g, g.order[1..], "each") == Some("item");
  }

  lemma DoublingIsWellFormed()
    ensures WellFormed(Doubling())
  {
    hide StartIn, IsItemOf, IsFillUp, NamesFillUp;
    StartOfEach();
    assert Doubling().nodes.Keys == {"begin", "each", "item", "double", "show"};
  }

  lemma DoublingIsAChain()
    ensures WellFormed(Doubling())
    ensures IsChain(Doubling(), "each", "item", ["double"])
    ensures DependsBackwards(Doubling(), ["begin", "each"], "item", ["double"])
    ensures LeadsOn(Doubling(), "each")
  {
    hide StartIn, WellFormed;
    StartOfEach();
    DoublingIsWellFormed();
  }

  lemma DoublingBehaves(arr: seq<int>)
    ensures Behaves(DoublingEnv(arr), DoublingConfig(arr), Body, ["double"])
  {
    hide Invoked, Body, ItemView, Doubling;
  }

  /** Once the item node is up, the run doubles the whole array and goes on to "show". */
  lemma DoublesEverything(arr: seq<int>, s: State<World<int>>)
    requires s.path == ["begin", "each", "item"] && s.error.NoError?
    requires s.world == World(0, false, map[], map[])
    ensures WellFormed(Doubling()) && Known(Doubling(), s.path)
    ensures var n := |arr|;
            var done := ["begin", "each"] + Repeat(["item", "double"], n) + ["item"];
            exists w: World<int> ::
              && Arrives(Doubling(), DoublingEnv(arr), s, 2, PassTurns(["double"], n) + 1,
                         ExtendIds(done, ["show"]), |done|, w)
              && Out(w.outs, "results") == seq(n, j requires 0 <= j < n => 2 * arr[j])
  {
    hide WellFormed, IsChain, DependsBackwards, Behaves, NamesFillUp, Arrives, ExtendIds, Repeat, PassTurns, LeadsOn;
    var g, env, cfg, cs := Doubling(), DoublingEnv(arr), DoublingConfig(arr), ["double"];
    var front := ["begin", "each"];
    DoublingIsAChain();
    DoublingBehaves(arr);
    assert front + ["item"] == s.path && ["item"] + cs == ["item", "double"];
    IterationIsAMap(g, env, cfg, Body, cs, front, s, front);
    ResultsDouble(arr);
    assert Collects(cfg, "results");
  }

  lemma ResultsDouble(arr: seq<int>)
    ensures Results(DoublingConfig(arr), Body, ["double"], map[], "results", |arr|)
         == seq(|arr|, j requires 0 <= j < |arr| => 2 * arr[j])
  {
    var cfg := DoublingConfig(arr);
    forall vs: map<Port, int>, a: int, i: int
      ensures Val(cfg, BodyVals(Body, HandOut(cfg, vs, a, i), ["double"]), cfg.outputs["results"]) == 2 * a
    {
      OneElement(cfg, vs, a, i);
    }
    ResultsAreAMap(cfg, Body, ["double"], map[], "results", a => 2 * a);
  }

  lemma OneElement(cfg: Config<int>, vs: map<Port, int>, a: int, i: int)
    requires cfg.item == "item"
    ensures Val(cfg, BodyVals(Body, HandOut(cfg, vs, a, i), ["double"]), ("double", "out")) == 2 * a
  {
    var given := HandOut(cfg, vs, a, i);
    assert ["double"][1..] == [];
    assert BodyVals(Body, given, ["double"]) == Body("double", given);
  }
}
