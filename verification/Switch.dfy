/** The switch component: which branch the first condition that holds leads to. */
module Switch {
  import opened Workflow

  datatype Item = Item(component: Id, op: string, value: string)

  datatype Condition = Condition(logic: string, items: seq<Item>, targets: seq<Id>)

  datatype Outcome = Goes(targets: seq<Id>) | Raised

  /** The items that name a component; the others are passed over. */
  function Counted(items: seq<Item>): (r: seq<Item>)
    ensures forall i <- r :: i.component != ""
  {
    if items == [] then []
    else if items[0].component == "" then Counted(items[1..])
    else [items[0]] + Counted(items[1..])
  }

  /** What an item evaluates to, `None` when evaluating it raises. */
  type Eval = Item -> Option<bool>

  /** The first item from the left that is not false. */
  predicate Decides(eval: Eval, items: seq<Item>, k: nat, v: Option<bool>)
    requires k < |items|
  {
    eval(items[k]) == v && forall j | 0 <= j < k :: eval(items[j]) == Some(false)
  }

  predicate All(eval: Eval, items: seq<Item>, v: bool) {
    forall i <- items :: eval(i) == Some(v)
  }

  predicate AllEvaluate(eval: Eval, items: seq<Item>) {
    forall i <- items :: eval(i).Some?
  }

  /** "and" needs every item; any other logic needs one item, or that there are none to need. */
  predicate Holds(eval: Eval, c: Condition) {
    var items := Counted(c.items);
    if c.logic == "and" then All(eval, items, true)
    else items == [] || exists k | 0 <= k < |items| :: Decides(eval, items, k, Some(true))
  }

  predicate Fails(eval: Eval, c: Condition) {
    var items := Counted(c.items);
    if c.logic == "and" then AllEvaluate(eval, items) && !All(eval, items, true)
    else items != [] && All(eval, items, false)
  }

  /** "and" evaluates every item; any other logic evaluates none after the first that is true. */
  predicate Raises(eval: Eval, c: Condition) {
    var items := Counted(c.items);
    if c.logic == "and" then !AllEvaluate(eval, items)
    else exists k | 0 <= k < |items| :: Decides(eval, items, k, None)
  }

  lemma ConditionsAreOneOfThree(eval: Eval, c: Condition)
    ensures Holds(eval, c) || Fails(eval, c) || Raises(eval, c)
    ensures !(Holds(eval, c) && Fails(eval, c))
    ensures !(Holds(eval, c) && Raises(eval, c))
    ensures !(Fails(eval, c) && Raises(eval, c))
  {
    var items := Counted(c.items);
    if c.logic != "and" {
      FirstNotFalse(eval, items);
      if !All(eval, items, false) {
        var k, v :| 0 <= k < |items| && v != Some(false) && Decides(eval, items, k, v);
        OneOfThree(v);
      }
    }
  }

  lemma OneOfThree(v: Option<bool>)
    ensures v == None || v == Some(true) || v == Some(false)
  {
    if v.Some? && v.value {
      assert v == Some(true);
    }
  }

  lemma {:induction false} FirstNotFalse(eval: Eval, items: seq<Item>)
    ensures All(eval, items, false) || exists k, v :: 0 <= k < |items| && v != Some(false) && Decides(eval, items, k, v)
  {
    if items != [] {
      var n := |items| - 1;
      FirstNotFalse(eval, items[..n]);
      if k, v :| 0 <= k < n && v != Some(false) && Decides(eval, items[..n], k, v) {
        assert Decides(eval, items, k, v);
      } else if eval(items[n]) != Some(false) {
        assert Decides(eval, items, n, eval(items[n]));
      }
    }
  }

  /** All conditions before `k` fail. */
  predicate AllFail(eval: Eval, conditions: seq<Condition>, k: nat)
    requires k <= |conditions|
  {
    forall j | 0 <= j < k :: Fails(eval, conditions[j])
  }

  predicate Settles(eval: Eval, c: Condition, out: Outcome) {
    (Holds(eval, c) && out == Goes(c.targets)) || (Raises(eval, c) && out == Raised)
  }

  /** The first condition that does not fail settles where to go; without one it is `otherwise`. */
  predicate IsChoice(eval: Eval, conditions: seq<Condition>, otherwise: seq<Id>, out: Outcome) {
    || (AllFail(eval, conditions, |conditions|) && out == Goes(otherwise))
    || (exists k | 0 <= k < |conditions| :: AllFail(eval, conditions, k) && Settles(eval, conditions[k], out))
  }

  lemma ChoiceIsUnique(eval: Eval, conditions: seq<Condition>, otherwise: seq<Id>, a: Outcome, b: Outcome)
    requires IsChoice(eval, conditions, otherwise, a) && IsChoice(eval, conditions, otherwise, b)
    ensures a == b
  {
    hide Holds, Fails, Raises;
    forall c <- conditions {
      ConditionsAreOneOfThree(eval, c);
    }
    if k, j :| (0 <= k < |conditions| && 0 <= j < |conditions|
                && AllFail(eval, conditions, k) && Settles(eval, conditions[k], a)
                && AllFail(eval, conditions, j) && Settles(eval, conditions[j], b)) {
      assert k < j || j < k || k == j;
    }
  }

  lemma {:induction false} CountedSplits(a: seq<Item>, b: seq<Item>)
    ensures Counted(a + b) == Counted(a) + Counted(b)
  {
    if a == [] {
      assert a + b == b;
    } else {
      assert (a + b)[1..] == a[1..] + b;
      CountedSplits(a[1..], b);
    }
  }

  method Invoke(eval: Eval, conditions: seq<Condition>, otherwise: seq<Id>) returns (out: Outcome)
    ensures IsChoice(eval, conditions, otherwise, out)
  {
    hide Holds, Fails, Raises;
    for k := 0 to |conditions|
      invariant AllFail(eval, conditions, k)
    {
      var holds := Test(eval, conditions[k]);
      if holds == None {
        return Raised;
      }
      if holds.value {
        return Goes(conditions[k].targets);
      }
    }
    return Goes(otherwise);
  }

  /** The loop over the items of one condition. */
  method Test(eval: Eval, c: Condition) returns (holds: Option<bool>)
    ensures holds == Some(true) <==> Holds(eval, c)
    ensures holds == Some(false) <==> Fails(eval, c)
    ensures holds == None <==> Raises(eval, c)
  {
    hide Holds, Fails, Raises, Counted;
    ConditionsAreOneOfThree(eval, c);
    var res: seq<bool> := [];
    JustNone(c.items);
    for m := 0 to |c.items|
      invariant Evaluated(eval, Counted(c.items[..m]), res)
      invariant c.logic != "and" ==> true !in res
    {
      var item := c.items[m];
      ghost var done := Counted(c.items[..m]);
      InMiddle(c.items[..m], item, c.items[m + 1..]);
      assert c.items[..m + 1] == c.items[..m] + [item];
      assert c.items[..m + 1] + c.items[m + 1..] == c.items;
      if item.component == "" {
        continue;
      }
      var v := eval(item);
      if v.None? {
        Undecided(eval, c, done, res);
        return None;
      }
      res := res + [v.value];
      if c.logic != "and" && true in res {
        Decided(eval, c, done, res);
        return Some(true);
      }
    }
    assert c.items[..|c.items|] == c.items;
    if false in res {
      SomeFalse(eval, c, res);
      return Some(false);
    }
    AllTrue(eval, c, res);
    return Some(true);
  }

  lemma InMiddle(pre: seq<Item>, item: Item, post: seq<Item>)
    ensures Counted(pre + [item]) == Counted(pre) + (if item.component == "" then [] else [item])
    ensures Counted(pre + [item]) <= Counted(pre + [item] + post)
  {
    hide Counted;
    JustOne(item);
    CountedSplits(pre, [item]);
    CountedSplits(pre + [item], post);
  }

  lemma JustNone(items: seq<Item>)
    ensures Counted(items[..0]) == []
  {
  }

  lemma JustOne(item: Item)
    ensures Counted([item]) == if item.component == "" then [] else [item]
  {
    assert [item][1..] == [];
  }

  predicate Evaluated(eval: Eval, items: seq<Item>, res: seq<bool>) {
    |res| == |items| && forall j | 0 <= j < |res| :: eval(items[j]) == Some(res[j])
  }

  lemma Undecided(eval: Eval, c: Condition, done: seq<Item>, res: seq<bool>)
    requires done < Counted(c.items) && Evaluated(eval, done, res) && (c.logic != "and" ==> true !in res)
    requires eval(Counted(c.items)[|done|]).None?
    ensures Raises(eval, c)
  {
    var items := Counted(c.items);
    assert items[|done|] in items;
    forall j | 0 <= j < |res| ensures res[j] in res && (!res[j] ==> eval(items[j]) == Some(false)) {
      OneOfThree(eval(items[j]));
    }
    assert c.logic != "and" ==> Decides(eval, items, |done|, None);
  }

  lemma Decided(eval: Eval, c: Condition, done: seq<Item>, res: seq<bool>)
    requires done < Counted(c.items) && |res| == |done| + 1 && Evaluated(eval, Counted(c.items)[..|res|], res)
    requires c.logic != "and" && true !in res[..|done|] && res[|done|]
    ensures Holds(eval, c)
  {
    assert Decides(eval, Counted(c.items), |done|, Some(true)) by {
      var items := Counted(c.items);
      forall j | 0 <= j < |done| ensures eval(items[j]) == Some(false) {
        assert res[..|done|][j] == res[j] && items[..|res|][j] == items[j];
      }
      assert items[..|res|][|done|] == items[|done|];
    }
  }

  lemma AllTrue(eval: Eval, c: Condition, res: seq<bool>)
    requires Evaluated(eval, Counted(c.items), res) && false !in res
    ensures Holds(eval, c)
  {
    var items := Counted(c.items);
    forall j | 0 <= j < |res| ensures eval(items[j]) == Some(true) {
      assert res[j] in res;
      OneOfThree(eval(items[j]));
    }
    assert items != [] ==> Decides(eval, items, 0, Some(true));
  }

  lemma SomeFalse(eval: Eval, c: Condition, res: seq<bool>)
    requires Evaluated(eval, Counted(c.items), res) && false in res && (c.logic != "and" ==> true !in res)
    ensures Fails(eval, c)
  {
    var items := Counted(c.items);
    forall j | 0 <= j < |res| ensures res[j] in res && (!res[j] ==> eval(items[j]) == Some(false)) {
      OneOfThree(eval(items[j]));
    }
    var j :| 0 <= j < |res| && !res[j];
    assert items[j] in items;
  }
}
