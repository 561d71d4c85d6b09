/** The item node of a loop: a counter with a maximum, and termination conditions. */
module Loop {

  /** The counter after one invocation. */
  function Stepped(idx: int, max: int): int {
    if idx >= max then -1 else idx + 1
  }

  datatype Value =
    | Null
    | Str(s: string)
    | Num(n: real)
    | Bool(b: bool)
    | List(items: seq<Value>)
    | Dict(entries: map<string, Value>)

  datatype Outcome<+T> = Is(value: T) | Raises

  /** Truth values count as numbers when values are compared. */
  function Plain(v: Value): Value {
    match v
    case Bool(b) => Num(if b then 1.0 else 0.0)
    case List(items) => List(seq(|items|, i requires 0 <= i < |items| => Plain(items[i])))
    case Dict(entries) => Dict(map k | k in entries :: Plain(entries[k]))
    case _ => v
  }

  predicate Same(a: Value, b: Value) { Plain(a) == Plain(b) }

  predicate IsNumber(v: Value) { v.Num? || v.Bool? }

  function Number(v: Value): real
    requires IsNumber(v)
  {
    Plain(v).n
  }

  predicate Within(part: string, whole: string) {
    exists k | 0 <= k <= |whole| :: OccursAt(part, whole, k)
  }

  predicate OccursAt(part: string, whole: string, k: nat) {
    k + |part| <= |whole| && whole[k..k + |part|] == part
  }

  predicate Member(items: seq<Value>, v: Value) {
    exists i | 0 <= i < |items| :: Same(items[i], v)
  }

  function Compare(a: Value, op: string, b: Value): Outcome<bool>
    requires IsNumber(a)
  {
    if !IsNumber(b) then Raises
    else match op
      case ">" => Is(Number(a) > Number(b))
      case "<" => Is(Number(a) < Number(b))
      case "≥" => Is(Number(a) >= Number(b))
      case _ => Is(Number(a) <= Number(b))
  }

  function OnText(s: string, op: string, value: Value): Outcome<bool> {
    match op
    case "contains" => if value.Str? then Is(Within(value.s, s)) else Raises
    case "not contains" => if value.Str? then Is(!Within(value.s, s)) else Raises
    case "start with" => if value.Str? then Is(value.s <= s) else Raises
    case "end with" => if value.Str? then Is(|value.s| <= |s| && s[|s| - |value.s|..] == value.s) else Raises
    case "is" => Is(Same(Str(s), value))
    case "is not" => Is(!Same(Str(s), value))
    case "empty" => Is(s == "")
    case "not empty" => Is(s != "")
    case _ => Raises
  }

  function OnNumber(v: Value, op: string, value: Value): Outcome<bool>
    requires IsNumber(v)
  {
    match op
    case "=" => Is(Same(v, value))
    case "≠" => Is(!Same(v, value))
    case ">" => Compare(v, op, value)
    case "<" => Compare(v, op, value)
    case "≥" => Compare(v, op, value)
    case "≤" => Compare(v, op, value)
    case "empty" => Is(false)
    case "not empty" => Is(true)
    case _ => Raises
  }

  function OnList(items: seq<Value>, op: string, value: Value): Outcome<bool> {
    match op
    case "contains" => Is(Member(items, value))
    case "not contains" => Is(!Member(items, value))
    case "is" => Is(Same(List(items), value))
    case "is not" => Is(!Same(List(items), value))
    case "empty" => Is(items == [])
    case "not empty" => Is(items != [])
    case _ => Raises
  }

  /** One termination condition. Truth values are numbers, so they are treated as numbers
      before the branch meant for them is reached. */
  function EvaluateCondition(v: Value, op: string, value: Value): Outcome<bool> {
    match v
    case Str(s) => OnText(s, op, value)
    case Num(_) => OnNumber(v, op, value)
    case Bool(_) => OnNumber(v, op, value)
    case Dict(entries) =>
      if op == "empty" then Is(|entries| == 0) else if op == "not empty" then Is(|entries| > 0) else Raises
    case List(items) => OnList(items, op, value)
    case Null => Is(op == "empty")
  }

  const NEGATIONS: seq<(string, string)> :=
    [("contains", "not contains"), ("is", "is not"), ("=", "≠"), ("empty", "not empty")]

  /** Each operator and its negation disagree wherever they apply; a missing value is the one
      exception, since it answers no to everything but "empty". */
  lemma NegationsDisagree(v: Value, value: Value, i: nat)
    requires i < |NEGATIONS|
    ensures var yes, no := EvaluateCondition(v, NEGATIONS[i].0, value), EvaluateCondition(v, NEGATIONS[i].1, value);
            (yes.Raises? <==> no.Raises?) &&
            (yes.Is? ==> ((yes.value != no.value) <==> !(v.Null? && NEGATIONS[i].0 != "empty")))
  {
    var (yes, no) := NEGATIONS[i];
    assert (yes, no) == ("contains", "not contains") || (yes, no) == ("is", "is not")
        || (yes, no) == ("=", "≠") || (yes, no) == ("empty", "not empty");
  }

  /** A condition that asks whether a truth value "is" something is never answered. */
  lemma TruthValuesHaveNoIs(b: bool, value: Value)
    ensures EvaluateCondition(Bool(b), "is", value).Raises? && EvaluateCondition(Bool(b), "is not", value).Raises?
  {
  }

  /** Numbers are compared as the operators say. */
  lemma NumbersAreCompared(a: real, b: real)
    ensures EvaluateCondition(Num(a), "=", Num(b)) == Is(a == b)
    ensures EvaluateCondition(Num(a), "≠", Num(b)) == Is(a != b)
    ensures EvaluateCondition(Num(a), ">", Num(b)) == Is(a > b)
    ensures EvaluateCondition(Num(a), "<", Num(b)) == Is(a < b)
    ensures EvaluateCondition(Num(a), "≥", Num(b)) == Is(a >= b)
    ensures EvaluateCondition(Num(a), "≤", Num(b)) == Is(a <= b)
  {
  }

  /** They are never empty, and neither equal to nor ordered against anything that is no number. */
  lemma NumbersAreNothingElse(a: real, op: string, v: Value)
    ensures EvaluateCondition(Num(a), "empty", v) == Is(false)
    ensures EvaluateCondition(Num(a), "not empty", v) == Is(true)
    ensures !v.Num? && !v.Bool? ==> EvaluateCondition(Num(a), "=", v) == Is(false)
    ensures !v.Num? && !v.Bool? && (op == ">" || op == "<" || op == "≥" || op == "≤") ==>
              EvaluateCondition(Num(a), op, v) == Raises
  {
  }

  /** Truth values are numbers, on either side. */
  lemma TruthValuesAreNumbers(t: bool, op: string, v: Value)
    ensures EvaluateCondition(Bool(t), op, v) == EvaluateCondition(Num(if t then 1.0 else 0.0), op, v)
    ensures v.Num? ==> EvaluateCondition(v, op, Bool(t)) == EvaluateCondition(v, op, Num(if t then 1.0 else 0.0))
  {
  }

  /** From position `k` on the text reads `p`. */
  predicate Contains(s: string, p: string, k: nat) {
    k + |p| <= |s| && s == s[..k] + p + s[k + |p|..]
  }

  lemma ContainsIsWithin(s: string, p: string)
    ensures Within(p, s) <==> exists k :: Contains(s, p, k)
  {
    if k :| 0 <= k <= |s| && OccursAt(p, s, k) {
      assert s == s[..k] + s[k..k + |p|] + s[k + |p|..];
      assert Contains(s, p, k);
    }
    if exists k :: Contains(s, p, k) {
      var k: nat :| Contains(s, p, k);
      assert (s[..k] + p + s[k + |p|..])[k..k + |p|] == p;
      assert OccursAt(p, s, k);
    }
  }

  /** Texts are asked for their parts, their ends and their equals. */
  lemma TextsAreCompared(s: string, p: string)
    ensures EvaluateCondition(Str(s), "contains", Str(p)) == Is(true) <==> exists k :: Contains(s, p, k)
    ensures EvaluateCondition(Str(p + s), "start with", Str(p)) == Is(true)
    ensures EvaluateCondition(Str(s + p), "end with", Str(p)) == Is(true)
    ensures EvaluateCondition(Str(s), "start with", Str(p)) == Is(true) ==> s == p + s[|p|..]
    ensures EvaluateCondition(Str(s), "end with", Str(p)) == Is(true) ==> |p| <= |s| && s == s[..|s| - |p|] + p
    ensures EvaluateCondition(Str(s), "is", Str(p)) == Is(s == p)
  {
    hide Within, Contains;
    ContainsIsWithin(s, p);
    assert (s + p)[|s + p| - |p|..] == p;
    if EvaluateCondition(Str(s), "end with", Str(p)) == Is(true) {
      assert s == s[..|s| - |p|] + s[|s| - |p|..];
    }
  }

  /** They are empty if they have no characters, and are compared with nothing that is no text. */
  lemma TextsAreNothingElse(s: string, v: Value)
    ensures EvaluateCondition(Str(s), "empty", v) == Is(s == "")
    ensures !v.Str? ==>
              && EvaluateCondition(Str(s), "is", v) == Is(false)
              && EvaluateCondition(Str(s), "contains", v) == Raises
              && EvaluateCondition(Str(s), "start with", v) == Raises
              && EvaluateCondition(Str(s), "end with", v) == Raises
  {
    hide Within;
  }

  /** Lists are asked for members, up to truth values being numbers; lists and dictionaries for
      being empty; a missing value is empty and nothing else. */
  lemma CollectionsAreCompared(items: seq<Value>, entries: map<string, Value>, op: string, v: Value)
    ensures EvaluateCondition(List(items), "contains", v) == Is(exists x <- items :: Plain(x) == Plain(v))
    ensures EvaluateCondition(List(items), "is", v) == Is(Plain(List(items)) == Plain(v))
    ensures EvaluateCondition(List(items), "empty", v) == Is(|items| == 0)
    ensures EvaluateCondition(Dict(entries), "empty", v) == Is(|entries| == 0)
    ensures EvaluateCondition(Dict(entries), "not empty", v) == Is(|entries| > 0)
    ensures op != "empty" && op != "not empty" ==> EvaluateCondition(Dict(entries), op, v) == Raises
    ensures EvaluateCondition(Null, op, v) == Is(op == "empty")
  {
    hide Plain;
    MembersAreTheSame(items, v);
  }

  /** Lists are the same if their items are. */
  lemma ListsAreTheSame(a: seq<Value>, b: seq<Value>)
    ensures Same(List(a), List(b)) <==> |a| == |b| && forall i | 0 <= i < |a| :: Same(a[i], b[i])
  {
    var pa, pb := Plain(List(a)).items, Plain(List(b)).items;
    assert |pa| == |a| && |pb| == |b|;
    assert forall i | 0 <= i < |a| :: pa[i] == Plain(a[i]);
    assert forall i | 0 <= i < |b| :: pb[i] == Plain(b[i]);
    if |a| == |b| && forall i | 0 <= i < |a| :: Same(a[i], b[i]) {
      assert pa == pb;
    }
  }

  /** Dictionaries are, if their keys are and what is under them. */
  lemma DictsAreTheSame(a: map<string, Value>, b: map<string, Value>)
    ensures Same(Dict(a), Dict(b)) <==> a.Keys == b.Keys && forall k <- a :: Same(a[k], b[k])
  {
    var pa, pb := Plain(Dict(a)).entries, Plain(Dict(b)).entries;
    assert pa.Keys == a.Keys && pb.Keys == b.Keys;
    assert forall k <- a :: pa[k] == Plain(a[k]);
    assert forall k <- b :: pb[k] == Plain(b[k]);
    if a.Keys == b.Keys && forall k <- a :: Same(a[k], b[k]) {
      assert pa == pb;
    }
  }

  lemma MembersAreTheSame(items: seq<Value>, v: Value)
    ensures Member(items, v) <==> exists x <- items :: Plain(x) == Plain(v)
  {
    hide Plain;
    if x :| x in items && Plain(x) == Plain(v) {
      var i :| 0 <= i < |items| && items[i] == x;
      assert Same(items[i], v);
    }
    if i :| 0 <= i < |items| && Same(items[i], v) {
      assert items[i] in items;
    }
  }

  /** A condition as written, with its operands looked up. */
  datatype Condition = Condition(complete: bool, validMode: bool, v: Value, op: string, value: Value)

  function Answer(c: Condition): Outcome<bool> {
    if !c.complete || !c.validMode then Raises else EvaluateCondition(c.v, c.op, c.value)
  }

  datatype LogicalOperator = And | Or | Unknown

  /** Should the loop end? Every condition is asked, also after the answer is known. */
  function ShouldEnd(conditions: seq<Condition>, logic: LogicalOperator): Outcome<bool> {
    if (exists c <- conditions :: Answer(c).Raises?) || logic.Unknown? then Raises
    else if logic.And? then Is(forall c <- conditions :: Answer(c) == Is(true))
    else Is(exists c <- conditions :: Answer(c) == Is(true))
  }

  /** The answer of the item node, and its counter afterwards. */
  function Ended(idx: int, conditions: seq<Condition>, logic: LogicalOperator): (Outcome<bool>, int) {
    if idx == -1 then (Is(true), idx)
    else
      var r := ShouldEnd(conditions, logic);
      (r, if r == Is(true) then -1 else idx)
  }

  /** A spent node is over and asks nothing. Otherwise one condition that is incomplete, has no
      valid mode or cannot be evaluated raises, as an unknown operator does; "and" needs all of
      them and "or" one; and the node is spent exactly when the loop is over. */
  lemma EndsWhenItsConditionsSay(idx: int, conditions: seq<Condition>, logic: LogicalOperator)
    ensures var (r, after) := Ended(idx, conditions, logic);
            var cannot := exists c <- conditions ::
                            !c.complete || !c.validMode || EvaluateCondition(c.v, c.op, c.value) == Raises;
            && (idx == -1 ==> r == Is(true))
            && (idx != -1 && (cannot || logic == Unknown) ==> r == Raises)
            && (idx != -1 && !cannot && logic == And ==>
                r == Is(forall c <- conditions :: EvaluateCondition(c.v, c.op, c.value) == Is(true)))
            && (idx != -1 && !cannot && logic == Or ==>
                r == Is(exists c <- conditions :: EvaluateCondition(c.v, c.op, c.value) == Is(true)))
            && after == if r == Is(true) then -1 else idx
  {
    hide EvaluateCondition;
    assert forall c <- conditions ::
        Answer(c).Raises? <==> !c.complete || !c.validMode || EvaluateCondition(c.v, c.op, c.value) == Raises;
  }

  class LoopItem {
    var idx: int

    constructor ()
      ensures idx == 0
    {
      idx := 0;
    }

    method Invoke(max: int)
      modifies this
      ensures idx == Stepped(old(idx), max)
      ensures 0 <= max && -1 <= old(idx) <= max ==> -1 <= idx <= max
    {
      if idx >= max {
        idx := -1;
        return;
      }
      idx := idx + 1;
    }

    method End(conditions: seq<Condition>, logic: LogicalOperator) returns (r: Outcome<bool>)
      modifies this
      ensures (r, idx) == Ended(old(idx), conditions, logic)
    {
      if idx == -1 {
        return Is(true);
      }
      var answers: seq<bool> := [];
      for i := 0 to |conditions|
        invariant |answers| == i && idx == old(idx)
        invariant forall j | 0 <= j < i :: Answer(conditions[j]) == Is(answers[j])
      {
        var a := Answer(conditions[i]);
        if a.Raises? {
          assert conditions[i] in conditions;
          return Raises;
        }
        answers := answers + [a.value];
      }
      assert forall c <- conditions :: exists j :: 0 <= j < |conditions| && conditions[j] == c;
      if logic.Unknown? {
        return Raises;
      }
      var end;
      if logic.And? {
        end := forall j | 0 <= j < |answers| :: answers[j];
      } else {
        end := exists j | 0 <= j < |answers| :: answers[j];
      }
      if end {
        idx := -1;
      }
      return Is(end);
    }
  }

  /** Without conditions, the default conjunction ends the loop before its body has run. */
  lemma NoConditionsEndAtOnce(idx: int)
    ensures Ended(idx, [], And) == (Is(true), -1) && Ended(idx, [], Or) == (Is(idx == -1), idx)
  {
  }
}
