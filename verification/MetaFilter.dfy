/** Selecting documents by their metadata. */
module MetaFilter {
  import opened Dates
  import opened Text

  type Doc = string

  /** One value of a metadata key, with the documents that have it. */
  datatype Record<V> = Record(input: V, docs: seq<Doc>)

  datatype Filter<V> = Filter(key: string, op: string, value: V)

  /**
   * The parts of Python the filter relies on: the text of a value, what the branches without
   * dates make of an input and a query value (evaluated, lower-cased), and how they match them.
   */
  datatype Values<!V> = Values(
    textOf: V -> string,
    text: string -> V,
    prepared: (V, string, V) -> (V, V),
    matched: (V, string, V) -> bool)

  ghost predicate TextsRead<V(!new)>(w: Values<V>) {
    forall s :: w.textOf(w.text(s)) == s
  }

  predicate Compares(op: string) { op in ["=", "≠", ">", "<", "≥", "≤"] }

  function Trimmed<V>(w: Values<V>, v: V): string { Strip(w.textOf(v)) }

  /** Whether the records are compared as dates. */
  predicate AsksForDates<V>(w: Values<V>, op: string, value: V) {
    Compares(op) && IsDate(Trimmed(w, value))
  }

  predicate TextsCompare(op: string, a: string, b: string)
    requires Compares(op)
  {
    if op == "=" then a == b
    else if op == "≠" then a != b
    else if op == ">" then Less(b, a)
    else if op == "<" then Less(a, b)
    else if op == "≥" then !Less(a, b)
    else !Less(b, a)
  }

  /** Whether the record matches, and the query value that is left for the records after it. */
  function Tried<V>(w: Values<V>, r: Record<V>, op: string, value: V): (bool, V) {
    if AsksForDates(w, op, value) then
      var input := Trimmed(w, r.input);
      if IsDate(input) then (TextsCompare(op, input, Trimmed(w, value)), w.text(Trimmed(w, value)))
      else (false, value)
    else
      var (i, v) := w.prepared(r.input, op, value);
      (w.matched(i, op, v), v)
  }

  function Matches<V>(w: Values<V>, records: seq<Record<V>>, op: string, value: V): seq<Doc> {
    if records == [] then []
    else
      var (hit, left) := Tried(w, records[0], op, value);
      (if hit then records[0].docs else []) + Matches(w, records[1..], op, left)
  }

  method FilterOut<V>(w: Values<V>, records: seq<Record<V>>, op: string, query: V) returns (docs: seq<Doc>)
    ensures docs == Matches(w, records, op, query)
  {
    hide Strip, IsDate, Less, TextsCompare, Compares, Matches;
    docs := [];
    var value := query;
    for k := 0 to |records|
      invariant docs + Matches(w, records[k..], op, value) == Matches(w, records, op, query)
    {
      var input := records[k].input;
      MatchesFrom(w, records, k, op, value);
      var matched;
      if AsksForDates(w, op, value) {
        if !IsDate(Trimmed(w, input)) {
          continue;
        }
        var i, v := Trimmed(w, input), Trimmed(w, value);
        value := w.text(v);
        matched := TextsCompare(op, i, v);
      } else {
        var (i, v) := w.prepared(input, op, value);
        value := v;
        matched := w.matched(i, op, v);
      }
      if matched {
        docs := docs + records[k].docs;
      }
    }
    MatchesFrom(w, records, |records|, op, value);
  }

  lemma MatchesFrom<V>(w: Values<V>, records: seq<Record<V>>, k: nat, op: string, value: V)
    requires k <= |records|
    ensures k == |records| ==> Matches(w, records[k..], op, value) == []
    ensures k < |records| ==>
              var t := Tried(w, records[k], op, value);
              Matches(w, records[k..], op, value)
              == (if t.0 then records[k].docs else []) + Matches(w, records[k + 1..], op, t.1)
  {
    hide Tried;
    if k < |records| {
      assert records[k..][0] == records[k] && records[k..][1..] == records[k + 1..];
    }
  }

  /** What a comparison of dates means. */
  predicate DatesCompare(op: string, a: Date, b: Date)
    requires Compares(op)
  {
    match op
    case "=" => a == b
    case "≠" => a != b
    case ">" => Earlier(b, a)
    case "<" => Earlier(a, b)
    case "≥" => a == b || Earlier(b, a)
    case _ => a == b || Earlier(a, b)
  }

  predicate DateHit<V>(w: Values<V>, r: Record<V>, op: string, date: Date)
    requires Compares(op)
  {
    IsDate(Trimmed(w, r.input)) && DatesCompare(op, DateOf(Trimmed(w, r.input)), date)
  }

  function DateHits<V>(w: Values<V>, records: seq<Record<V>>, op: string, date: Date): seq<Doc>
    requires Compares(op)
  {
    if records == [] then []
    else (if DateHit(w, records[0], op, date) then records[0].docs else []) + DateHits(w, records[1..], op, date)
  }

  /** A query for a date gives the documents whose dates stand in the asked relation to it, and
      leaves out every record that is no date. */
  lemma {:induction false} DateQueriesCompareDates<V(!new)>(
    w: Values<V>, records: seq<Record<V>>, op: string, value: V)
    requires TextsRead(w)
    requires op == "=" || op == "≠" || op == ">" || op == "<" || op == "≥" || op == "≤"
    requires IsDate(Strip(w.textOf(value)))
    ensures Compares(op) && Matches(w, records, op, value) == DateHits(w, records, op, DateOf(Strip(w.textOf(value))))
  {
    hide IsDate, DateOf, Strip, Less;
    if records != [] {
      var date := Trimmed(w, value);
      StripStrips(w.textOf(value));
      assert Trimmed(w, w.text(date)) == date;
      if IsDate(Trimmed(w, records[0].input)) {
        TextsCompareAsDates(op, Trimmed(w, records[0].input), date);
      }
      assert Trimmed(w, Tried(w, records[0], op, value).1) == date;
      DateQueriesCompareDates(w, records[1..], op, Tried(w, records[0], op, value).1);
    }
  }

  lemma TextsCompareAsDates(op: string, a: string, b: string)
    requires Compares(op) && IsDate(a) && IsDate(b)
    ensures TextsCompare(op, a, b) <==> DatesCompare(op, DateOf(a), DateOf(b))
  {
    hide IsDate, DateOf, Less;
    DateTextsCompareAsDates(a, b);
    DateTextsCompareAsDates(b, a);
  }

  lemma {:induction false} StripStrips(s: string)
    ensures Strip(Strip(s)) == Strip(s)
    decreases |s|
  {
    if s != [] && IsSpace(s[0]) {
      StripStrips(s[1..]);
    } else if s != [] && IsSpace(s[|s| - 1]) {
      StripStrips(s[..|s| - 1]);
    }
  }

  /**
   * The query value is kept from record to record: a quoted date is no date for the first
   * record, and is one for those after it once the first has been evaluated.
   */
  lemma AQuotedDateBecomesADate<V(!new)>(w: Values<V>, first: Record<V>, records: seq<Record<V>>, op: string, value: V)
    requires TextsRead(w) && Compares(op) && !AsksForDates(w, op, value)
    requires AsksForDates(w, op, w.prepared(first.input, op, value).1)
    ensures Matches(w, [first] + records, op, value)
         == Matches(w, [first], op, value)
            + DateHits(w, records, op, DateOf(Trimmed(w, w.prepared(first.input, op, value).1)))
  {
    hide IsDate, Strip;
    var left := w.prepared(first.input, op, value).1;
    DateQueriesCompareDates(w, records, op, left);
    assert ([first] + records)[1..] == records;
  }

  // Queries that are not for dates.

  /** The records are not compared as dates, because of the operator or of the query value. */
  predicate IsPlain<V>(w: Values<V>, op: string, value: V) {
    op !in {"=", "≠", ">", "<", "≥", "≤"} || !IsDate(Strip(w.textOf(value)))
  }

  /** The query value after it has been prepared with each of the records in turn. */
  function Carried<V>(w: Values<V>, records: seq<Record<V>>, op: string, value: V): V {
    if records == [] then value
    else w.prepared(records[|records| - 1].input, op, Carried(w, records[..|records| - 1], op, value)).1
  }

  /** It is not for dates at any record. */
  predicate StaysPlain<V>(w: Values<V>, records: seq<Record<V>>, op: string, value: V) {
    forall k | 0 <= k < |records| :: IsPlain(w, op, Carried(w, records[..k], op, value))
  }

  /** Whether record `k` is matched, both sides prepared. */
  predicate PlainHit<V>(w: Values<V>, records: seq<Record<V>>, op: string, value: V, k: nat)
    requires k < |records|
  {
    var (i, v) := w.prepared(records[k].input, op, Carried(w, records[..k], op, value));
    w.matched(i, op, v)
  }

  /** The documents of the matched records, in order. */
  function PlainHits<V>(w: Values<V>, records: seq<Record<V>>, op: string, value: V): seq<Doc> {
    if records == [] then []
    else
      var n := |records| - 1;
      PlainHits(w, records[..n], op, value) + if PlainHit(w, records, op, value, n) then records[n].docs else []
  }

  /** A query that never becomes one for a date gives the documents of exactly the records that
      are matched once input and query value have been prepared. */
  lemma {:induction false} PlainQueriesMatch<V>(w: Values<V>, records: seq<Record<V>>, op: string, value: V)
    requires StaysPlain(w, records, op, value)
    ensures Matches(w, records, op, value) == PlainHits(w, records, op, value)
    decreases |records|
  {
    hide IsDate, Strip, IsPlain, PlainHit;
    if records != [] {
      var n := |records| - 1;
      var front, r := records[..n], records[n];
      forall k | 0 <= k < n ensures IsPlain(w, op, Carried(w, front[..k], op, value)) {
        assert front[..k] == records[..k];
      }
      assert IsPlain(w, op, Carried(w, records[..n], op, value));
      PlainQueriesMatch(w, front, op, value);
      assert records == front + [r];
      OnceMore(w, front, r, op, value);
      PlainOne(w, records, op, value, n);
    }
  }

  lemma PlainOne<V>(w: Values<V>, records: seq<Record<V>>, op: string, value: V, k: nat)
    requires k < |records| && IsPlain(w, op, Carried(w, records[..k], op, value))
    ensures Matches(w, [records[k]], op, Carried(w, records[..k], op, value))
         == if PlainHit(w, records, op, value, k) then records[k].docs else []
  {
    hide IsDate, Strip;
    var r := records[k];
    assert [r][1..] == [];
  }

  lemma PlainFirst<V>(w: Values<V>, first: Record<V>, rest: seq<Record<V>>, op: string, value: V)
    requires IsPlain(w, op, value)
    ensures Matches(w, [first] + rest, op, value)
         == Matches(w, [first], op, value) + Matches(w, rest, op, w.prepared(first.input, op, value).1)
  {
    hide IsDate, Strip;
    assert ([first] + rest)[1..] == rest && [first][1..] == [];
  }

  /** As long as the queries before it were plain, the last record is tried with what they left. */
  lemma {:induction false} OnceMore<V>(w: Values<V>, front: seq<Record<V>>, r: Record<V>, op: string, value: V)
    requires StaysPlain(w, front, op, value)
    ensures Matches(w, front + [r], op, value)
         == Matches(w, front, op, value) + Matches(w, [r], op, Carried(w, front, op, value))
    decreases |front|
  {
    if front == [] {
      assert front + [r] == [r];
      CarriedNothing(w, op, value);
    } else {
      hide StaysPlain, IsPlain, Matches, Carried;
      var first, rest := front[0], front[1..];
      var left := w.prepared(first.input, op, value).1;
      RestStaysPlain(w, front, op, value);
      OnceMore(w, rest, r, op, left);
      assert front == [first] + rest;
      Together([first], rest, [r]);
      PlainFirst(w, first, rest, op, value);
      PlainFirst(w, first, rest + [r], op, value);
      Together(Matches(w, [first], op, value), Matches(w, rest, op, left),
               Matches(w, [r], op, Carried(w, front, op, value)));
    }
  }

  lemma Together<T>(a: seq<T>, b: seq<T>, c: seq<T>)
    ensures a + (b + c) == (a + b) + c
  {
  }

  lemma RestStaysPlain<V>(w: Values<V>, front: seq<Record<V>>, op: string, value: V)
    requires front != [] && StaysPlain(w, front, op, value)
    ensures var left := w.prepared(front[0].input, op, value).1;
            && IsPlain(w, op, value) && StaysPlain(w, front[1..], op, left)
            && Carried(w, front[1..], op, left) == Carried(w, front, op, value)
  {
    hide IsPlain, Carried;
    var first, rest := front[0], front[1..];
    var left := w.prepared(first.input, op, value).1;
    forall k | 0 <= k <= |rest| ensures Carried(w, rest[..k], op, left) == Carried(w, front[..k + 1], op, value) {
      CarriedOn(w, first, rest[..k], op, value);
      assert front[..k + 1] == [first] + rest[..k];
    }
    forall k | 0 <= k < |rest| ensures IsPlain(w, op, Carried(w, rest[..k], op, left)) {
      assert IsPlain(w, op, Carried(w, front[..k + 1], op, value));
    }
    assert rest[..|rest|] == rest && front[..|rest| + 1] == front;
    CarriedNothing(w, op, value);
    assert front[..0] == [] && IsPlain(w, op, Carried(w, front[..0], op, value));
  }

  lemma CarriedNothing<V>(w: Values<V>, op: string, value: V)
    ensures Carried(w, [], op, value) == value
  {
  }

  lemma {:induction false} CarriedOn<V>(w: Values<V>, first: Record<V>, rest: seq<Record<V>>, op: string, value: V)
    ensures Carried(w, [first] + rest, op, value) == Carried(w, rest, op, w.prepared(first.input, op, value).1)
    decreases |rest|
  {
    if rest == [] {
      assert [first] + rest == [first] && [first][..0] == [];
    } else {
      var n := |rest| - 1;
      CarriedOn(w, first, rest[..n], op, value);
      assert ([first] + rest)[..n + 1] == [first] + rest[..n];
    }
  }

  // A case: values are texts, numbers and quoted texts are evaluated.

  /** Evaluating takes the quotes off a query value, once the input has been evaluated too. */
  function Evaluated(input: string, value: string): string {
    var quoted := |value| >= 2 && value[0] == '\'' == value[|value| - 1];
    if input != "" && AllDigits(input) && quoted then value[1..|value| - 1] else value
  }

  function Literals(): Values<string> {
    Values(v => v, s => s, (i, op, v) => (i, Evaluated(i, v)), (i, op, v) => i == v)
  }

  const NUMBER: Record<string> := Record("5", ["a"])
  const DAY: Record<string> := Record("2024-01-05", ["b"])
  const QUOTED: string := "'2024-01-05'"

  lemma NothingToStrip(s: string)
    requires s != "" && !IsSpace(s[0]) && !IsSpace(s[|s| - 1])
    ensures Strip(s) == s
  {
  }

  lemma CaseOfTexts()
    ensures Strip(QUOTED) == QUOTED && Strip(DAY.input) == DAY.input && Strip(NUMBER.input) == NUMBER.input
    ensures !IsDate(QUOTED) && IsDate(DAY.input) && !IsDate(NUMBER.input)
    ensures Evaluated(NUMBER.input, QUOTED) == DAY.input && Evaluated(DAY.input, QUOTED) == QUOTED
  {
    hide Strip;
    NothingToStrip(QUOTED);
    NothingToStrip(DAY.input);
    NothingToStrip(NUMBER.input);
    hide IsSpace;
    DayIsADate();
    assert DAY.input[4] in DAY.input && !IsDigit(DAY.input[4]);
    assert AllDigits(NUMBER.input);
    hide AllDigits, IsDate;
    assert QUOTED[1..|QUOTED| - 1] == DAY.input;
  }

  lemma DayIsADate()
    ensures IsDate(DAY.input) && !IsDate(QUOTED) && !IsDate(NUMBER.input)
  {
  }

  /** A filter for the colour red finds what is red, and only that. */
  lemma RedIsFound()
    ensures Matches(Literals(), [Record("red", ["d"]), Record("blue", ["e"])], "=", "red") == ["d"]
  {
    var w := Literals();
    var red: seq<Record<string>> := [Record("red", ["d"]), Record("blue", ["e"])];
    NothingToStrip("red");
    assert !IsDate("red") && "red"[0] in "red" && "blue"[0] in "blue" && "red"[0] != "blue"[0];
    hide Strip, IsDate;
    assert Evaluated("red", "red") == "red" && Evaluated("blue", "red") == "red";
    hide Evaluated;
    assert red[1..] == [Record("blue", ["e"])] && red[1..][1..] == [];
    assert Tried(w, red[0], "=", "red") == (true, "red") && Tried(w, red[1], "=", "red") == (false, "red");
  }

  /** The order of the records matters: after the number, the quoted query is a date, and the day
      is found; before it, the query is a quoted text, and the day is not. */
  lemma TheOrderOfRecordsMatters()
    ensures TextsRead(Literals())
    ensures !AsksForDates(Literals(), "=", QUOTED)
    ensures AsksForDates(Literals(), "=", Literals().prepared(NUMBER.input, "=", QUOTED).1)
    ensures Matches(Literals(), [NUMBER, DAY], "=", QUOTED) == ["b"]
    ensures Matches(Literals(), [DAY, NUMBER], "=", QUOTED) == []
  {
    hide IsDate, Strip, AllDigits, Evaluated, Less;
    CaseOfTexts();
    var w := Literals();
    assert [NUMBER, DAY][1..] == [DAY] && [DAY, NUMBER][1..] == [NUMBER];
    assert Tried(w, NUMBER, "=", QUOTED) == (false, DAY.input);
    assert Tried(w, DAY, "=", DAY.input) == (true, DAY.input);
    assert Tried(w, DAY, "=", QUOTED) == (false, QUOTED);
    assert Matches(w, [DAY], "=", DAY.input) == ["b"] by {
      assert [DAY][1..] == [];
    }
    assert Matches(w, [NUMBER], "=", QUOTED) == [] by {
      assert [NUMBER][1..] == [];
    }
  }

  // The fold over the filters.

  function FilterDocs<V>(w: Values<V>, metas: map<string, seq<Record<V>>>, f: Filter<V>): set<Doc> {
    if f.key in metas then var docs := Matches(w, metas[f.key], f.op, f.value); set d <- docs else {}
  }

  function FilterSets<V>(w: Values<V>, metas: map<string, seq<Record<V>>>, filters: seq<Filter<V>>): seq<set<Doc>> {
    if filters == [] then [] else [FilterDocs(w, metas, filters[0])] + FilterSets(w, metas, filters[1..])
  }

  predicate InAll(d: Doc, sets: seq<set<Doc>>) { forall s <- sets :: d in s }

  predicate InSome(d: Doc, sets: seq<set<Doc>>) { exists s <- sets :: d in s }

  /** What is left from the first filter on that matches something. */
  function FromFirstMatch(sets: seq<set<Doc>>): seq<set<Doc>> {
    if sets == [] || sets[0] != {} then sets else FromFirstMatch(sets[1..])
  }

  /** What the filters together select. */
  predicate Selects(logic: string, sets: seq<set<Doc>>, d: Doc) {
    if logic == "and" then FromFirstMatch(sets) != [] && InAll(d, FromFirstMatch(sets))
    else InSome(d, sets)
  }

  lemma {:induction false} FirstMatchOfBoth(a: seq<set<Doc>>, b: seq<set<Doc>>)
    ensures FromFirstMatch(a + b) == if FromFirstMatch(a) != [] then FromFirstMatch(a) + b else FromFirstMatch(b)
  {
    if a == [] {
      assert a + b == b;
    } else {
      assert (a + b)[1..] == a[1..] + b;
      FirstMatchOfBoth(a[1..], b);
    }
  }

  lemma OneFilterMore(logic: string, sets: seq<set<Doc>>, s: set<Doc>)
    ensures forall d :: Selects(logic, sets + [s], d) <==>
            if logic != "and" then Selects(logic, sets, d) || d in s
            else if FromFirstMatch(sets) == [] then d in s
            else Selects(logic, sets, d) && d in s
  {
    FirstMatchOfBoth(sets, [s]);
    assert FromFirstMatch([s]) == if s != {} then [s] else FromFirstMatch([s][1..]);
    assert [s][1..] == [];
  }

  /** Nothing that is matched later brings a document back once "and" has lost them all. */
  lemma NothingComesBack(a: seq<set<Doc>>, b: seq<set<Doc>>)
    requires FromFirstMatch(a) != []
    requires forall d :: !Selects("and", a, d)
    ensures forall d :: !Selects("and", a + b, d)
  {
    FirstMatchOfBoth(a, b);
    forall d ensures !Selects("and", a + b, d) {
      assert !Selects("and", a, d);
      var s :| s in FromFirstMatch(a) && d !in s;
      assert s in FromFirstMatch(a + b);
    }
  }

  /**
   * The filters are folded one by one. Under "and" an empty result starts afresh with the next
   * filter, unless it has become empty, when the method returns at once.
   */
  method MetaFilter<V>(w: Values<V>, metas: map<string, seq<Record<V>>>, filters: seq<Filter<V>>, logic: string)
      returns (docs: set<Doc>)
    ensures forall d :: d in docs <==> Selects(logic, FilterSets(w, metas, filters), d)
  {
    hide Selects, FromFirstMatch, Matches;
    ghost var sets := FilterSets(w, metas, filters);
    SetsAt(w, metas, filters);
    docs := {};
    NoneSelected(logic, sets[..0]);
    for k := 0 to |filters|
      invariant forall d :: d in docs <==> Selects(logic, sets[..k], d)
      invariant logic == "and" && docs == {} ==> FromFirstMatch(sets[..k]) == []
    {
      var f := filters[k];
      var ids := [];
      if f.key in metas {
        ids := FilterOut(w, metas[f.key], f.op, f.value);
      }
      var found := set d <- ids;
      assert sets[k] == found && sets[..k + 1] == sets[..k] + [found];
      OneFilterMore(logic, sets[..k], found);
      Emptiness(logic, sets[..k], found);
      if docs == {} {
        docs := found;
      } else if logic == "and" {
        ghost var before := docs;
        ghost var d :| d in before;
        assert Selects(logic, sets[..k], d);
        assert FromFirstMatch(sets[..k]) != [];
        docs := docs * found;
        if docs == {} {
          forall d ensures !Selects("and", sets[..k] + [found], d) {
            assert d !in before * found;
          }
          NothingComesBack(sets[..k + 1], sets[k + 1..]);
          assert sets[..k + 1] + sets[k + 1..] == sets;
          return {};
        }
      } else {
        docs := docs + found;
      }
    }
    assert sets[..|filters|] == sets;
  }

  lemma NoneSelected(logic: string, none: seq<set<Doc>>)
    requires none == []
    ensures FromFirstMatch(none) == [] && forall d :: !Selects(logic, none, d)
  {
  }

  lemma Emptiness(logic: string, sets: seq<set<Doc>>, s: set<Doc>)
    ensures FromFirstMatch(sets + [s]) == [] <==> FromFirstMatch(sets) == [] && s == {}
    ensures logic == "and" && FromFirstMatch(sets) == [] ==> forall d :: !Selects(logic, sets, d)
  {
    FirstMatchOfBoth(sets, [s]);
    assert FromFirstMatch([s]) == if s != {} then [s] else FromFirstMatch([s][1..]);
    assert [s][1..] == [];
  }

  /** The document set of a filter: what its key's records match, nothing without such records. */
  lemma {:induction false} SetsAreMatches<V>(
    w: Values<V>, metas: map<string, seq<Record<V>>>, filters: seq<Filter<V>>, k: nat, d: Doc)
    requires k < |filters|
    ensures |FilterSets(w, metas, filters)| == |filters|
    ensures var f := filters[k];
            d in FilterSets(w, metas, filters)[k] <==> f.key in metas && d in Matches(w, metas[f.key], f.op, f.value)
    decreases k
  {
    hide Matches;
    SetsAt(w, metas, filters);
  }

  lemma {:induction false} SetsAt<V>(w: Values<V>, metas: map<string, seq<Record<V>>>, filters: seq<Filter<V>>)
    ensures |FilterSets(w, metas, filters)| == |filters|
    ensures forall k | 0 <= k < |filters| :: FilterSets(w, metas, filters)[k] == FilterDocs(w, metas, filters[k])
  {
    if filters != [] {
      SetsAt(w, metas, filters[1..]);
    }
  }

  /** "and" selects what every filter matches exactly when the first filter matches something,
      or none does, or those from the first matching one on have no document in common. */
  lemma {:induction false} AndIsIntersection(sets: seq<set<Doc>>)
    requires sets != []
    ensures (forall d :: Selects("and", sets, d) <==> InAll(d, sets)) <==>
            || sets[0] != {}
            || (forall s <- sets :: s == {})
            || (forall d :: !InAll(d, FromFirstMatch(sets)))
  {
    NoMatchAtAll(sets);
    if sets[0] == {} {
      forall d ensures !InAll(d, sets) {
        assert d !in sets[0];
      }
      assert (forall d :: !Selects("and", sets, d)) <==>
             FromFirstMatch(sets) == [] || forall d :: !InAll(d, FromFirstMatch(sets)) by {
        hide InAll, FromFirstMatch;
        if FromFirstMatch(sets) != [] {
          assert forall d :: Selects("and", sets, d) <==> InAll(d, FromFirstMatch(sets));
        }
      }
    }
  }

  lemma {:induction false} NoMatchAtAll(sets: seq<set<Doc>>)
    ensures FromFirstMatch(sets) == [] <==> forall s <- sets :: s == {}
  {
    if sets != [] {
      NoMatchAtAll(sets[1..]);
      assert sets[0] in sets && forall s <- sets[1..] :: s in sets;
      assert forall s <- sets :: s == sets[0] || s in sets[1..];
    }
  }

  /** A first filter that matches nothing does not count, though "and" was asked for. */
  lemma AndCanSkipAFilter(d: Doc)
    ensures Selects("and", [{}, {d}], d) && !InAll(d, [{}, {d}])
  {
    var sets: seq<set<Doc>> := [{}, {d}];
    assert sets[1..] == [{d}] && FromFirstMatch(sets[1..]) == sets[1..];
    assert d !in sets[0];
  }
}
