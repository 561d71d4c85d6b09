/** Taking inline images out of a prompt variable: which strings are images, and what is
    left of a value when they are removed. */
module Images {
  import opened Text

  /** A Python value as it comes out of a workflow. A dictionary has keys beside its
      `items`; `Scalar` stands for numbers and truth values. */
  datatype Value =
    | Null
    | Str(s: string)
    | Scalar(n: int)
    | List(items: seq<Value>)
    | Tuple(items: seq<Value>)
    | Set(items: seq<Value>)
    | Dict(keys: seq<string>, items: seq<Value>)
  {
    predicate IsLeaf() { Null? || Str? || Scalar? }
  }

  /** Dictionaries have one value per key. */
  predicate Proper(v: Value) {
    v.IsLeaf() ||
    ((v.Dict? ==> |v.keys| == |v.items| && Distinct(v.keys)) && forall x <- v.items :: Proper(x))
  }

  const PREFIX := "data:image/"

  predicate IsImage(s: string) { PREFIX <= Strip(s) }

  /** The value under `key`, or Null. */
  function Get(keys: seq<string>, items: seq<Value>, key: string): (r: Value)
    requires |keys| == |items|
    ensures key !in keys ==> r.Null?
    ensures key in keys ==> r in items
  {
    if keys == [] then Null
    else if keys[0] == key then items[0]
    else Get(keys[1..], items[1..], key)
  }

  // ---------- Extraction ----------

  function ImagesIn(v: Value): seq<string>
    requires Proper(v)
    decreases v, 1
  {
    match v
    case Null => []
    case Scalar(_) => []
    case Str(s) => if IsImage(s) then [Strip(s)] else []
    case Dict(keys, items) => if "content" in keys then ImagesIn(Get(keys, items, "content")) else ImagesInAll(items)
    case _ => ImagesInAll(v.items)
  }

  function ImagesInAll(items: seq<Value>): seq<string>
    requires forall x <- items :: Proper(x)
    decreases items, 0
  {
    if items == [] then [] else ImagesIn(items[0]) + ImagesInAll(items[1..])
  }

  // ---------- What extraction looks at ----------

  /** A value as extraction sees it: of a dictionary with a content only that, of any other
      container its items. */
  function Viewed(v: Value): Value
    requires Proper(v)
    decreases v, 1
  {
    if v.IsLeaf() then v
    else if v.Dict? && "content" in v.keys then List([Viewed(Get(v.keys, v.items, "content"))])
    else List(ViewedAll(v.items))
  }

  function ViewedAll(items: seq<Value>): seq<Value>
    requires forall x <- items :: Proper(x)
    decreases items, 0
  {
    if items == [] then [] else [Viewed(items[0])] + ViewedAll(items[1..])
  }

  /** The texts of the images among some leaves, without the blanks around them. */
  function ImageTexts(leaves: seq<Value>): seq<string> {
    if leaves == [] then []
    else
      var n := |leaves| - 1;
      ImageTexts(leaves[..n]) +
      if leaves[n].Str? && "data:image/" <= Strip(leaves[n].s) then [Strip(leaves[n].s)] else []
  }

  lemma {:induction false} ImageTextsSplit(a: seq<Value>, b: seq<Value>)
    ensures ImageTexts(a + b) == ImageTexts(a) + ImageTexts(b)
    decreases |b|
  {
    hide Strip;
    if b == [] {
      assert a + b == a;
    } else {
      var n := |b| - 1;
      assert (a + b)[..|a| + n] == a + b[..n];
      ImageTextsSplit(a, b[..n]);
    }
  }

  /** Extraction finds exactly the images among the leaves it looks at, in their order. */
  lemma {:induction false} ExtractionFindsWhatItSees(v: Value)
    requires Proper(v)
    ensures ImagesIn(v) == ImageTexts(Leaves(Viewed(v)))
    decreases v, 1
  {
    hide Strip;
    if v.IsLeaf() {
      assert v.Null? || (Leaves(v) == [v] && [v][..0] == []);
    } else if v.Dict? && "content" in v.keys {
      var c := Get(v.keys, v.items, "content");
      ExtractionFindsWhatItSees(c);
      LeavesOfOne(Viewed(c));
    } else {
      ExtractionFindsAll(v.items);
    }
  }

  lemma LeavesOfOne(v: Value)
    ensures Leaves(List([v])) == Leaves(v)
  {
    assert [v][1..] == [] && LeavesOfAll([v]) == Leaves(v) + LeavesOfAll([v][1..]);
  }

  lemma {:induction false} ExtractionFindsAll(items: seq<Value>)
    requires forall x <- items :: Proper(x)
    ensures ImagesInAll(items) == ImageTexts(LeavesOfAll(ViewedAll(items)))
    decreases items, 0
  {
    hide Strip;
    if items != [] {
      ExtractionFindsWhatItSees(items[0]);
      ExtractionFindsAll(items[1..]);
      ImageTextsSplit(Leaves(Viewed(items[0])), LeavesOfAll(ViewedAll(items[1..])));
      assert ViewedAll(items)[1..] == ViewedAll(items[1..]);
    }
  }

  // ---------- Removal ----------

  predicate Hashable(v: Value) {
    match v
    case Tuple(items) => forall x <- items :: Hashable(x)
    case _ => v.IsLeaf()
  }

  /** What `in` can look for in a set without raising. A set is looked for as the frozen set of
      its elements, so it may be one itself; a tuple may not hold one. */
  predicate CanBeLookedUp(v: Value) { v.Set? || Hashable(v) }

  const IMAGE_TYPES := {"image_url", "input_image", "image"}

  predicate IsImageType(v: Value) { v.Str? && v.s in IMAGE_TYPES }

  function TypeOf(v: Value): Value
    requires v.Dict? && Proper(v)
  {
    Get(v.keys, v.items, "type")
  }

  /** A dictionary that declares itself an image and holds one. */
  predicate IsImagePart(v: Value)
    requires v.Dict? && Proper(v)
  {
    IsImageType(TypeOf(v)) && ImagesIn(v) != []
  }

  datatype Result<+T> = Ok(value: T) | TypeError

  predicate Dropped(v: Value) { v.Null? || (!v.IsLeaf() && v.items == []) }

  function Compact(items: seq<Value>): (r: seq<Value>)
    ensures |r| <= |items| && forall x :: x in r <==> x in items && !Dropped(x)
  {
    if items == [] then []
    else (if Dropped(items[0]) then [] else [items[0]]) + Compact(items[1..])
  }

  function CompactKeys(keys: seq<string>, items: seq<Value>): (r: seq<string>)
    requires |keys| == |items|
    ensures |r| == |Compact(items)| && forall k <- r :: k in keys
  {
    if items == [] then []
    else (if Dropped(items[0]) then [] else [keys[0]]) + CompactKeys(keys[1..], items[1..])
  }

  function Removed(v: Value): Result<Value>
    requires Proper(v)
    decreases v, 1
  {
    if v.Null? || v.Scalar? then Ok(v)
    else if v.Str? then Ok(if IsImage(v.s) then Null else v)
    else if v.Dict? && !CanBeLookedUp(TypeOf(v)) then TypeError
    else if v.Dict? && IsImagePart(v) then Ok(Null)
    else match RemovedAll(v.items)
      case TypeError => TypeError
      case Ok(items) =>
        match v
        case Tuple(_) => Ok(Tuple(Compact(items)))
        case Dict(keys, _) => Ok(Dict(CompactKeys(keys, items), Compact(items)))
        case _ => Ok(List(Compact(items)))
  }

  function RemovedAll(items: seq<Value>): (r: Result<seq<Value>>)
    requires forall x <- items :: Proper(x)
    ensures r.Ok? ==> |r.value| == |items|
    decreases items, 0
  {
    if items == [] then Ok([])
    else match Removed(items[0])
      case TypeError => TypeError
      case Ok(x) =>
        match RemovedAll(items[1..])
        case TypeError => TypeError
        case Ok(xs) => Ok([x] + xs)
  }

  lemma {:induction false} RemovedOneByOne(items: seq<Value>, i: nat)
    requires (forall x <- items :: Proper(x)) && i < |items|
    requires RemovedAll(items).Ok?
    ensures Removed(items[i]) == Ok(RemovedAll(items).value[i])
    decreases i
  {
    if i > 0 {
      RemovedOneByOne(items[1..], i - 1);
    }
  }

  lemma {:induction false} CompactedKeysAreDistinct(keys: seq<string>, items: seq<Value>)
    requires |keys| == |items| && Distinct(keys)
    ensures Distinct(CompactKeys(keys, items))
  {
    if items != [] {
      CompactedKeysAreDistinct(keys[1..], items[1..]);
      assert forall i | 0 < i < |keys| :: keys[i] == keys[1..][i - 1];
      assert keys[0] !in keys[1..];
    }
  }

  lemma {:induction false} CompactedGet(keys: seq<string>, items: seq<Value>, key: string)
    requires |keys| == |items| && Distinct(keys)
    ensures var x := Get(keys, items, key);
            Get(CompactKeys(keys, items), Compact(items), key) == if Dropped(x) then Null else x
  {
    hide Dropped;
    if items != [] {
      CompactedGet(keys[1..], items[1..], key);
      assert keys[0] !in keys[1..];
      var ks, xs := CompactKeys(keys[1..], items[1..]), Compact(items[1..]);
      if !Dropped(items[0]) {
        assert ([keys[0]] + ks)[1..] == ks && ([items[0]] + xs)[1..] == xs;
        assert Get([keys[0]] + ks, [items[0]] + xs, key) == if keys[0] == key then items[0] else Get(ks, xs, key);
      } else {
        assert [] + ks == ks && [] + xs == xs;
      }
    }
  }

  lemma {:induction false} CompactIsDone(items: seq<Value>, keys: seq<string>)
    requires (forall x <- items :: !Dropped(x)) && |keys| == |items|
    ensures Compact(items) == items && CompactKeys(keys, items) == keys
  {
    if items != [] {
      CompactIsDone(items[1..], keys[1..]);
    }
  }

  lemma {:induction false} NoImagesInAll(items: seq<Value>)
    requires forall x <- items :: Proper(x) && ImagesIn(x) == []
    ensures ImagesInAll(items) == []
    decreases |items|
  {
    if items != [] {
      NoImagesInAll(items[1..]);
    }
  }

  lemma {:induction false} NothingLeftToRemove(items: seq<Value>)
    requires forall x <- items :: Proper(x) && Clean(x)
    ensures RemovedAll(items).Ok? ==> RemovedAll(items).value == items
    decreases |items|
  {
    if items != [] {
      assert Clean(items[0]);
      NothingLeftToRemove(items[1..]);
      assert [items[0]] + items[1..] == items;
    }
  }

  /** No image is left, and removing again changes nothing, though it may raise. */
  predicate Clean(v: Value) {
    Proper(v) && ImagesIn(v) == [] && (Removed(v).Ok? ==> Removed(v).value == v)
  }

  lemma {:induction false} HashableStaysHashable(v: Value)
    requires Proper(v) && Hashable(v)
    ensures Removed(v).Ok? && Hashable(Removed(v).value)
    decreases v, 1
  {
    if v.Tuple? {
      HashableAllStay(v.items);
    }
  }

  lemma {:induction false} HashableAllStay(items: seq<Value>)
    requires forall x <- items :: Proper(x) && Hashable(x)
    ensures RemovedAll(items).Ok? && forall x <- RemovedAll(items).value :: Hashable(x)
    decreases items, 0
  {
    if items != [] {
      HashableStaysHashable(items[0]);
      HashableAllStay(items[1..]);
    }
  }

  /** A container of clean parts is clean. */
  lemma CleanContainer(w: Value)
    requires !w.IsLeaf() && !w.Set? && Proper(w)
    requires forall x <- w.items :: Clean(x) && !Dropped(x)
    ensures Clean(w)
  {
    NoImagesInAll(w.items);
    NothingLeftToRemove(w.items);
    if w.Dict? {
      CompactIsDone(w.items, w.keys);
    } else {
      CompactIsDone(w.items, seq(|w.items|, i => ""));
    }
  }

  /** Removal is complete: whatever it leaves holds no image, and nothing more to remove. */
  lemma {:induction false} RemovalIsComplete(v: Value)
    requires Proper(v) && Removed(v).Ok?
    ensures Clean(Removed(v).value)
    decreases v
  {
    if !v.IsLeaf() && !(v.Dict? && IsImagePart(v)) {
      var items := RemovedAll(v.items).value;
      forall i | 0 <= i < |items|
        ensures Clean(items[i])
      {
        RemovedOneByOne(v.items, i);
        assert v.items[i] in v.items;
        RemovalIsComplete(v.items[i]);
      }
      var w := Removed(v).value;
      assert w.items == Compact(items);
      assert forall x <- w.items :: x in items && Clean(x) && !Dropped(x);
      if v.Dict? {
        CompactedKeysAreDistinct(v.keys, items);
      }
      CleanContainer(w);
    }
  }

  lemma {:induction false} GetOneByOne(keys: seq<string>, items: seq<Value>, new_: seq<Value>, key: string)
    requires |keys| == |items| && (forall x <- items :: Proper(x))
    requires RemovedAll(items) == Ok(new_) && key in keys
    ensures Removed(Get(keys, items, key)) == Ok(Get(keys, new_, key))
    decreases |keys|
  {
    if keys[0] != key {
      GetOneByOne(keys[1..], items[1..], new_[1..], key);
    }
  }

  // ---------- When removal raises ----------

  /** A dictionary that is walked has something under "type" that cannot be looked up. */
  predicate Trips(v: Value)
    requires Proper(v)
  {
    !v.IsLeaf() &&
    ((v.Dict? && !CanBeLookedUp(TypeOf(v))) ||
     (!(v.Dict? && IsImagePart(v)) && exists x <- v.items :: Trips(x)))
  }

  lemma {:induction false} RemovalRaisesExactly(v: Value)
    requires Proper(v)
    ensures Removed(v).TypeError? <==> Trips(v)
    decreases v, 1
  {
    if !v.IsLeaf() {
      RemovalRaisesInAll(v.items);
    }
  }

  lemma {:induction false} RemovalRaisesInAll(items: seq<Value>)
    requires forall x <- items :: Proper(x)
    ensures RemovedAll(items).TypeError? <==> exists x <- items :: Trips(x)
    decreases items, 0
  {
    if items != [] {
      RemovalRaisesExactly(items[0]);
      RemovalRaisesInAll(items[1..]);
    }
  }

  /** For instance a schema: {"type": ["string", "null"]}. */
  lemma ASchemaTripsRemoval()
    ensures Removed(Dict(["type"], [List([Str("string"), Str("null")])])).TypeError?
  {
    var v := Dict(["type"], [List([Str("string"), Str("null")])]);
    assert Proper(List([Str("string"), Str("null")]));
    assert Proper(v) && TypeOf(v) == v.items[0];
  }

  // ---------- What survives ----------

  /** The strings and scalars in a value, in order. */
  function Leaves(v: Value): seq<Value>
    decreases v, 1
  {
    if v.Null? then [] else if v.IsLeaf() then [v] else LeavesOfAll(v.items)
  }

  function LeavesOfAll(items: seq<Value>): seq<Value>
    decreases items, 0
  {
    if items == [] then [] else Leaves(items[0]) + LeavesOfAll(items[1..])
  }

  /** Those outside of image parts that are not images themselves. */
  function Wanted(v: Value): seq<Value>
    requires Proper(v)
    decreases v, 1
  {
    if v.Null? || (v.Str? && IsImage(v.s)) || (v.Dict? && IsImagePart(v)) then []
    else if v.IsLeaf() then [v]
    else WantedInAll(v.items)
  }

  function WantedInAll(items: seq<Value>): seq<Value>
    requires forall x <- items :: Proper(x)
    decreases items, 0
  {
    if items == [] then [] else Wanted(items[0]) + WantedInAll(items[1..])
  }

  lemma {:induction false} CompactKeepsLeaves(items: seq<Value>)
    ensures LeavesOfAll(Compact(items)) == LeavesOfAll(items)
    decreases |items|
  {
    if items != [] {
      CompactKeepsLeaves(items[1..]);
      if Dropped(items[0]) {
        assert Leaves(items[0]) == [];
        assert Compact(items) == Compact(items[1..]);
      } else {
        assert Compact(items) == [items[0]] + Compact(items[1..]);
        assert Compact(items)[1..] == Compact(items[1..]);
      }
    }
  }

  /** Nothing but images goes: every other string and scalar is still there, in order. */
  lemma {:induction false} RemovalKeepsTheRest(v: Value)
    requires Proper(v) && Removed(v).Ok?
    ensures Leaves(Removed(v).value) == Wanted(v)
    decreases v, 1
  {
    if !v.IsLeaf() && !(v.Dict? && IsImagePart(v)) {
      var items := RemovedAll(v.items).value;
      var w := Removed(v).value;
      RemovalKeepsTheRestInAll(v.items);
      CompactKeepsLeaves(items);
    }
  }

  lemma {:induction false} RemovalKeepsTheRestInAll(items: seq<Value>)
    requires (forall x <- items :: Proper(x)) && RemovedAll(items).Ok?
    ensures LeavesOfAll(RemovedAll(items).value) == WantedInAll(items)
    decreases items, 0
  {
    if items != [] {
      RemovalKeepsTheRest(items[0]);
      RemovalKeepsTheRestInAll(items[1..]);
      assert RemovedAll(items).value[1..] == RemovedAll(items[1..]).value;
    }
  }

  predicate DeclaresAnImage(t: Value) { t == Str("image_url") || t == Str("input_image") || t == Str("image") }

  /** Removal keeps the shape of a container, but that sets become lists: what is left of its
      items is there in order, of a dictionary under its keys. */
  lemma RemovalKeepsShapes(v: Value, key: string)
    requires Proper(v) && Removed(v).Ok? && !v.IsLeaf()
    ensures var w := Removed(v).value;
            if v.Dict? && DeclaresAnImage(TypeOf(v)) && ImagesIn(v) != [] then w.Null?
            else
              && (w.Dict? <==> v.Dict?) && (w.Tuple? <==> v.Tuple?) && (w.List? <==> v.List? || v.Set?)
              && (v.Dict? ==>
                  && |w.keys| == |w.items| && CanBeLookedUp(TypeOf(v))
                  && Removed(Get(v.keys, v.items, key)).Ok?
                  && var x := Removed(Get(v.keys, v.items, key)).value;
                     Get(w.keys, w.items, key) == if Dropped(x) then Null else x)
  {
    if v.Dict? && !IsImagePart(v) {
      var items := RemovedAll(v.items).value;
      CompactedGet(v.keys, items, key);
      if key in v.keys {
        GetOneByOne(v.keys, v.items, items, key);
      } else {
        AbsentAfter(v.keys, items, key);
      }
    }
  }

  lemma AbsentAfter(keys: seq<string>, items: seq<Value>, key: string)
    requires |keys| == |items| && key !in keys
    ensures Get(keys, items, key) == Null
  {
  }

  const P := "data:image/p"

  lemma CasesOfImages()
    ensures Strip(P) == Strip(" " + P) == P && IsImage(P) && IsImage(" " + P)
    ensures !IsImage("text") && !IsImage("image_url")
  {
    assert " "[0] in " ";
    StripTakesBlanks("", P, "");
    StripTakesBlanks(" ", P, "");
    StripTakesBlanks("", "text", "");
    StripTakesBlanks("", "image_url", "");
    hide Strip;
    assert "" + P + "" == P && " " + P + "" == " " + P && "" + "text" + "" == "text";
    assert "" + "image_url" + "" == "image_url";
    assert "text"[0] != PREFIX[0] && "image_url"[0] != PREFIX[0];
  }

  /** By cases: a part that declares an image and has one is removed whole. */
  lemma DeclaredImagesGo()
    ensures Removed(Dict(["type", "url"], [Str("image_url"), Str(P)])) == Ok(Null)
  {
    CasesOfImages();
    hide IsImage, Strip;
    var part := Dict(["type", "url"], [Str("image_url"), Str(P)]);
    assert [Str("image_url"), Str(P)][1..] == [Str(P)] && [Str(P)][1..] == [];
    assert ImagesInAll([Str(P)]) == [P];
    assert part.keys[0] == "type" && TypeOf(part) == Str("image_url");
    assert "content"[0] != "type"[0] && |"content"| != |"url"| && "content" !in part.keys;
    assert ImagesIn(part) == ImagesInAll(part.items) != [];
  }

  /** A bare image is removed, with blanks around it too; other texts and numbers stay. */
  lemma BareImagesGo()
    ensures Removed(Str(" " + P)) == Ok(Null)
    ensures Removed(Str("text")) == Ok(Str("text")) && Removed(Scalar(3)) == Ok(Scalar(3))
    ensures ImagesIn(List([Str(" " + P), Str("text")])) == [P]
  {
    CasesOfImages();
    hide IsImage, Strip;
    assert [Str(" " + P), Str("text")][1..] == [Str("text")] && [Str("text")][1..] == [];
    assert ImagesInAll([Str("text")]) == [];
    assert ImagesInAll([Str(" " + P), Str("text")]) == [P];
  }

  // ---------- Removing twice ----------

  /** A dictionary that is walked has a set under "type" of which something survives. Removal
      makes a list of that, and a list cannot be looked up the next time. */
  predicate Relapses(v: Value)
    requires Proper(v)
  {
    !v.IsLeaf() && !(v.Dict? && IsImagePart(v)) &&
    ((v.Dict? && TypeOf(v).Set? && Wanted(TypeOf(v)) != []) || exists x <- v.items :: Relapses(x))
  }

  /** Removing twice is removing once, if and only if no such dictionary is there; otherwise
      the second removal raises. */
  lemma RemovalIsFinal(v: Value)
    requires Proper(v) && Removed(v).Ok?
    ensures Proper(Removed(v).value)
    ensures var w := Removed(v).value;
            Removed(w) == if Relapses(v) then TypeError else Ok(w)
  {
    RemovalIsComplete(v);
    RemovalRaisesExactly(Removed(v).value);
    TripsWhenItRelapses(v);
  }

  lemma {:induction false} TripsWhenItRelapses(v: Value)
    requires Proper(v) && Removed(v).Ok?
    ensures Proper(Removed(v).value)
    ensures Trips(Removed(v).value) <==> Relapses(v)
    decreases v
  {
    hide ImagesIn, Wanted, Hashable, Relapses, Trips, Compact, CompactKeys;
    RemovalIsComplete(v);
    if v.IsLeaf() || (v.Dict? && IsImagePart(v)) {
      LeavesDoNotTrip(v);
    } else {
      var items := RemovedAll(v.items).value;
      forall i | 0 <= i < |items|
        ensures Proper(items[i]) && (Trips(items[i]) <==> Relapses(v.items[i]))
      {
        RemovedOneByOne(v.items, i);
        assert v.items[i] in v.items;
        TripsWhenItRelapses(v.items[i]);
      }
      ContainerTrips(v, items);
    }
  }

  lemma LeavesDoNotTrip(v: Value)
    requires Proper(v) && Removed(v).Ok? && (v.IsLeaf() || (v.Dict? && IsImagePart(v)))
    ensures !Relapses(v) && Proper(Removed(v).value) && !Trips(Removed(v).value)
  {
  }

  lemma ContainerTrips(v: Value, items: seq<Value>)
    requires Proper(v) && Removed(v).Ok? && Proper(Removed(v).value) && Clean(Removed(v).value)
    requires !v.IsLeaf() && !(v.Dict? && IsImagePart(v)) && RemovedAll(v.items) == Ok(items)
    requires forall i | 0 <= i < |items| :: Proper(items[i]) && (Trips(items[i]) <==> Relapses(v.items[i]))
    ensures Trips(Removed(v).value) <==> Relapses(v)
  {
    hide ImagesIn, Wanted, CanBeLookedUp, RemovedAll, Removed, Compact, CompactKeys, Get, Dropped, Clean;
    var w := Removed(v).value;
    ContainerForm(v, items);
    forall x | x in items && Dropped(x) ensures !Trips(x) {
      DroppedDoNotTrip(x);
    }
    PartsCorrespond(v.items, items);
    if v.Dict? {
      TypeBecomesAList(v, items);
    }
  }

  lemma ContainerForm(v: Value, items: seq<Value>)
    requires Proper(v) && Removed(v).Ok? && Proper(Removed(v).value) && Clean(Removed(v).value)
    requires !v.IsLeaf() && !(v.Dict? && IsImagePart(v)) && RemovedAll(v.items) == Ok(items)
    ensures var w := Removed(v).value;
            && !w.IsLeaf() && w.items == Compact(items) && (w.Dict? <==> v.Dict?)
            && (v.Dict? ==> w.keys == CompactKeys(v.keys, items) && CanBeLookedUp(TypeOf(v)) && !IsImagePart(w))
  {
  }

  lemma DroppedDoNotTrip(x: Value)
    requires Proper(x) && Dropped(x)
    ensures !Trips(x)
  {
  }

  lemma PartsCorrespond(items: seq<Value>, after: seq<Value>)
    requires |items| == |after| && (forall x <- items :: Proper(x)) && (forall x <- after :: Proper(x))
    requires forall i | 0 <= i < |items| :: Trips(after[i]) <==> Relapses(items[i])
    requires forall x <- after :: Dropped(x) ==> !Trips(x)
    ensures (exists x <- Compact(after) :: Trips(x)) <==> (exists x <- items :: Relapses(x))
  {
    if x :| x in Compact(after) && Trips(x) {
      var i :| 0 <= i < |after| && after[i] == x;
      assert Relapses(items[i]);
    }
    if x :| x in items && Relapses(x) {
      var i :| 0 <= i < |items| && items[i] == x;
      assert Trips(after[i]) && after[i] in after;
    }
  }

  /** What is under "type" can be looked up again, unless it was a set that is not used up. */
  lemma AfterTheType(t: Value)
    requires Proper(t) && Removed(t).Ok? && CanBeLookedUp(t)
    ensures var x := Removed(t).value;
            CanBeLookedUp(if Dropped(x) then Null else x) <==> !(t.Set? && Wanted(t) != [])
  {
    if t.Set? {
      RemovalKeepsTheRest(t);
      RemovalIsComplete(t);
      UsedUp(t);
    } else {
      HashableStaysHashable(t);
    }
  }

  lemma TypeBecomesAList(v: Value, items: seq<Value>)
    requires v.Dict? && Proper(v) && RemovedAll(v.items) == Ok(items) && CanBeLookedUp(TypeOf(v))
    ensures var t := Get(CompactKeys(v.keys, items), Compact(items), "type");
            CanBeLookedUp(t) <==> !(TypeOf(v).Set? && Wanted(TypeOf(v)) != [])
  {
    assert CanBeLookedUp(Null);
    hide Removed, RemovedAll, CanBeLookedUp, Wanted, Compact, CompactKeys;
    CompactedGet(v.keys, items, "type");
    if "type" in v.keys {
      GetOneByOne(v.keys, v.items, items, "type");
      AfterTheType(TypeOf(v));
    } else {
      AbsentAfter(v.keys, items, "type");
    }
  }

  /** Nothing is left of a value exactly when none of its strings and scalars is. */
  lemma {:induction false} UsedUp(v: Value)
    requires Proper(v) && Removed(v).Ok?
    ensures Dropped(Removed(v).value) <==> Wanted(v) == []
    decreases v
  {
    RemovalKeepsTheRest(v);
    var w := Removed(v).value;
    if !w.IsLeaf() && w.items != [] {
      var items := RemovedAll(v.items).value;
      assert w.items == Compact(items);
      assert w.items[0] in items && !Dropped(w.items[0]);
      var i :| 0 <= i < |items| && items[i] == w.items[0];
      RemovedOneByOne(v.items, i);
      assert v.items[i] in v.items;
      UsedUp(v.items[i]);
      RemovalKeepsTheRest(v.items[i]);
      assert Leaves(w.items[0]) != [];
    }
  }

  /** For instance {"type": {"x"}}: the first removal leaves {"type": ["x"]}, the second raises. */
  lemma ASetUnderTypeTripsTheSecondRemoval()
    ensures var v := Dict(["type"], [Set([Str("x")])]);
            Removed(v) == Ok(Dict(["type"], [List([Str("x")])])) && Removed(Removed(v).value).TypeError?
  {
    var x, t := Str("x"), Set([Str("x")]);
    assert |Strip("x")| <= 1;
    JustOne(x);
    JustOne(t);
    var after := List([x]);
    assert TypeOf(Dict(["type"], [t])) == t && TypeOf(Dict(["type"], [after])) == after;
  }

  lemma JustOne(x: Value)
    requires Proper(x) && Removed(x).Ok? && !Dropped(Removed(x).value)
    ensures var y := Removed(x).value;
            RemovedAll([x]) == Ok([y]) && Compact([y]) == [y] && CompactKeys(["type"], [y]) == ["type"]
  {
    var y := Removed(x).value;
    assert [x][1..] == [] && [y] + [] == [y];
  }

  // ---------- The two walks ----------

  method ExtractDataImages(v: Value) returns (imgs: seq<string>)
    requires Proper(v)
    ensures imgs == ImagesIn(v)
  {
    imgs := Walk(v, []);
  }

  /** Append the images of `v` to those found so far. */
  method Walk(v: Value, found: seq<string>) returns (imgs: seq<string>)
    requires Proper(v)
    ensures imgs == found + ImagesIn(v)
    decreases v, 1
  {
    if v.Null? || v.Scalar? {
      return found;
    }
    if v.Str? {
      return if IsImage(v.s) then found + [Strip(v.s)] else found;
    }
    if v.Dict? && "content" in v.keys {
      imgs := Walk(Get(v.keys, v.items, "content"), found);
    } else {
      imgs := WalkAll(v.items, found);
    }
  }

  method WalkAll(items: seq<Value>, found: seq<string>) returns (imgs: seq<string>)
    requires forall x <- items :: Proper(x)
    ensures imgs == found + ImagesInAll(items)
    decreases items, 0
  {
    hide ImagesIn;
    imgs := found;
    assert items[0..] == items;
    for i := 0 to |items|
      invariant imgs + ImagesInAll(items[i..]) == found + ImagesInAll(items)
    {
      assert items[i..][1..] == items[i + 1..];
      ghost var before := imgs;
      imgs := Walk(items[i], imgs);
      assert before + (ImagesIn(items[i]) + ImagesInAll(items[i + 1..])) == imgs + ImagesInAll(items[i + 1..]);
    }
  }
}
