/** Reading and writing component outputs by dotted paths. Dictionaries are mutable and
    shared by reference, so they live in a store and values refer to them by address. */
module NestedValues {
  import W = Workflow

  type Addr = nat

  datatype Value =
    | Null
    | Scalar(n: int)
    | Text(s: string)
    | Items(items: seq<Value>)
    | Ref(addr: Addr)

  type Cells = map<Addr, map<string, Value>>

  /** Two conversions that are taken as given: what a path reads inside a text that is
      JSON, and the index a key denotes, if it is a number. */
  datatype Reader = Reader(json: (string, seq<string>) -> Value, index: string -> W.Option<int>)

  /** The element a key denotes, counted from the end if negative. */
  function Item(rd: Reader, items: seq<Value>, key: string): (r: W.Option<Value>)
    ensures r.Some? ==> r.value in items
  {
    match rd.index(key)
    case None => W.None
    case Some(i) =>
      if 0 <= i < |items| then W.Some(items[i])
      else if -|items| <= i < 0 then W.Some(items[|items| + i])
      else W.None
  }

  /** Every reference leads to a dictionary. */
  predicate Bound(cells: Cells, v: Value) {
    match v
    case Ref(a) => a in cells
    case Items(items) => forall x <- items :: Bound(cells, x)
    case _ => true
  }

  predicate Closed(cells: Cells) {
    forall a, k | a in cells && k in cells[a] :: Bound(cells, cells[a][k])
  }

  /** Reading a path: through dictionaries and lists; a missing step reads as Null. */
  function Get(rd: Reader, cells: Cells, v: Value, path: seq<string>): Value
    decreases |path|
  {
    if path == [] then v
    else match v
      case Null => Null
      case Scalar(_) => Null
      case Text(s) => rd.json(s, path)
      case Ref(a) => if a in cells && path[0] in cells[a] then Get(rd, cells, cells[a][path[0]], path[1..]) else Null
      case Items(items) =>
        var x := Item(rd, items, path[0]);
        if x.Some? then Get(rd, cells, x.value, path[1..]) else Null
  }

  predicate Entry(cells: Cells, a: Addr, k: string) { a in cells && k in cells[a] }

  /** A step of a read: a dictionary gives what it has under the key; a list the element at the
      index the key denotes, counted from its end if negative; a text what it has there if it is
      JSON; nothing else gives anything. */
  lemma StepsOfARead(rd: Reader, cells: Cells, a: Addr, items: seq<Value>, i: int, s: string, key: string)
    ensures Get(rd, cells, Ref(a), [key]) == if a in cells && key in cells[a] then cells[a][key] else Null
    ensures rd.index(key) == W.None ==> Get(rd, cells, Items(items), [key]) == Null
    ensures rd.index(key) == W.Some(i) ==>
              Get(rd, cells, Items(items), [key])
              == if 0 <= i < |items| then items[i] else if -|items| <= i < 0 then items[|items| + i] else Null
    ensures Get(rd, cells, Text(s), [key]) == rd.json(s, [key])
    ensures Get(rd, cells, Null, [key]) == Null && Get(rd, cells, Scalar(i), [key]) == Null
  {
    assert [key][1..] == [];
  }

  predicate StepsInto(cells: Cells, a: Addr, key: string) {
    a in cells && key in cells[a] && cells[a][key].Ref?
  }

  /** How many leading keys lead from `a` through dictionaries that exist. */
  function Existing(cells: Cells, a: Addr, keys: seq<string>): (r: nat)
    ensures r <= |keys|
    decreases |keys|
  {
    if keys == [] || !StepsInto(cells, a, keys[0]) then 0
    else 1 + Existing(cells, cells[a][keys[0]].addr, keys[1..])
  }

  /** The dictionary that the keys lead to. */
  function Walk(cells: Cells, a: Addr, keys: seq<string>): Addr
    requires Existing(cells, a, keys) == |keys|
    decreases |keys|
  {
    if keys == [] then a else Walk(cells, cells[a][keys[0]].addr, keys[1..])
  }

  // ---------- Writing ----------

  class Store {
    var cells: Cells
    var next: Addr

    predicate Valid()
      reads this
    {
      Closed(cells) && forall a <- cells :: a < next
    }

    /** Descend through every key, the last one included, making dictionaries where there
        are none; then store the value under the last key and give back the root. Without
        keys the value replaces the root; a root that is no dictionary raises. */
    method SetParam(root: Value, keys: seq<string>, v: Value) returns (r: W.Option<Value>)
      requires Valid() && Bound(cells, root) && Bound(cells, v)
      modifies this
      ensures Valid() && (r.None? <==> keys != [] && !root.Ref?)
      ensures r.Some? ==> r.value == if keys == [] then v else root
      ensures cells == if keys == [] || !root.Ref? then old(cells)
                       else Assigned(old(cells), old(next), root.addr, keys, v)
    {
      if keys == [] {
        return W.Some(v);
      }
      if !root.Ref? {
        return W.None;
      }
      var cur := root.addr;
      assert keys[0..] == keys;
      for i := 0 to |keys|
        invariant Valid() && cur in cells && Bound(cells, v)
        invariant Descended(cells, next, cur, keys[i..]) == Descended(old(cells), old(next), root.addr, keys)
      {
        assert keys[i..][1..] == keys[i + 1..];
        var key := keys[i];
        ghost var before := cells;
        if key !in cells[cur] || !cells[cur][key].Ref? {
          cells := cells[next := map[]][cur := cells[cur][key := Ref(next)]];
          next := next + 1;
          StillBound(before, cells);
        }
        assert Bound(cells, cells[cur][key]);
        cur := cells[cur][key].addr;
      }
      ghost var before := cells;
      cells := cells[cur := cells[cur][keys[|keys| - 1] := v]];
      StillBound(before, cells);
      return W.Some(root);
    }
  }

  lemma StillBound(before: Cells, after: Cells)
    requires before.Keys <= after.Keys
    ensures forall x: Value | Bound(before, x) :: Bound(after, x)
  {
    forall x: Value | Bound(before, x) ensures Bound(after, x) {
      BoundGrows(before, after, x);
    }
  }

  lemma {:induction false} BoundGrows(before: Cells, after: Cells, x: Value)
    requires before.Keys <= after.Keys && Bound(before, x)
    ensures Bound(after, x)
    decreases x
  {
    if x.Items? {
      forall y <- x.items ensures Bound(after, y) {
        BoundGrows(before, after, y);
      }
    }
  }

  /** The store after descending from `a`, the next free address, and where it ended. */
  function Descended(cells: Cells, next: Addr, a: Addr, keys: seq<string>): (Cells, Addr, Addr)
    requires a in cells
    decreases |keys|
  {
    if keys == [] then (cells, next, a)
    else if StepsInto(cells, a, keys[0]) then
      var b := cells[a][keys[0]].addr;
      if b in cells then Descended(cells, next, b, keys[1..]) else (cells, next, a)
    else
      Descended(cells[next := map[]][a := cells[a][keys[0] := Ref(next)]], next + 1, next, keys[1..])
  }

  function Assigned(cells: Cells, next: Addr, a: Addr, keys: seq<string>, v: Value): Cells
    requires a in cells && keys != []
  {
    var (c, _, end) := Descended(cells, next, a, keys);
    if end in c then c[end := c[end][keys[|keys| - 1] := v]] else c
  }

  // ---------- Walking and reading ----------

  lemma {:induction false} WalkSplits(cells: Cells, a: Addr, p: seq<string>, q: seq<string>)
    ensures Existing(cells, a, p + q) == |p| + |q| <==>
              Existing(cells, a, p) == |p| && Existing(cells, Walk(cells, a, p), q) == |q|
    ensures Existing(cells, a, p + q) == |p| + |q| ==>
              Walk(cells, a, p + q) == Walk(cells, Walk(cells, a, p), q)
    decreases |p|
  {
    if p == [] {
      assert p + q == q;
    } else {
      assert (p + q)[1..] == p[1..] + q;
      if StepsInto(cells, a, p[0]) {
        WalkSplits(cells, cells[a][p[0]].addr, p[1..], q);
      }
    }
  }

  lemma LastStep(cells: Cells, a: Addr, p: seq<string>, k: string)
    requires Existing(cells, a, p + [k]) == |p| + 1
    ensures Existing(cells, a, p) == |p|
    ensures var b := Walk(cells, a, p);
            StepsInto(cells, b, k) && cells[b][k] == Ref(Walk(cells, a, p + [k]))
  {
    WalkSplits(cells, a, p, [k]);
    var b := Walk(cells, a, p);
    assert Existing(cells, b, [k]) == 1;
    assert [k][1..] == [];
  }

  /** Reading goes where walking goes, and on from there. */
  lemma {:induction false} GetFollowsWalk(rd: Reader, cells: Cells, a: Addr, p: seq<string>, q: seq<string>)
    requires Existing(cells, a, p) == |p|
    ensures Get(rd, cells, Ref(a), p + q) == Get(rd, cells, Ref(Walk(cells, a, p)), q)
    decreases |p|
  {
    if p == [] {
      assert p + q == q;
    } else {
      assert (p + q)[1..] == p[1..] + q;
      GetFollowsWalk(rd, cells, cells[a][p[0]].addr, p[1..], q);
    }
  }

  /** A walk survives when none of its steps is changed. */
  lemma {:induction false} WalkSurvives(old_: Cells, new_: Cells, a: Addr, p: seq<string>)
    requires Existing(old_, a, p) == |p|
    requires forall i | 0 <= i < |p| :: SameStep(old_, new_, a, p, i)
    ensures Existing(new_, a, p) == |p| && Walk(new_, a, p) == Walk(old_, a, p)
    decreases |p|
  {
    if p != [] {
      assert SameStep(old_, new_, a, p, 0);
      var b := old_[a][p[0]].addr;
      forall i | 0 <= i < |p| - 1 ensures SameStep(old_, new_, b, p[1..], i) {
        assert SameStep(old_, new_, a, p, i + 1);
        assert p[..i + 1][1..] == p[1..][..i];
        WalkSplits(old_, a, p[..i + 1], []);
        PrefixExists(old_, a, p, i + 1);
        PrefixExists(old_, b, p[1..], i);
      }
      WalkSurvives(old_, new_, b, p[1..]);
    }
  }

  predicate SameStep(old_: Cells, new_: Cells, a: Addr, p: seq<string>, i: nat)
    requires i < |p|
  {
    Existing(old_, a, p[..i]) == i &&
    var b := Walk(old_, a, p[..i]);
    b in old_ && b in new_ && p[i] in old_[b] && p[i] in new_[b] && new_[b][p[i]] == old_[b][p[i]]
  }

  lemma PrefixExists(cells: Cells, a: Addr, p: seq<string>, i: nat)
    requires Existing(cells, a, p) == |p| && i <= |p|
    ensures Existing(cells, a, p[..i]) == i
    ensures i < |p| ==> StepsInto(cells, Walk(cells, a, p[..i]), p[i])
  {
    assert p[..i] + p[i..] == p;
    WalkSplits(cells, a, p[..i], p[i..]);
  }

  // ---------- What writing does ----------

  /** The dictionaries made from `a` downwards when its first step is missing: a fresh chain. */
  lemma {:induction false} FreshChain(cells: Cells, next: Addr, a: Addr, keys: seq<string>)
    requires a in cells && (forall b <- cells :: b < next) && keys != [] && !StepsInto(cells, a, keys[0])
    ensures var (c, n, end) := Descended(cells, next, a, keys);
            && n == next + |keys| && end == n - 1 && end in c && c[end] == map[]
            && (forall b <- cells | b != a :: b in c && c[b] == cells[b])
            && a in c && c[a] == cells[a][keys[0] := Ref(next)]
            && Existing(c, a, keys) == |keys| && Walk(c, a, keys) == end
            && (forall b: nat, k | Entry(c, b, k) && b >= next :: c[b][k].Ref? && c[b][k].addr >= next)
    ensures var (c, n, end) := Descended(cells, next, a, keys);
            forall i | 0 < i < |keys| :: Existing(c, a, keys[..i]) == i && Walk(c, a, keys[..i]) == next + i - 1
    decreases |keys|
  {
    var cells1 := cells[next := map[]][a := cells[a][keys[0] := Ref(next)]];
    var (c, n, end) := Descended(cells1, next + 1, next, keys[1..]);
    assert Descended(cells, next, a, keys) == (c, n, end);
    if |keys| > 1 {
      FreshChain(cells1, next + 1, next, keys[1..]);
      assert c[a] == cells1[a];
      forall i | 0 < i < |keys|
        ensures Existing(c, a, keys[..i]) == i && Walk(c, a, keys[..i]) == next + i - 1
      {
        assert keys[..i][1..] == keys[1..][..i - 1];
      }
    } else {
      assert keys[1..] == [];
      assert c == cells1;
    }
  }

  /** Descending follows what exists and starts building after that. */
  lemma {:induction false} DescentSplits(cells: Cells, next: Addr, a: Addr, keys: seq<string>)
    requires a in cells && Closed(cells)
    ensures var e := Existing(cells, a, keys);
            && Existing(cells, a, keys[..e]) == e && Walk(cells, a, keys[..e]) in cells
            && Descended(cells, next, a, keys) == Descended(cells, next, Walk(cells, a, keys[..e]), keys[e..])
            && (e < |keys| ==> !StepsInto(cells, Walk(cells, a, keys[..e]), keys[e]))
    decreases |keys|
  {
    var e := Existing(cells, a, keys);
    if e == 0 {
      assert keys[..0] == [] && keys[0..] == keys;
    } else {
      var b := cells[a][keys[0]].addr;
      assert Bound(cells, cells[a][keys[0]]);
      DescentSplits(cells, next, b, keys[1..]);
      assert keys[..e][1..] == keys[1..][..e - 1];
      assert keys[e..] == keys[1..][e - 1..];
    }
  }

  // ---------- Trees ----------

  function Refs(v: Value): set<Addr> {
    match v
    case Ref(a) => {a}
    case Items(items) => set x, a | x in items && a in Refs(x) :: a
    case _ => {}
  }

  /** No dictionary is referred to by two entries, and the root by none. */
  ghost predicate IsTree(cells: Cells, root: Addr) {
    && root in cells && Closed(cells)
    && (forall a, k | Entry(cells, a, k) :: root !in Refs(cells[a][k]))
    && (forall a, k, b, l | Entry(cells, a, k) && Entry(cells, b, l) && (a, k) != (b, l) ::
          Refs(cells[a][k]) !! Refs(cells[b][l]))
  }

  /** What is read from inside a text refers to no dictionary of the store. */
  ghost predicate ReadsFresh(rd: Reader) {
    forall s, p :: Refs(rd.json(s, p)) == {}
  }

  /** The last step of a read that ends in something with references. */
  lemma {:induction false} LastRead(rd: Reader, cells: Cells, x: Value, q: seq<string>, k: string)
    requires ReadsFresh(rd) && Refs(Get(rd, cells, x, q + [k])) != {}
    ensures var (y, z) := (Get(rd, cells, x, q), Get(rd, cells, x, q + [k]));
            (y.Ref? && Entry(cells, y.addr, k) && z == cells[y.addr][k]) || (y.Items? && z in y.items)
    decreases |q|
  {
    if q == [] {
      assert [] + [k] == [k] && [k][1..] == [];
    } else {
      assert (q + [k])[1..] == q[1..] + [k];
      match x
      case Ref(a) => LastRead(rd, cells, cells[a][q[0]], q[1..], k);
      case Items(items) =>
        LastRead(rd, cells, Item(rd, items, q[0]).value, q[1..], k);
      case _ =>
    }
  }

  /** A list that is read was stored in an entry, on its own or inside another list. */
  lemma {:induction false} ListsAreStored(rd: Reader, cells: Cells, root: Addr, q: seq<string>, a: Addr)
    requires ReadsFresh(rd) && Get(rd, cells, Ref(root), q).Items? && a in Refs(Get(rd, cells, Ref(root), q))
    ensures exists b, k :: Entry(cells, b, k) && cells[b][k].Items? && a in Refs(cells[b][k])
    decreases |q|
  {
    var (q1, k) := (q[..|q| - 1], q[|q| - 1]);
    assert q == q1 + [k];
    LastRead(rd, cells, Ref(root), q1, k);
    var y := Get(rd, cells, Ref(root), q1);
    if y.Items? {
      ListsAreStored(rd, cells, root, q1, a);
    }
  }

  /** Nothing but the empty path reads the root of a tree. */
  lemma RootIsReadOnce(rd: Reader, cells: Cells, root: Addr, q: seq<string>)
    requires IsTree(cells, root) && ReadsFresh(rd) && Get(rd, cells, Ref(root), q) == Ref(root)
    ensures q == []
  {
    hide Get;
    if q != [] {
      var (q1, k) := (q[..|q| - 1], q[|q| - 1]);
      assert q == q1 + [k];
      LastRead(rd, cells, Ref(root), q1, k);
      if Get(rd, cells, Ref(root), q1).Items? {
        ListsAreStored(rd, cells, root, q1, root);
      }
    }
  }

  /** In a tree, what an entry refers to is read under that entry's key only. */
  lemma EntryIsReadOnce(rd: Reader, cells: Cells, root: Addr, b: Addr, l: string, q1: seq<string>, k: string)
    requires IsTree(cells, root) && ReadsFresh(rd) && Entry(cells, b, l) && cells[b][l].Ref?
    requires Get(rd, cells, Ref(root), q1 + [k]) == cells[b][l]
    ensures Get(rd, cells, Ref(root), q1) == Ref(b) && k == l
  {
    hide Get;
    var m := cells[b][l].addr;
    assert m in Refs(cells[b][l]);
    LastRead(rd, cells, Ref(root), q1, k);
    var y := Get(rd, cells, Ref(root), q1);
    if y.Items? {
      ListsAreStored(rd, cells, root, q1, m);
    } else {
      assert m in Refs(cells[y.addr][k]);
    }
  }

  lemma ReadsItself(rd: Reader, cells: Cells, x: Value)
    ensures Get(rd, cells, x, []) == x
  {
  }

  /** In a tree, only one path reads a dictionary that can be walked to. */
  lemma {:induction false} PathsAreUnique(rd: Reader, cells: Cells, root: Addr, p: seq<string>, q: seq<string>)
    requires IsTree(cells, root) && ReadsFresh(rd) && Existing(cells, root, p) == |p|
    requires Get(rd, cells, Ref(root), q) == Ref(Walk(cells, root, p))
    ensures p == q
    decreases |p|
  {
    hide IsTree, ReadsFresh, Get;
    if p == [] {
      RootIsReadOnce(rd, cells, root, q);
    } else {
      var (p1, l) := (p[..|p| - 1], p[|p| - 1]);
      assert p == p1 + [l];
      LastStep(cells, root, p1, l);
      if q == [] {
        ReadsItself(rd, cells, Ref(root));
        ReadsItself(rd, cells, Ref(Walk(cells, root, p)));
        GetFollowsWalk(rd, cells, root, p, []);
        assert p + [] == p;
        RootIsReadOnce(rd, cells, root, p);
      } else {
        var (q1, k) := (q[..|q| - 1], q[|q| - 1]);
        assert q == q1 + [k];
        EntryIsReadOnce(rd, cells, root, Walk(cells, root, p1), l, q1, k);
        PathsAreUnique(rd, cells, root, p1, q1);
      }
    }
  }

  // ---------- The laws ----------

  /** `new_` is `old_` but for one entry, and for dictionaries that are new. */
  ghost predicate ChangedAt(old_: Cells, new_: Cells, m: Addr, key: string) {
    forall a <- old_ :: a in new_ &&
      forall k :: (a, k) != (m, key) ==> (k in old_[a] <==> k in new_[a]) && (k in old_[a] ==> new_[a][k] == old_[a][k])
  }

  /** One step of a read leads from `x` to `y`. */
  predicate StepReads(rd: Reader, cells: Cells, x: Value, key: string, y: Value) {
    || (x.Ref? && Entry(cells, x.addr, key) && cells[x.addr][key] == y)
    || (x.Items? && Item(rd, x.items, key) == W.Some(y))
  }

  lemma ReadsOnward(rd: Reader, cells: Cells, x: Value, q: seq<string>, y: Value, t: nat)
    requires t < |q| && StepReads(rd, cells, x, q[0], y)
    ensures Get(rd, cells, x, q[..t + 1]) == Get(rd, cells, y, q[1..][..t])
  {
    assert q[..t + 1][1..] == q[1..][..t];
  }

  /** A read that does not pass through the changed entry is unchanged. */
  lemma {:induction false} ReadsElsewhere(
    rd: Reader, old_: Cells, new_: Cells, m: Addr, key: string, x: Value, q: seq<string>)
    requires Closed(old_) && Bound(old_, x) && ChangedAt(old_, new_, m, key)
    requires forall t | 0 <= t < |q| :: !(Get(rd, old_, x, q[..t]) == Ref(m) && q[t] == key)
    ensures Get(rd, new_, x, q) == Get(rd, old_, x, q)
    decreases |q|
  {
    if q != [] {
      assert q[..0] == [];
      if y :| StepReads(rd, old_, x, q[0], y) {
        forall t | 0 <= t < |q[1..]|
          ensures !(Get(rd, old_, y, q[1..][..t]) == Ref(m) && q[1..][t] == key)
        {
          ReadsOnward(rd, old_, x, q, y, t);
          assert q[1..][t] == q[t + 1];
        }
        ReadsElsewhere(rd, old_, new_, m, key, y, q[1..]);
      } else {
        NoStepReadsNothing(rd, old_, new_, m, key, x, q);
      }
    }
  }

  lemma NoStepReadsNothing(rd: Reader, old_: Cells, new_: Cells, m: Addr, key: string, x: Value, q: seq<string>)
    requires q != [] && Bound(old_, x) && ChangedAt(old_, new_, m, key) && !(x == Ref(m) && q[0] == key)
    requires forall y :: !StepReads(rd, old_, x, q[0], y)
    ensures Get(rd, new_, x, q) == Get(rd, old_, x, q)
  {
    if x.Ref? && Entry(old_, x.addr, q[0]) {
      assert StepReads(rd, old_, x, q[0], old_[x.addr][q[0]]);
    } else if x.Items? && Item(rd, x.items, q[0]).Some? {
      assert StepReads(rd, old_, x, q[0], Item(rd, x.items, q[0]).value);
    }
  }

  /** Where a write changes an entry that was there before: at the first key that does not
      lead through an existing dictionary, or at the end of the path. */
  function Turn(cells: Cells, root: Addr, keys: seq<string>): (Addr, string)
    requires keys != []
  {
    var e := Existing(cells, root, keys);
    assert keys[..e] + keys[e..] == keys;
    WalkSplits(cells, root, keys[..e], keys[e..]);
    PrefixOfExisting(cells, root, keys);
    (Walk(cells, root, keys[..e]), if e < |keys| then keys[e] else keys[|keys| - 1])
  }

  lemma {:induction false} PrefixOfExisting(cells: Cells, a: Addr, keys: seq<string>)
    ensures var e := Existing(cells, a, keys); Existing(cells, a, keys[..e]) == e
    decreases |keys|
  {
    var e := Existing(cells, a, keys);
    if e > 0 {
      PrefixOfExisting(cells, cells[a][keys[0]].addr, keys[1..]);
      assert keys[..e][1..] == keys[1..][..e - 1];
    }
  }

  lemma WriteChangesOneEntry(cells: Cells, next: Addr, root: Addr, keys: seq<string>, v: Value)
    requires Closed(cells) && root in cells && (forall b <- cells :: b < next) && keys != []
    ensures var (m, key) := Turn(cells, root, keys);
            m in cells && ChangedAt(cells, Assigned(cells, next, root, keys, v), m, key)
  {
    var e := Existing(cells, root, keys);
    DescentSplits(cells, next, root, keys);
    if e < |keys| {
      FreshChain(cells, next, Walk(cells, root, keys[..e]), keys[e..]);
    } else {
      assert keys[e..] == [];
    }
  }

  /** The path leads through the entry it is about to overwrite: its last dictionary comes up
      earlier already, and is left by the last key. That takes dictionaries in a cycle. */
  predicate PassesItsEnd(cells: Cells, root: Addr, keys: seq<string>)
    requires keys != []
  {
    Existing(cells, root, keys) == |keys| &&
    exists i | 0 <= i < |keys| :: LeavesEarly(cells, root, keys, i)
  }

  predicate LeavesEarly(cells: Cells, root: Addr, keys: seq<string>, i: nat)
    requires i < |keys| && Existing(cells, root, keys) == |keys|
  {
    Existing(cells, root, keys[..i]) == i
    && Walk(cells, root, keys[..i]) == Walk(cells, root, keys) && keys[i] == keys[|keys| - 1]
  }

  /** The path reads a dictionary that holds the value under the last key, and the path with its
      last key repeated reads the value. */
  predicate ReadsBack(rd: Reader, c: Cells, root: Addr, keys: seq<string>, v: Value)
    requires keys != []
  {
    var d, last := Get(rd, c, Ref(root), keys), keys[|keys| - 1];
    d.Ref? && Entry(c, d.addr, last) && c[d.addr][last] == v && Get(rd, c, Ref(root), keys + [last]) == v
  }

  /** After a write its path reads back what was written, whatever else shares or refers to the
      dictionaries on it, unless the path passes its own end; then a value that holds no
      dictionary is not read back. */
  lemma SetThenGet(rd: Reader, cells: Cells, next: Addr, root: Addr, keys: seq<string>, v: Value)
    requires Closed(cells) && root in cells && ReadsFresh(rd) && (forall b <- cells :: b < next) && keys != []
    ensures !PassesItsEnd(cells, root, keys) ==>
              ReadsBack(rd, Assigned(cells, next, root, keys, v), root, keys, v)
    ensures Refs(v) == {} ==>
              (ReadsBack(rd, Assigned(cells, next, root, keys, v), root, keys, v) <==> !PassesItsEnd(cells, root, keys))
  {
    hide PassesItsEnd, Assigned, Refs, ReadsFresh;
    if PassesItsEnd(cells, root, keys) {
      if Refs(v) == {} {
        ACycleLosesTheValue(rd, cells, next, root, keys, v);
      }
    } else {
      var c := Assigned(cells, next, root, keys, v);
      var last := keys[|keys| - 1];
      WriteReachesItsEnd(cells, next, root, keys, v);
      GetFollowsWalk(rd, c, root, keys, [last]);
      GetFollowsWalk(rd, c, root, keys, []);
      assert keys + [] == keys && [last][1..] == [];
    }
  }

  lemma WriteReachesItsEnd(cells: Cells, next: Addr, root: Addr, keys: seq<string>, v: Value)
    requires Closed(cells) && root in cells && (forall b <- cells :: b < next) && keys != []
    requires !PassesItsEnd(cells, root, keys)
    ensures var c := Assigned(cells, next, root, keys, v);
            && Existing(c, root, keys) == |keys|
            && Entry(c, Walk(c, root, keys), keys[|keys| - 1]) && c[Walk(c, root, keys)][keys[|keys| - 1]] == v
  {
    hide Closed, PassesItsEnd;
    var e := Existing(cells, root, keys);
    var (front, rest) := (keys[..e], keys[e..]);
    assert front + rest == keys;
    var final := Assigned(cells, next, root, keys, v);
    DescentSplits(cells, next, root, keys);
    ExistingPartSurvives(cells, next, root, keys, v);
    if rest != [] {
      var m := Walk(cells, root, front);
      var c := Descended(cells, next, root, keys).0;
      FreshChain(cells, next, m, rest);
      forall i | 0 <= i < |rest| ensures SameStep(c, final, m, rest, i) {
        assert rest[..0] == [];
        PrefixExists(c, m, rest, i);
      }
      WalkSurvives(c, final, m, rest);
    }
    WalkSplits(final, root, front, rest);
  }

  lemma ExistingPartSurvives(cells: Cells, next: Addr, root: Addr, keys: seq<string>, v: Value)
    requires Closed(cells) && root in cells && (forall b <- cells :: b < next) && keys != []
    requires !PassesItsEnd(cells, root, keys)
    ensures var front := keys[..Existing(cells, root, keys)]; var c := Assigned(cells, next, root, keys, v);
            && Existing(cells, root, front) == |front| && Existing(c, root, front) == |front|
            && Walk(c, root, front) == Walk(cells, root, front)
  {
    hide Closed, Assigned;
    var e := Existing(cells, root, keys);
    var front := keys[..e];
    var final := Assigned(cells, next, root, keys, v);
    PrefixOfExisting(cells, root, keys);
    WriteChangesOneEntry(cells, next, root, keys, v);
    forall i | 0 <= i < e ensures SameStep(cells, final, root, front, i) {
      PrefixExists(cells, root, front, i);
      assert front[..i] == keys[..i];
      var (m, key) := Turn(cells, root, keys);
      assert !(Walk(cells, root, front[..i]) == m && front[i] == key) by {
        if e == |keys| {
          assert front == keys && !LeavesEarly(cells, root, keys, i);
        } else {
          NoStepThere(cells, root, keys);
        }
      }
    }
    WalkSurvives(cells, final, root, front);
  }

  lemma {:induction false} NoStepThere(cells: Cells, root: Addr, keys: seq<string>)
    requires Existing(cells, root, keys) < |keys|
    ensures var e := Existing(cells, root, keys);
            Existing(cells, root, keys[..e]) == e && !StepsInto(cells, Walk(cells, root, keys[..e]), keys[e])
    decreases |keys|
  {
    var e := Existing(cells, root, keys);
    if e > 0 {
      NoStepThere(cells, cells[root][keys[0]].addr, keys[1..]);
      assert keys[..e][1..] == keys[1..][..e - 1];
    }
  }

  // ---------- Reading through the changed entry ----------

  /** Reading can be done in two parts when the first ends in a dictionary. */
  lemma {:induction false} GetSplits(rd: Reader, cells: Cells, x: Value, p: seq<string>, q: seq<string>)
    requires ReadsFresh(rd) && Get(rd, cells, x, p).Ref?
    ensures Get(rd, cells, x, p + q) == Get(rd, cells, Get(rd, cells, x, p), q)
    decreases |p|
  {
    if p == [] {
      assert p + q == q;
    } else {
      assert (p + q)[1..] == p[1..] + q;
      match x
      case Ref(a) => GetSplits(rd, cells, cells[a][p[0]], p[1..], q);
      case Items(items) => GetSplits(rd, cells, Item(rd, items, p[0]).value, p[1..], q);
      case _ =>
    }
  }

  /** A value without dictionaries has none in its parts. */
  lemma {:induction false} PartsHaveNoRefs(rd: Reader, cells: Cells, x: Value, q: seq<string>)
    requires ReadsFresh(rd) && Refs(x) == {}
    ensures Refs(Get(rd, cells, x, q)) == {}
    decreases |q|
  {
    if q != [] && x.Items? && Item(rd, x.items, q[0]).Some? {
      var y := Item(rd, x.items, q[0]).value;
      assert forall a :: a in Refs(y) ==> a in Refs(x);
      PartsHaveNoRefs(rd, cells, y, q[1..]);
    }
  }

  /** The read passes through entry `key` of dictionary `m`. */
  predicate Touches(rd: Reader, cells: Cells, x: Value, q: seq<string>, m: Addr, key: string) {
    exists t | 0 <= t < |q| :: TouchesAt(rd, cells, x, q, m, key, t)
  }

  predicate TouchesAt(rd: Reader, cells: Cells, x: Value, q: seq<string>, m: Addr, key: string, t: nat)
    requires t < |q|
  {
    Get(rd, cells, x, q[..t]) == Ref(m) && q[t] == key
  }

  lemma FirstTouch(rd: Reader, cells: Cells, x: Value, q: seq<string>, m: Addr, key: string)
    returns (t: nat)
    requires Touches(rd, cells, x, q, m, key)
    ensures t < |q| && TouchesAt(rd, cells, x, q, m, key, t)
    ensures forall u | 0 <= u < t :: !TouchesAt(rd, cells, x, q, m, key, u)
  {
    hide TouchesAt;
    t := 0;
    while !TouchesAt(rd, cells, x, q, m, key, t)
      invariant t < |q| && forall u | 0 <= u < t :: !TouchesAt(rd, cells, x, q, m, key, u)
      invariant exists w | t <= w < |q| :: TouchesAt(rd, cells, x, q, m, key, w)
      decreases |q| - t
    {
      t := t + 1;
    }
  }

  /** A read that passes through the changed entry goes on from what the entry holds now. */
  lemma TouchReadsTheNewValue(
    rd: Reader, old_: Cells, new_: Cells, m: Addr, key: string, x: Value, q: seq<string>, t: nat)
    requires ReadsFresh(rd) && Closed(old_) && Bound(old_, x) && ChangedAt(old_, new_, m, key) && Entry(new_, m, key)
    requires t < |q| && TouchesAt(rd, old_, x, q, m, key, t)
    requires forall u | 0 <= u < t :: !TouchesAt(rd, old_, x, q, m, key, u)
    ensures Get(rd, new_, x, q) == Get(rd, new_, new_[m][key], q[t + 1..])
  {
    hide Closed, Bound, ReadsFresh, ChangedAt;
    forall u | 0 <= u < t
      ensures !(Get(rd, old_, x, q[..t][..u]) == Ref(m) && q[..t][u] == key)
    {
      assert q[..t][..u] == q[..u] && !TouchesAt(rd, old_, x, q, m, key, u);
    }
    ReadsElsewhere(rd, old_, new_, m, key, x, q[..t]);
    assert q == q[..t] + ([key] + q[t + 1..]);
    GetSplits(rd, new_, x, q[..t], [key] + q[t + 1..]);
    assert ([key] + q[t + 1..])[1..] == q[t + 1..];
  }

  lemma ACycleLosesTheValue(rd: Reader, cells: Cells, next: Addr, root: Addr, keys: seq<string>, v: Value)
    requires Closed(cells) && root in cells && ReadsFresh(rd) && (forall b <- cells :: b < next) && keys != []
    requires PassesItsEnd(cells, root, keys) && Refs(v) == {}
    ensures !ReadsBack(rd, Assigned(cells, next, root, keys, v), root, keys, v)
  {
    hide Closed, Refs, ReadsFresh;
    var c := Assigned(cells, next, root, keys, v);
    var (m, key) := Turn(cells, root, keys);
    DescentSplits(cells, next, root, keys);
    assert keys[..|keys|] == keys && keys[|keys|..] == [];
    WriteChangesOneEntry(cells, next, root, keys, v);
    assert Entry(c, m, key) && c[m][key] == v;
    var i :| 0 <= i < |keys| && LeavesEarly(cells, root, keys, i);
    GetFollowsWalk(rd, cells, root, keys[..i], []);
    assert keys[..i] + [] == keys[..i];
    assert TouchesAt(rd, cells, Ref(root), keys, m, key, i);
    var t := FirstTouch(rd, cells, Ref(root), keys, m, key);
    TouchReadsTheNewValue(rd, cells, c, m, key, Ref(root), keys, t);
    PartsHaveNoRefs(rd, c, v, keys[t + 1..]);
    assert Refs(Get(rd, c, Ref(root), keys)) == {};
    RefHasRefs(Get(rd, c, Ref(root), keys));
  }

  lemma RefHasRefs(x: Value)
    ensures x.Ref? ==> Refs(x) != {}
  {
    if x.Ref? {
      assert x.addr in Refs(x);
    }
  }

  lemma {:induction false} ReadsAreBound(rd: Reader, cells: Cells, x: Value, q: seq<string>)
    requires Closed(cells) && Bound(cells, x) && ReadsFresh(rd)
    ensures Get(rd, cells, x, q).Ref? ==> Get(rd, cells, x, q).addr in cells
    decreases |q|
  {
    if q != [] {
      match x
      case Text(s) => RefHasRefs(rd.json(s, q));
      case Ref(a) =>
        if q[0] in cells[a] {
          ReadsAreBound(rd, cells, cells[a][q[0]], q[1..]);
        }
      case Items(items) =>
        if Item(rd, items, q[0]).Some? {
          ReadsAreBound(rd, cells, Item(rd, items, q[0]).value, q[1..]);
        }
      case _ =>
    }
  }

  /** New dictionaries hold nothing but new dictionaries. */
  predicate OnlyNew(next: Addr, x: Value) { x.Null? || (x.Ref? && x.addr >= next) }

  lemma {:induction false} NewReadsNew(rd: Reader, c: Cells, next: Addr, x: Value, q: seq<string>)
    requires forall b: nat, k | Entry(c, b, k) && b >= next :: OnlyNew(next, c[b][k])
    requires OnlyNew(next, x)
    ensures OnlyNew(next, Get(rd, c, x, q))
    decreases |q|
  {
    if q != [] && x.Ref? && Entry(c, x.addr, q[0]) {
      NewReadsNew(rd, c, next, c[x.addr][q[0]], q[1..]);
    }
  }

  lemma ErasureLeavesOnlyNew(cells: Cells, next: Addr, root: Addr, keys: seq<string>)
    requires Closed(cells) && root in cells && (forall b <- cells :: b < next) && keys != []
    ensures var (m, key) := Turn(cells, root, keys); var c := Assigned(cells, next, root, keys, Null);
            && Entry(c, m, key) && OnlyNew(next, c[m][key])
            && forall b: nat, k | Entry(c, b, k) && b >= next :: OnlyNew(next, c[b][k])
  {
    var e := Existing(cells, root, keys);
    DescentSplits(cells, next, root, keys);
    if e < |keys| {
      FreshChain(cells, next, Walk(cells, root, keys[..e]), keys[e..]);
    } else {
      assert keys[e..] == [] && keys[..e] == keys;
    }
  }

  /**
   * Every read that does not pass through the entry the write turns off at is unchanged,
   * whatever is written. The condition is exact: a path that read something and does pass
   * through that entry, by whatever name of its dictionary, reads something else once Null is
   * written.
   */
  lemma OtherPathsUnchanged(
    rd: Reader, cells: Cells, next: Addr, root: Addr, keys: seq<string>, v: Value, q: seq<string>)
    requires Closed(cells) && root in cells && ReadsFresh(rd) && (forall b <- cells :: b < next) && keys != []
    ensures var (m, key) := Turn(cells, root, keys);
            var before := Get(rd, cells, Ref(root), q);
            && (!Touches(rd, cells, Ref(root), q, m, key) ==>
                Get(rd, Assigned(cells, next, root, keys, v), Ref(root), q) == before)
            && (before != Null ==>
                (Get(rd, Assigned(cells, next, root, keys, Null), Ref(root), q) == before
                 <==> !Touches(rd, cells, Ref(root), q, m, key)))
  {
    hide Closed, Assigned, ChangedAt, ReadsFresh;
    var (m, key) := Turn(cells, root, keys);
    var c := Assigned(cells, next, root, keys, Null);
    WriteChangesOneEntry(cells, next, root, keys, v);
    WriteChangesOneEntry(cells, next, root, keys, Null);
    if Touches(rd, cells, Ref(root), q, m, key) {
      var t := FirstTouch(rd, cells, Ref(root), q, m, key);
      ErasureLeavesOnlyNew(cells, next, root, keys);
      TouchReadsTheNewValue(rd, cells, c, m, key, Ref(root), q, t);
      NewReadsNew(rd, c, next, c[m][key], q[t + 1..]);
      ReadsAreBound(rd, cells, Ref(root), q);
    } else {
      forall t | 0 <= t < |q| ensures !(Get(rd, cells, Ref(root), q[..t]) == Ref(m) && q[t] == key) {
        assert !TouchesAt(rd, cells, Ref(root), q, m, key, t);
      }
      ReadsElsewhere(rd, cells, Assigned(cells, next, root, keys, v), m, key, Ref(root), q);
      ReadsElsewhere(rd, cells, c, m, key, Ref(root), q);
    }
  }

  /** Where no dictionary is shared, no path passes through that entry which leaves the written
      one at a dictionary that already existed. */
  lemma TreePathsDoNotTouch(rd: Reader, cells: Cells, root: Addr, keys: seq<string>, j: nat, k: string, r: seq<string>)
    requires IsTree(cells, root) && ReadsFresh(rd) && keys != []
    requires j <= |keys| && j <= Existing(cells, root, keys) && k != (keys + [keys[|keys| - 1]])[j]
    ensures var (m, key) := Turn(cells, root, keys);
            !Touches(rd, cells, Ref(root), keys[..j] + [k] + r, m, key)
  {
    hide Get, Existing, Walk, IsTree, ReadsFresh;
    var q := keys[..j] + [k] + r;
    var e := Existing(cells, root, keys);
    var (m, key) := Turn(cells, root, keys);
    PrefixOfExisting(cells, root, keys);
    assert q[j] == k;
    forall t | 0 <= t < |q|
      ensures !TouchesAt(rd, cells, Ref(root), q, m, key, t)
    {
      assert |q[..t]| == t && |keys[..e]| == e && (j < t ==> q[..t][j] == k) && (j < e ==> keys[..e][j] == keys[j]);
      if TouchesAt(rd, cells, Ref(root), q, m, key, t) {
        PathsAreUnique(rd, cells, root, keys[..e], q[..t]);
      }
    }
  }

  /** With one dictionary under both "a" and "b", writing "a" changes what "b.a" reads. */
  lemma ASharedDictionaryChangesToo(rd: Reader, v: Value)
    requires v != Null
    ensures var cells: Cells := map[0 := map["a" := Ref(1), "b" := Ref(1)], 1 := map[]];
            && Get(rd, cells, Ref(0), ["b", "a"]) == Null
            && Get(rd, Assigned(cells, 2, 0, ["a"], v), Ref(0), ["b", "a"]) == v
  {
    var cells: Cells := map[0 := map["a" := Ref(1), "b" := Ref(1)], 1 := map[]];
    assert ["a"][1..] == [] && ["b", "a"][1..] == ["a"];
    assert Descended(cells, 2, 1, []) == (cells, 2, 1);
    assert Descended(cells, 2, 0, ["a"]) == (cells, 2, 1);
  }

  /** With a dictionary that holds itself under "a", a number written to "a" is not read back. */
  lemma ASelfReferencePassesItsEnd()
    ensures PassesItsEnd(map[0 := map["a" := Ref(0)]], 0, ["a"])
  {
    var cells: Cells := map[0 := map["a" := Ref(0)]];
    assert ["a"][1..] == [] && ["a"][..0] == [];
    assert LeavesEarly(cells, 0, ["a"], 0);
  }

  /** A path read right after it is written does not give the value itself: writing "a" into
      an empty dictionary makes {"a": {"a": v}}. */
  lemma WriteGoesOneLevelDeeper(v: Value)
    ensures Assigned(map[0 := map[]], 1, 0, ["a"], v) == map[0 := map["a" := Ref(1)], 1 := map["a" := v]]
  {
    var cells: Cells := map[0 := map[]];
    var made := cells[1 := map[]][0 := cells[0]["a" := Ref(1)]];
    assert ["a"][1..] == [];
    assert Descended(cells, 1, 0, ["a"]) == (made, 2, 1);
  }
}
