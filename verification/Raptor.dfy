/** The tree of summaries over a list of chunks: each layer is clustered, every cluster is
    summarised by one new chunk, and the summaries are the next layer, until one is left. */
module Raptor {

  datatype Chunk = Chunk(text: string, embedding: seq<real>)

  predicate Usable(c: Chunk) { c.text != "" && c.embedding != [] }

  function UsableOnly(input: seq<Chunk>): (r: seq<Chunk>)
    ensures |r| <= |input| && forall c <- r :: c in input && Usable(c)
  {
    if input == [] then []
    else if Usable(input[0]) then [input[0]] + UsableOnly(input[1..])
    else UsableOnly(input[1..])
  }

  /** Exactly the chunks with a text and an embedding are kept, in their order. */
  lemma {:induction false} UsableChunksAreKept(a: seq<Chunk>, c: Chunk, b: seq<Chunk>)
    ensures UsableOnly(a + [c] + b)
         == UsableOnly(a) + (if c.text != "" && c.embedding != [] then [c] else []) + UsableOnly(b)
    decreases |a|
  {
    if a == [] {
      assert [] + [c] + b == [c] + b && ([c] + b)[1..] == b;
    } else {
      assert (a + [c] + b)[1..] == a[1..] + [c] + b;
      UsableChunksAreKept(a[1..], c, b);
    }
  }

  /** `layers` are ranges of `chunks`; `labels` gives the cluster of every chunk that has
      been clustered. `made` records, for every chunk, the chunks it summarises. */
  datatype Tree = Tree(chunks: seq<Chunk>, layers: seq<Layer>, labels: seq<nat>, made: seq<seq<nat>>)
  {
    function Top(): Layer
      requires layers != []
    {
      layers[|layers| - 1]
    }
  }

  datatype Layer = Layer(start: nat, end: nat)

  datatype Summary = New(chunk: Chunk) | Skipped | GivenUp

  datatype Outcome = Nothing | Built(tree: Tree) | Raised

  // ---------- What a tree of layers is ----------

  /** Every chunk only summarises earlier ones. */
  predicate Grounded(made: seq<seq<nat>>) {
    forall j, c | 0 <= j < |made| && c in made[j] :: c < j
  }

  /** Some chunk from `s` to `e` summarises chunk `c`. */
  predicate Summarized(made: seq<seq<nat>>, s: nat, e: nat, c: nat)
    requires e <= |made|
  {
    exists j | s <= j < e :: c in made[j]
  }

  /** The chunks from `s2` to `e2` summarise disjoint groups that make up those from `s1` to `e1`. */
  predicate Reduces(made: seq<seq<nat>>, s1: nat, e1: nat, s2: nat, e2: nat)
    requires e2 <= |made|
  {
    && (forall j | s2 <= j < e2 :: made[j] != [] && forall c <- made[j] :: s1 <= c < e1)
    && (forall j, k, c | s2 <= j < k < e2 && c in made[j] :: c !in made[k])
    && (forall c | s1 <= c < e1 :: Summarized(made, s2, e2, c))
  }

  predicate ValidLayer(made: seq<seq<nat>>, layers: seq<Layer>, i: nat)
    requires i < |layers|
  {
    var l := layers[i];
    && l.start <= l.end <= |made|
    && if i == 0 then l.start == 0 && forall j | 0 <= j < l.end :: made[j] == []
       else
         var l0 := layers[i - 1];
         && l.start == l0.end && l0.start <= l0.end && l.end + l0.start < l.start + l0.end
         && (Reduces(made, l0.start, l0.end, l.start, l.end) ||
             (l.start == l.end && l0.end == l0.start + 2 && i == |layers| - 1))
  }

  /** The layers follow one another without gaps, shrink, and each is made from the one
      before; only a final layer over two chunks may be missing its summary. */
  predicate WellBuilt(t: Tree, n: nat) {
    && |t.made| == |t.chunks| && n <= |t.chunks| && Grounded(t.made)
    && t.layers != [] && t.layers[0] == Layer(0, n) && t.Top().end == |t.chunks|
    && (forall i | 0 <= i < |t.layers| :: ValidLayer(t.made, t.layers, i))
    && |t.labels| == t.Top().start
  }

  /** Of the chunks from `s1` to `e1`, those summarised by one chunk from `s2` to `e2` are those of
      one label. */
  predicate LabelsTell(made: seq<seq<nat>>, labels: seq<nat>, s1: nat, e1: nat, s2: nat, e2: nat) {
    && e1 <= |labels| && e2 <= |made|
    && forall j, c, d | s2 <= j < e2 && c in made[j] && s1 <= d < e1 ::
         c < |labels| && (d in made[j] <==> labels[d] == labels[c])
  }

  predicate LayerLabelled(t: Tree, i: nat)
    requires 0 < i < |t.layers|
  {
    LabelsTell(t.made, t.labels, t.layers[i - 1].start, t.layers[i - 1].end, t.layers[i].start, t.layers[i].end)
  }

  predicate Labelled(t: Tree) { forall i | 0 < i < |t.layers| :: LayerLabelled(t, i) }

  // ---------- Leaves ----------

  function Leaves(made: seq<seq<nat>>, j: nat): set<nat>
    requires j < |made| && Grounded(made)
    decreases j
  {
    if made[j] == [] then {j} else set c, l | c in made[j] && l in Leaves(made, c) :: l
  }

  predicate HasLeaf(made: seq<seq<nat>>, s: nat, e: nat, l: nat)
    requires e <= |made| && Grounded(made)
  {
    exists j | s <= j < e :: l in Leaves(made, j)
  }

  /** The leaf sets of the chunks from `s` to `e` are a partition of the first `n` chunks. */
  predicate PartitionsLeaves(made: seq<seq<nat>>, n: nat, s: nat, e: nat)
    requires e <= |made| && Grounded(made)
  {
    && (forall j | s <= j < e :: Leaves(made, j) != {} && forall l <- Leaves(made, j) :: l < n)
    && (forall j, k | s <= j < k < e :: Leaves(made, j) !! Leaves(made, k))
    && (forall l | 0 <= l < n :: HasLeaf(made, s, e, l))
  }

  lemma ReductionKeepsLeaves(made: seq<seq<nat>>, n: nat, s1: nat, e1: nat, s2: nat, e2: nat)
    requires e1 <= s2 && e2 <= |made| && e1 <= |made| && Grounded(made)
    requires PartitionsLeaves(made, n, s1, e1) && Reduces(made, s1, e1, s2, e2)
    ensures PartitionsLeaves(made, n, s2, e2)
  {
    forall j | s2 <= j < e2
      ensures Leaves(made, j) != {} && forall l <- Leaves(made, j) :: l < n
    {
      LeavesOfGroup(made, n, s1, e1, j);
    }
    forall j, k | s2 <= j < k < e2
      ensures Leaves(made, j) !! Leaves(made, k)
    {
      assert forall c <- made[j] :: c !in made[k];
      GroupsShareNothing(made, n, s1, e1, j, k);
    }
    forall l | 0 <= l < n
      ensures HasLeaf(made, s2, e2, l)
    {
      assert HasLeaf(made, s1, e1, l);
      var c :| s1 <= c < e1 && l in Leaves(made, c);
      assert Summarized(made, s2, e2, c);
      var j :| s2 <= j < e2 && c in made[j];
      assert l in Leaves(made, j);
    }
  }

  lemma LeavesOfGroup(made: seq<seq<nat>>, n: nat, s1: nat, e1: nat, j: nat)
    requires e1 <= |made| && j < |made| && Grounded(made) && PartitionsLeaves(made, n, s1, e1)
    requires made[j] != [] && forall c <- made[j] :: s1 <= c < e1
    ensures Leaves(made, j) != {} && forall l <- Leaves(made, j) :: l < n
  {
    var c := made[j][0];
    assert c in made[j] && s1 <= c < e1;
    var l :| l in Leaves(made, c);
    assert l in Leaves(made, j);
  }

  lemma GroupsShareNothing(made: seq<seq<nat>>, n: nat, s1: nat, e1: nat, j: nat, k: nat)
    requires e1 <= |made| && j < |made| && k < |made| && Grounded(made) && PartitionsLeaves(made, n, s1, e1)
    requires made[j] != [] && forall c <- made[j] :: s1 <= c < e1 && c !in made[k]
    requires made[k] != [] && forall c <- made[k] :: s1 <= c < e1
    ensures Leaves(made, j) !! Leaves(made, k)
  {
    forall c, d | c in made[j] && d in made[k]
      ensures Leaves(made, c) !! Leaves(made, d)
    {
      assert c != d;
      assert c < d ==> Leaves(made, c) !! Leaves(made, d);
      assert d < c ==> Leaves(made, d) !! Leaves(made, c);
    }
  }

  /** In every layer that was completed, the leaf sets of its chunks are non-empty, disjoint
      and cover the input. */
  lemma {:induction false} LayersPartitionLeaves(t: Tree, n: nat, i: nat)
    requires WellBuilt(t, n) && i < |t.layers|
    requires i == 0 || i < |t.layers| - 1 || t.layers[i].start < t.layers[i].end
    ensures ValidLayer(t.made, t.layers, i)
    ensures PartitionsLeaves(t.made, n, t.layers[i].start, t.layers[i].end)
    decreases i
  {
    assert ValidLayer(t.made, t.layers, i);
    var l := t.layers[i];
    if i == 0 {
      assert forall j | 0 <= j < l.end :: Leaves(t.made, j) == {j};
      forall x | 0 <= x < n ensures HasLeaf(t.made, 0, n, x) {
        assert x in Leaves(t.made, x);
      }
    } else {
      assert ValidLayer(t.made, t.layers, i - 1);
      var l0 := t.layers[i - 1];
      LayersPartitionLeaves(t, n, i - 1);
      ReductionKeepsLeaves(t.made, n, l0.start, l0.end, l.start, l.end);
    }
  }

  /** When one chunk is left at the top, it stands for every input chunk, and only those. */
  lemma RootCoversEverything(t: Tree, n: nat)
    requires WellBuilt(t, n) && t.Top().end == t.Top().start + 1
    ensures forall l: nat :: l in Leaves(t.made, t.Top().start) <==> l < n
  {
    hide WellBuilt;
    TopEndsTheTree(t, n);
    var l := t.Top();
    LayersPartitionLeaves(t, n, |t.layers| - 1);
    forall x: nat | x < n
      ensures x in Leaves(t.made, l.start)
    {
      assert HasLeaf(t.made, l.start, l.end, x);
    }
  }

  lemma TopEndsTheTree(t: Tree, n: nat)
    requires WellBuilt(t, n)
    ensures t.Top().end == |t.chunks| == |t.made| && t.layers != [] && Grounded(t.made)
  {
  }

  // ---------- Clusters ----------

  /** The members of cluster `c`, as positions from `start`. */
  function Members(labels: seq<nat>, c: nat, start: nat): (r: seq<nat>)
    ensures forall x :: x in r <==> start <= x < start + |labels| && labels[x - start] == c
  {
    if labels == [] then []
    else
      var last := |labels| - 1;
      Members(labels[..last], c, start) + if labels[last] == c then [start + last] else []
  }

  /** What the clustering of a layer of `m` chunks may answer. */
  predicate Legal(k: nat, labels: seq<nat>, m: nat, maxCluster: nat) {
    1 <= k < m && k < maxCluster && |labels| == m && forall l <- labels :: l < k
  }

  /** One summary per cluster, in whatever order they were finished. */
  predicate OnePerCluster(made: seq<seq<nat>>, labels: seq<nat>, start: nat, end: nat, order: seq<nat>) {
    && |made| == end + |order|
    && (forall i | 0 <= i < |order| :: made[end + i] == Members(labels, order[i], start))
    && (forall i, j | 0 <= i < j < |order| :: order[i] != order[j])
  }

  lemma ClustersReduce(made: seq<seq<nat>>, labels: seq<nat>, k: nat, start: nat, end: nat, order: seq<nat>)
    requires end == start + |labels| && OnePerCluster(made, labels, start, end, order)
    requires forall l <- labels :: l < k
    requires forall c | 0 <= c < k :: Members(labels, c, start) != [] && c in order
    requires forall c <- order :: c < k
    ensures Reduces(made, start, end, end, |made|)
  {
    forall j | end <= j < |made|
      ensures made[j] == Members(labels, order[j - end], start) && made[j] != []
    {
      assert made[end + (j - end)] == Members(labels, order[j - end], start);
      assert order[j - end] in order;
    }
    forall c | start <= c < end
      ensures Summarized(made, end, |made|, c)
    {
      var l := labels[c - start];
      assert l in labels && l in order;
      var i :| 0 <= i < |order| && order[i] == l;
      assert c in made[end + i];
    }
  }

  lemma ClustersAreLabelled(
    made: seq<seq<nat>>, labels: seq<nat>, lbls: seq<nat>, start: nat, end: nat, order: seq<nat>)
    requires |labels| == start && end == start + |lbls| && OnePerCluster(made, lbls, start, end, order)
    ensures LabelsTell(made, labels + lbls, start, end, end, |made|)
  {
    var all := labels + lbls;
    forall j, c, d | end <= j < |made| && c in made[j] && start <= d < end
      ensures c < |all| && (d in made[j] <==> all[d] == all[c])
    {
      assert made[end + (j - end)] == Members(lbls, order[j - end], start);
      assert all[c] == lbls[c - start] && all[d] == lbls[d - start];
    }
  }

  function Triangle(k: int): nat {
    if k <= 0 then 0 else k + Triangle(k - 1)
  }

  lemma {:induction false} TriangleFormula(k: nat)
    ensures 2 * Triangle(k) == k * (k + 1)
  {
    if k > 0 {
      TriangleFormula(k - 1);
    }
  }

  lemma {:induction false} TriangleGrows(a: int, b: int)
    requires a <= b
    ensures Triangle(a) <= Triangle(b)
    decreases b - a
  {
    if a < b {
      TriangleGrows(a, b - 1);
    }
  }

  /** The most chunks a tree over `n` of them can have. */
  function MostChunks(n: nat, maxCluster: nat): nat {
    n + if maxCluster <= 2 then 1 else Triangle(maxCluster - 1)
  }

  // ---------- The builder ----------

  class Builder {
    const maxCluster: nat
    const maxErrors: nat
    var errorCount: nat

    constructor (maxCluster: nat, maxErrors: nat)
      ensures this.maxCluster == maxCluster && this.maxErrors >= 1 && errorCount == 0
    {
      this.maxCluster := maxCluster;
      this.maxErrors := if maxErrors < 1 then 1 else maxErrors;
      errorCount := 0;
    }

    /** One summary: a new chunk, an error that is counted and tolerated, or the end of the
        run, because the task was canceled or one error too many. */
    method Summarize() returns (s: Summary)
      modifies this
      ensures s.New? ==> errorCount == old(errorCount)
      ensures s.Skipped? ==> errorCount == old(errorCount) + 1 < maxErrors
      ensures s.GivenUp? ==> errorCount == old(errorCount) || errorCount == old(errorCount) + 1 >= maxErrors
    {
      var canceled: bool := *;
      if canceled {
        return GivenUp;
      }
      var failed: bool := *;
      if failed {
        errorCount := errorCount + 1;
        return if errorCount >= maxErrors then GivenUp else Skipped;
      }
      var text: string := *;
      var embedding: seq<real> := *;
      return New(Chunk(text, embedding));
    }

    /** Summarise every cluster of a layer; the summaries arrive in any order. None when the
        run is given up or a cluster got no summary. */
    method SummarizeClusters(k: nat, lbls: seq<nat>, start: nat, chunks0: seq<Chunk>, made0: seq<seq<nat>>)
      returns (ok: bool, chunks: seq<Chunk>, made: seq<seq<nat>>, ghost order: seq<nat>)
      requires |chunks0| == |made0|
      modifies this
      ensures ok ==>
                && chunks0 <= chunks && made0 <= made && |chunks| == |made|
                && OnePerCluster(made, lbls, start, |made0|, order) && |order| == k
                && (forall c <- order :: c < k) && (forall c | 0 <= c < k :: c in order)
                && errorCount == old(errorCount)
    {
      chunks, made, order := chunks0, made0, [];
      var remaining := Numbers(k);
      ghost var missing := {};
      while remaining != {}
        invariant chunks0 <= chunks && made0 <= made && |chunks| == |made| && |made| == |made0| + |order|
        invariant OnePerCluster(made, lbls, start, |made0|, order)
        invariant forall c: nat :: c < k <==> c in remaining || c in order || c in missing
        invariant forall c <- order :: c !in remaining && c !in missing
        invariant errorCount == old(errorCount) + |missing|
        invariant missing !! remaining && |order| + |remaining| + |missing| == k
        decreases |remaining|
      {
        var c :| c in remaining;
        remaining := remaining - {c};
        var summary := Summarize();
        if summary.GivenUp? {
          return false, chunks, made, order;
        }
        if summary.New? {
          chunks := chunks + [summary.chunk];
          made := made + [Members(lbls, c, start)];
          order := order + [c];
        } else {
          missing := missing + {c};
        }
      }
      ok := |chunks| - |chunks0| == k;
    }

    method Build(input: seq<Chunk>) returns (r: Outcome)
      modifies this
      ensures r.Nothing? <==> |input| <= 1
      ensures |input| > 1 && |UsableOnly(input)| <= 1 ==> r.Built?
      ensures r.Built? ==>
                var n := |UsableOnly(input)|;
                && WellBuilt(r.tree, n) && Labelled(r.tree)
                && r.tree.chunks[..n] == UsableOnly(input)
                && r.tree.Top().end <= r.tree.Top().start + 1
                && |r.tree.chunks| <= MostChunks(n, maxCluster)
                && (maxCluster >= 2 || n <= 2)
                && errorCount == old(errorCount) + if n > 0 && r.tree.Top().start == r.tree.Top().end then 1 else 0
    {
      hide Reduces, ValidLayer, Grounded, Members, Triangle, UsableOnly, Labelled, LabelsTell;
      if |input| <= 1 {
        return Nothing;
      }
      var chunks := UsableOnly(input);
      var n := |chunks|;
      var made: seq<seq<nat>> := seq(n, i => []);
      var layers := [Layer(0, n)];
      var labels: seq<nat> := [];
      var start: nat, end: nat := 0, n;
      FirstLayer(chunks);
      while end - start > 1
        invariant start <= end == |chunks| && layers != [] && layers[|layers| - 1] == Layer(start, end)
        invariant WellBuilt(Tree(chunks, layers, labels, made), n) && Labelled(Tree(chunks, layers, labels, made))
        invariant errorCount == old(errorCount) + if n > 0 && start == end then 1 else 0
        invariant chunks[..n] == UsableOnly(input)
        invariant Bounded(n, start, end, maxCluster)
        decreases end - start
      {
        var canceled: bool := *;
        if canceled {
          return Raised;
        }
        ghost var t := Tree(chunks, layers, labels, made);
        var lbls: seq<nat>;
        if end - start == 2 {
          var summary := Summarize();
          if summary.GivenUp? {
            return Raised;
          }
          lbls := [0, 0];
          if summary.New? {
            chunks := chunks + [summary.chunk];
            made := made + [[start, start + 1]];
            PairReduces(made, start);
          }
          PairIsLabelled(t, chunks, made);
        } else {
          var k: nat;
          k, lbls := *, *;
          if !Legal(k, lbls, end - start, maxCluster) || exists c | 0 <= c < k :: Members(lbls, c, start) == [] {
            return Raised;
          }
          var ok;
          ghost var order;
          ok, chunks, made, order := SummarizeClusters(k, lbls, start, chunks, made);
          if !ok {
            return Raised;
          }
          ClustersReduce(made, lbls, k, start, end, order);
          ClustersAreLabelled(made, labels, lbls, start, end, order);
        }
        NextLayer(t, n, chunks, made, lbls);
        NextLabels(t, n, chunks, made, lbls);
        NextBound(n, start, end, |chunks|, maxCluster);
        labels := labels + lbls;
        layers := layers + [Layer(end, |chunks|)];
        start, end := end, |chunks|;
      }
      return Built(Tree(chunks, layers, labels, made));
    }
  }

  function Numbers(k: nat): (r: set<nat>)
    ensures |r| == k && forall c: nat :: c in r <==> c < k
  {
    if k == 0 then {} else Numbers(k - 1) + {k - 1}
  }

  lemma FirstLayer(chunks: seq<Chunk>)
    ensures var t := Tree(chunks, [Layer(0, |chunks|)], [], seq(|chunks|, i => []));
            WellBuilt(t, |chunks|) && Labelled(t)
  {
  }

  lemma PairReduces(made: seq<seq<nat>>, start: nat)
    requires |made| == start + 3 && made[start + 2] == [start, start + 1]
    ensures Reduces(made, start, start + 2, start + 2, start + 3)
  {
    assert start in made[start + 2] && start + 1 in made[start + 2];
    assert Summarized(made, start + 2, start + 3, start) && Summarized(made, start + 2, start + 3, start + 1);
  }

  /** A layer that reduces the top layer, or is missing over a pair, extends the tree. */
  lemma NextLayer(t: Tree, n: nat, chunks: seq<Chunk>, made: seq<seq<nat>>, lbls: seq<nat>)
    requires WellBuilt(t, n) && t.chunks <= chunks && t.made <= made && |made| == |chunks|
    requires |lbls| == t.Top().end - t.Top().start
    requires 2 <= |lbls| && |chunks| < t.Top().end + |lbls|
    requires Reduces(made, t.Top().start, t.Top().end, t.Top().end, |made|) || (chunks == t.chunks && |lbls| == 2)
    ensures WellBuilt(Tree(chunks, t.layers + [Layer(t.Top().end, |chunks|)], t.labels + lbls, made), n)
  {
    var layers := t.layers + [Layer(t.Top().end, |chunks|)];
    forall i | 0 <= i < |layers| ensures ValidLayer(made, layers, i) {
      if i < |t.layers| {
        assert ValidLayer(t.made, t.layers, i);
        if i > 0 {
          var l0, l := t.layers[i - 1], t.layers[i];
          assert i == |t.layers| - 1 ==> l == t.Top();
          SameReduction(t.made, made, l0.start, l0.end, l.start, l.end);
        }
      } else {
        assert ValidLayer(t.made, t.layers, |t.layers| - 1);
      }
    }
    forall j, c | 0 <= j < |made| && c in made[j] ensures c < j {
      assert j < |t.made| ==> made[j] == t.made[j];
    }
  }

  lemma PairIsLabelled(t: Tree, chunks: seq<Chunk>, made: seq<seq<nat>>)
    requires t.layers != [] && t.Top().end == |t.made| && t.Top().end == t.Top().start + 2
    requires |t.labels| == t.Top().start && t.made <= made
    requires made == t.made || made == t.made + [[t.Top().start, t.Top().start + 1]]
    ensures LabelsTell(made, t.labels + [0, 0], t.Top().start, t.Top().end, t.Top().end, |made|)
  {
  }

  /** With the labels of its top layer, a labelled tree stays labelled. */
  lemma NextLabels(t: Tree, n: nat, chunks: seq<Chunk>, made: seq<seq<nat>>, lbls: seq<nat>)
    requires WellBuilt(t, n) && Labelled(t) && t.made <= made
    requires LabelsTell(made, t.labels + lbls, t.Top().start, t.Top().end, t.Top().end, |made|)
    requires |made| == |chunks|
    ensures Labelled(Tree(chunks, t.layers + [Layer(t.Top().end, |chunks|)], t.labels + lbls, made))
  {
    hide LabelsTell;
    var next := Tree(chunks, t.layers + [Layer(t.Top().end, |chunks|)], t.labels + lbls, made);
    forall i | 0 < i < |next.layers| ensures LayerLabelled(next, i) {
      if i < |t.layers| {
        assert LayerLabelled(t, i);
        var l0, l := t.layers[i - 1], t.layers[i];
        SameLabels(t.made, made, t.labels, lbls, l0.start, l0.end, l.start, l.end);
      }
    }
  }

  lemma SameLabels(
    made: seq<seq<nat>>, more: seq<seq<nat>>, labels: seq<nat>, lbls: seq<nat>, s1: nat, e1: nat, s2: nat, e2: nat)
    requires made <= more && LabelsTell(made, labels, s1, e1, s2, e2)
    ensures LabelsTell(more, labels + lbls, s1, e1, s2, e2)
  {
    var all := labels + lbls;
    forall j, c, d | s2 <= j < e2 && c in more[j] && s1 <= d < e1
      ensures c < |all| && (d in more[j] <==> all[d] == all[c])
    {
      assert more[j] == made[j] && c in made[j];
      assert c < |labels| && (d in made[j] <==> labels[d] == labels[c]);
      assert all[c] == labels[c] && all[d] == labels[d];
    }
  }

  lemma SameReduction(made: seq<seq<nat>>, more: seq<seq<nat>>, s1: nat, e1: nat, s2: nat, e2: nat)
    requires e2 <= |made| && made <= more && Reduces(made, s1, e1, s2, e2)
    ensures Reduces(more, s1, e1, s2, e2)
  {
    assert forall j | s2 <= j < e2 :: more[j] == made[j];
    forall c | s1 <= c < e1 ensures Summarized(more, s2, e2, c) {
      assert Summarized(made, s2, e2, c);
    }
  }

  /** How many chunks there are when `end - start` of them are waiting to be clustered. */
  predicate Bounded(n: nat, start: nat, end: nat, maxCluster: nat) {
    || (start == 0 && end == n)
    || (end + Triangle(end - start - 1) <= MostChunks(n, maxCluster) && (maxCluster >= 2 || n <= 2))
  }

  lemma NextBound(n: nat, start: nat, end: nat, next: nat, maxCluster: nat)
    requires start + 1 < end <= next && Bounded(n, start, end, maxCluster)
    requires next - end < end - start
    requires end - start == 2 || end < next < end + maxCluster
    ensures Bounded(n, end, next, maxCluster)
  {
    TriangleGrows(next - end, end - start - 1);
    if end - start > 2 {
      TriangleGrows(next - end, maxCluster - 1);
    }
    assert next > end ==> Triangle(next - end) == next - end + Triangle(next - end - 1);
  }
}
