/** The item node of an iteration: which element it hands out, when it collects results. */
module Iteration {
  import opened Text
  import opened Workflow

  type Port = (Id, string)

  /** `outputs` are the outputs of the iteration that refer to a port of a component;
      `members` tells which components belong to the iteration; `number` turns an index
      into a value. */
  datatype Config<V> = Config(
    container: Id, item: Id, order: seq<Id>, members: set<Id>,
    arr: seq<V>, outputs: map<string, Port>, blank: V, number: int -> V)

  /** The part of the world an iteration touches. `failed`: the item node left an error. */
  datatype World<V> = World(idx: int, failed: bool, vals: map<Port, V>, outs: map<string, seq<V>>)

  function Val<V>(cfg: Config<V>, vals: map<Port, V>, p: Port): V {
    if p in vals then vals[p] else cfg.blank
  }

  function Out<V>(outs: map<string, seq<V>>, k: string): seq<V> {
    if k in outs then outs[k] else []
  }

  predicate Collects<V>(cfg: Config<V>, k: string) {
    k in cfg.outputs && cfg.outputs[k].0 in cfg.members && cfg.outputs[k].0 in cfg.order
  }

  /** One result is appended to every output of the iteration that refers to a member. */
  function Collated<V>(cfg: Config<V>, vals: map<Port, V>, outs: map<string, seq<V>>): map<string, seq<V>> {
    map k | k in outs.Keys + cfg.outputs.Keys ::
      if Collects(cfg, k) then Out(outs, k) + [Val(cfg, vals, cfg.outputs[k])] else Out(outs, k)
  }

  /** Python's list indexing for the one negative index that occurs. */
  function Element<V>(cfg: Config<V>, i: int): V
    requires -1 <= i < |cfg.arr| && cfg.arr != []
  {
    if i == -1 then cfg.arr[|cfg.arr| - 1] else cfg.arr[i]
  }

  function HandOut<V>(cfg: Config<V>, vals: map<Port, V>, a: V, i: int): map<Port, V> {
    vals[(cfg.item, "item") := a][(cfg.item, "index") := cfg.number(i)]
  }

  /** One invocation of the item node. From index -1, where an earlier pass over the array
      left it, the "next" element is the last one of the array, if there is one. */
  function Invoked<V>(cfg: Config<V>, w: World<V>): World<V>
  {
    var w1 := if w.idx > 0 then w.(outs := Collated(cfg, w.vals, w.outs)) else w;
    if w.idx >= |cfg.arr| then w1.(idx := -1)
    else if w.idx < -1 || cfg.arr == [] then w1.(failed := true)
    else w1.(vals := HandOut(cfg, w.vals, Element(cfg, w.idx), w.idx), idx := w.idx + 1)
  }

  /** The node as an object. */
  class IterationItem<V> {
    const cfg: Config<V>
    var idx: int
    var failed: bool
    var vals: map<Port, V>
    var outs: map<string, seq<V>>

    constructor (cfg: Config<V>, vals: map<Port, V>, outs: map<string, seq<V>>)
      ensures this.cfg == cfg && Now() == World(0, false, vals, outs)
    {
      this.cfg, this.vals, this.outs := cfg, vals, outs;
      idx, failed := 0, false;
    }

    ghost function Now(): World<V>
      reads this
    {
      World(idx, failed, vals, outs)
    }

    method Invoke()
      requires idx >= -1 && Distinct(cfg.order)
      modifies this
      ensures Now() == Invoked(cfg, old(Now()))
    {
      if idx > 0 {
        OutputCollation();
      }
      if idx >= |cfg.arr| {
        idx := -1;
        return;
      }
      if cfg.arr == [] {
        failed := true;
        return;
      }
      vals := HandOut(cfg, vals, Element(cfg, idx), idx);
      idx := idx + 1;
    }

    /** For every member, in dictionary order, and every output that refers to it. */
    method OutputCollation()
      requires Distinct(cfg.order)
      modifies this`outs
      ensures outs == Collated(cfg, vals, old(outs))
    {
      hide Gain, Share, Collated, Out, Distinct;
      ghost var outs0 := outs;
      outs := map k | k in outs.Keys + cfg.outputs.Keys :: Out(outs, k);
      CollationIsGain(cfg, vals, outs0);
      assert cfg.order[..0] == [];
      for i := 0 to |cfg.order|
        invariant outs.Keys == outs0.Keys + cfg.outputs.Keys
        invariant forall k <- outs :: outs[k] == Out(outs0, k) + Gain(cfg, vals, cfg.order[..i], k)
      {
        ghost var before := outs;
        CollectFrom(cfg.order[i]);
        forall k | k in outs
          ensures outs[k] == Out(outs0, k) + Gain(cfg, vals, cfg.order[..i + 1], k)
        {
          GainGrows(cfg, vals, i, k);
          assert outs[k] == before[k] + Share(cfg, vals, cfg.order[i], k);
          Assoc(Out(outs0, k), Gain(cfg, vals, cfg.order[..i], k), Share(cfg, vals, cfg.order[i], k));
        }
      }
      assert cfg.order[..|cfg.order|] == cfg.order;
    }

    method CollectFrom(cid: Id)
      requires cfg.outputs.Keys <= outs.Keys
      modifies this`outs
      ensures outs.Keys == old(outs).Keys
      ensures forall k <- outs :: outs[k] == old(outs)[k] + Share(cfg, vals, cid, k)
    {
      if cid !in cfg.members {
        return;
      }
      var rest := set k | k in cfg.outputs && cfg.outputs[k].0 == cid;
      while rest != {}
        invariant rest <= cfg.outputs.Keys && (forall k <- rest :: cfg.outputs[k].0 == cid)
        invariant outs.Keys == old(outs).Keys
        invariant forall k <- outs ::
                    outs[k] == if k in rest then old(outs)[k] else old(outs)[k] + Share(cfg, vals, cid, k)
        decreases |rest|
      {
        var k :| k in rest;
        outs := outs[k := outs[k] + [Val(cfg, vals, cfg.outputs[k])]];
        rest := rest - {k};
      }
    }
  }

  /** What output `k` gains from component `cid`. */
  function Share<V>(cfg: Config<V>, vals: map<Port, V>, cid: Id, k: string): seq<V> {
    if k in cfg.outputs && cfg.outputs[k].0 == cid && cid in cfg.members
    then [Val(cfg, vals, cfg.outputs[k])] else []
  }

  /** What it gains once the components `seen` have been visited. */
  function Gain<V>(cfg: Config<V>, vals: map<Port, V>, seen: seq<Id>, k: string): seq<V> {
    if k in cfg.outputs && cfg.outputs[k].0 in cfg.members && cfg.outputs[k].0 in seen
    then [Val(cfg, vals, cfg.outputs[k])] else []
  }

  lemma GainGrows<V>(cfg: Config<V>, vals: map<Port, V>, i: nat, k: string)
    requires Distinct(cfg.order) && i < |cfg.order|
    ensures Gain(cfg, vals, cfg.order[..i + 1], k) ==
            Gain(cfg, vals, cfg.order[..i], k) + Share(cfg, vals, cfg.order[i], k)
  {
    assert cfg.order[..i + 1] == cfg.order[..i] + [cfg.order[i]];
    assert cfg.order[i] !in cfg.order[..i];
  }

  lemma CollationIsGain<V>(cfg: Config<V>, vals: map<Port, V>, outs: map<string, seq<V>>)
    ensures Collated(cfg, vals, outs).Keys == outs.Keys + cfg.outputs.Keys
    ensures forall k <- Collated(cfg, vals, outs) ::
              Collated(cfg, vals, outs)[k] == Out(outs, k) + Gain(cfg, vals, cfg.order, k)
    ensures forall k :: Gain(cfg, vals, [], k) == []
  {
  }

  lemma Assoc<V>(a: seq<V>, b: seq<V>, c: seq<V>)
    ensures a + (b + c) == a + b + c
  {
  }

  /** An invocation with an element left hands it out with its index, counts on, and touches no
      other value. From index -1 that is the last element, handed out with -1. */
  lemma InvocationHandsOut<V>(cfg: Config<V>, w: World<V>)
    requires -1 <= w.idx < |cfg.arr| && cfg.arr != []
    ensures var t := Invoked(cfg, w);
            && t.idx == w.idx + 1 && t.failed == w.failed
            && (cfg.item, "item") in t.vals && (cfg.item, "index") in t.vals
            && t.vals[(cfg.item, "item")] == cfg.arr[if w.idx == -1 then |cfg.arr| - 1 else w.idx]
            && t.vals[(cfg.item, "index")] == cfg.number(w.idx)
            && forall p | p != (cfg.item, "item") && p != (cfg.item, "index") ::
                 (p in t.vals <==> p in w.vals) && (p in w.vals ==> t.vals[p] == w.vals[p])
  {
    hide Collated;
    assert "item"[1] != "index"[1];
  }

  /** Behind the last element it ends; over an empty array, entered again, it fails. */
  lemma InvocationEnds<V>(cfg: Config<V>, w: World<V>)
    ensures w.idx >= |cfg.arr| ==>
              Invoked(cfg, w).idx == -1 && Invoked(cfg, w).vals == w.vals && Invoked(cfg, w).failed == w.failed
    ensures w.idx == -1 && cfg.arr == [] ==> Invoked(cfg, w) == w.(failed := true)
  {
    hide Collated;
  }

  /** Results are collected from the second invocation on: the value of the port an output refers
      to is appended to it, if the port is a member's, and nothing else is changed. */
  lemma InvocationCollects<V>(cfg: Config<V>, w: World<V>, k: string)
    ensures var before := if k in w.outs then w.outs[k] else [];
            var after := if k in Invoked(cfg, w).outs then Invoked(cfg, w).outs[k] else [];
            if w.idx > 0 && k in cfg.outputs && cfg.outputs[k].0 in cfg.members && cfg.outputs[k].0 in cfg.order
            then after == before + [if cfg.outputs[k] in w.vals then w.vals[cfg.outputs[k]] else cfg.blank]
            else after == before
  {
    hide HandOut;
  }
}
