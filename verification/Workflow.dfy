/** The static side of an agent workflow: its components, how they are wired, and
    the events a run emits.

    Component ids are strings because the scheduler reads their text: a run is
    resumed, and dependency checks are waived, when an id contains "userfillup". */
module Workflow {

  type Id = string

  datatype Option<+T> = None | Some(value: T)

  datatype Kind =
    | Begin | UserFillUp | Message
    | Iteration | IterationItem | Loop | LoopItem
    | Categorize | Switch | ExitLoop
    | Other
  {
    predicate IsContainer() { Iteration? || Loop? }
    predicate IsItem() { IterationItem? || LoopItem? }
    predicate IsRouter() { Categorize? || Switch? }
    predicate IsEntry() { Begin? || UserFillUp? }
  }

  /** What a component declares for the case that its invocation leaves an error. */
  datatype Handler = NoHandler | Handler(goto: seq<Id>, hasDefault: bool)

  /** `refs` are the components whose outputs the inputs of this one mention. */
  datatype Node = Node(
    kind: Kind, downstream: seq<Id>, parent: Option<Id>, refs: set<Id>, handler: Handler)

  /** `order` is the iteration order of the component dictionary. */
  datatype Graph = Graph(order: seq<Id>, nodes: map<Id, Node>)

  const BEGIN: Id := "begin"
  const FILL_UP_MARK := "userfillup"

  function LowerChar(c: char): char {
    if 'A' <= c <= 'Z' then (c as int + 32) as char else c
  }

  function Lower(s: string): string {
    seq(|s|, i requires 0 <= i < |s| => LowerChar(s[i]))
  }

  /** The id contains "userfillup", whatever the case of its letters. */
  predicate NamesFillUp(id: Id) {
    exists k | 0 <= k <= |id| :: MarkedAt(id, k)
  }

  predicate MarkedAt(id: Id, k: nat) {
    k + |FILL_UP_MARK| <= |id| && Lower(id[k..k + |FILL_UP_MARK|]) == FILL_UP_MARK
  }

  predicate Known(g: Graph, ids: seq<Id>) {
    forall x <- ids :: x in g.nodes
  }

  predicate IsFillUp(g: Graph, x: Id) {
    x in g.nodes && g.nodes[x].kind.UserFillUp?
  }

  predicate IsItemOf(g: Graph, x: Id, container: Id) {
    && x in g.nodes && container in g.nodes
    && (g.nodes[container].kind.Iteration? ==> g.nodes[x].kind.IterationItem?)
    && (g.nodes[container].kind.Loop? ==> g.nodes[x].kind.LoopItem?)
    && g.nodes[x].parent == Some(container)
  }

  /** The first component, in dictionary order, that is the item node of `container`. */
  function StartIn(g: Graph, order: seq<Id>, container: Id): (r: Option<Id>)
    ensures r.Some? ==> r.value in order && IsItemOf(g, r.value, container)
    ensures r.None? ==> forall x <- order :: !IsItemOf(g, x, container)
  {
    if order == [] then None
    else if IsItemOf(g, order[0], container) then Some(order[0])
    else StartIn(g, order[1..], container)
  }

  lemma {:induction false} StartIsFirst(g: Graph, a: seq<Id>, x: Id, b: seq<Id>, container: Id)
    requires IsItemOf(g, x, container) && forall y <- a :: !IsItemOf(g, y, container)
    ensures StartIn(g, a + [x] + b, container) == Some(x)
    decreases |a|
  {
    hide IsItemOf;
    if a != [] {
      assert (a + [x] + b)[1..] == a[1..] + [x] + b && (a + [x] + b)[0] == a[0];
      StartIsFirst(g, a[1..], x, b, container);
    }
  }

  /** What the scheduler takes for granted about a loaded workflow. */
  predicate WellFormed(g: Graph) {
    && BEGIN in g.nodes && g.nodes[BEGIN].kind.Begin?
    && (forall x <- g.order :: x in g.nodes)
    && (forall x <- g.nodes :: g.nodes[x].parent.Some? ==>
         g.nodes[x].parent.value in g.nodes && g.nodes[g.nodes[x].parent.value].kind.IsContainer())
    && (forall x <- g.nodes :: g.nodes[x].kind.IsItem() || g.nodes[x].kind.ExitLoop? ==> g.nodes[x].parent.Some?)
    && (forall x <- g.nodes :: g.nodes[x].kind.IsContainer() ==> StartIn(g, g.order, x).Some?)
  }

  function Start(g: Graph, container: Id): (r: Id)
    requires WellFormed(g) && container in g.nodes && g.nodes[container].kind.IsContainer()
    ensures IsItemOf(g, r, container)
  {
    StartIn(g, g.order, container).value
  }

  /** `late` marks a node_finished that was held back while its output was streaming. NodeHeld
      is not sent out: it marks the place where that was decided. */
  datatype Event =
    | WorkflowStarted
    | NodeStarted(id: Id)
    | NodeHeld(id: Id)
    | Message(id: Id)
    | MessageEnd(id: Id)
    | NodeFinished(id: Id, late: bool)
    | UserInputs
    | WorkflowFinished
}
