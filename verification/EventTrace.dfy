/** The stream of events a run sends out: no component is reported finished more often
    than started, held-back reports come out in the order they were held back, and the
    closing event comes last. */
module EventTrace {
  import opened Workflow
  import opened Scheduler

  function StartedIn(trace: seq<Event>): multiset<Id> {
    if trace == [] then multiset{}
    else
      var rest := StartedIn(trace[..|trace| - 1]);
      match trace[|trace| - 1]
      case NodeStarted(x) => rest + multiset{x}
      case _ => rest
  }

  predicate IsContainer(g: Graph, x: Id) { x in g.nodes && g.nodes[x].kind.IsContainer() }

  /** Iteration and loop nodes are left out: their item node reports them, once for every time
      it ends. */
  function FinishedIn(g: Graph, trace: seq<Event>): multiset<Id> {
    if trace == [] then multiset{}
    else
      var rest := FinishedIn(g, trace[..|trace| - 1]);
      match trace[|trace| - 1]
      case NodeFinished(x, _) => if IsContainer(g, x) then rest else rest + multiset{x}
      case _ => rest
  }

  /** The nodes whose report was held back, in order. */
  function HeldBackIn(trace: seq<Event>): seq<Id> {
    if trace == [] then []
    else
      var rest := HeldBackIn(trace[..|trace| - 1]);
      match trace[|trace| - 1]
      case NodeHeld(x) => rest + [x]
      case _ => rest
  }

  /** Those that were reported late, in order. */
  function ReleasedIn(trace: seq<Event>): seq<Id> {
    if trace == [] then []
    else
      var rest := ReleasedIn(trace[..|trace| - 1]);
      match trace[|trace| - 1]
      case NodeFinished(x, late) => if late then rest + [x] else rest
      case _ => rest
  }

  predicate IsClosing(e: Event) { e.UserInputs? || e.WorkflowFinished? }

  predicate Open(trace: seq<Event>) { forall e <- trace :: !IsClosing(e) }

  /** `held` are the nodes held back at the end of the trace. */
  predicate Balanced(g: Graph, trace: seq<Event>, held: seq<Id>) {
    && HeldBackIn(trace) == ReleasedIn(trace) + held
    && FinishedIn(g, trace) + multiset(held) <= StartedIn(trace)
  }

  /** At every point the nodes held back and not yet reported are the latest ones, and no
      node is reported or held back more often than started. */
  predicate NeverAhead(g: Graph, trace: seq<Event>) {
    forall k | 0 <= k <= |trace| ::
      |ReleasedIn(trace[..k])| <= |HeldBackIn(trace[..k])| &&
      Balanced(g, trace[..k], HeldBackIn(trace[..k])[|ReleasedIn(trace[..k])|..])
  }

  /** `pending` are the entries of the current batch that were started and still have to report. */
  predicate Accounted<W>(g: Graph, s: State<W>, pending: seq<Id>) {
    && Balanced(g, s.trace, s.partials)
    && FinishedIn(g, s.trace) + multiset(s.partials) + multiset(pending) <= StartedIn(s.trace)
    && NeverAhead(g, s.trace)
    && Open(s.trace)
  }

  /** The whole statement about the events of one run. */
  predicate WellFormedTrace<W>(g: Graph, s: State<W>) {
    && NeverAhead(g, s.trace)
    && Balanced(g, s.trace, s.partials)
    && forall k | 0 <= k < |s.trace| - 1 :: !IsClosing(s.trace[k])
  }

  lemma Snoc(g: Graph, trace: seq<Event>, e: Event, held: seq<Id>)
    requires NeverAhead(g, trace)
    requires Balanced(g, trace + [e], held)
    ensures NeverAhead(g, trace + [e])
  {
    hide FinishedIn, StartedIn, HeldBackIn, ReleasedIn;
    var longer := trace + [e];
    forall k | 0 <= k <= |longer|
      ensures |ReleasedIn(longer[..k])| <= |HeldBackIn(longer[..k])|
      ensures Balanced(g, longer[..k], HeldBackIn(longer[..k])[|ReleasedIn(longer[..k])|..])
    {
      if k <= |trace| {
        assert longer[..k] == trace[..k];
      } else {
        assert longer[..k] == longer;
        assert HeldBackIn(longer)[|ReleasedIn(longer)|..] == held;
      }
    }
  }

  /** What one more event adds to the counts. */
  lemma Counts(g: Graph, trace: seq<Event>, e: Event)
    ensures var t := trace + [e];
            && StartedIn(t) == StartedIn(trace) + (if e.NodeStarted? then multiset{e.id} else multiset{})
            && FinishedIn(g, t) == FinishedIn(g, trace)
                                   + (if e.NodeFinished? && !IsContainer(g, e.id) then multiset{e.id} else multiset{})
            && HeldBackIn(t) == HeldBackIn(trace) + (if e.NodeHeld? then [e.id] else [])
            && ReleasedIn(t) == ReleasedIn(trace) + (if e.NodeFinished? && e.late then [e.id] else [])
  {
    assert (trace + [e])[..|trace|] == trace;
  }

  /** A step of the account: an event takes `s` to `t`. */
  lemma Book<W>(g: Graph, s: State<W>, t: State<W>, e: Event, before: seq<Id>, after: seq<Id>)
    requires Accounted(g, s, before) && !IsClosing(e) && t.trace == s.trace + [e]
    requires HeldBackIn(t.trace) == ReleasedIn(t.trace) + t.partials
    requires FinishedIn(g, t.trace) + multiset(t.partials) + multiset(after) <= StartedIn(t.trace)
    ensures Accounted(g, t, after)
  {
    hide FinishedIn, StartedIn, HeldBackIn, ReleasedIn, NeverAhead;
    Snoc(g, s.trace, e, t.partials);
  }

  /** Events that concern nobody's report. */
  lemma Emit<W>(g: Graph, s: State<W>, pending: seq<Id>, e: Event)
    requires Accounted(g, s, pending) && !IsClosing(e) && !e.NodeHeld?
    requires e.NodeFinished? ==> IsContainer(g, e.id) && !e.late
    ensures var add := if e.NodeStarted? then [e.id] else [];
            Accounted(g, s.(trace := s.trace + [e]), pending + add)
  {
    hide FinishedIn, StartedIn, HeldBackIn, ReleasedIn, NeverAhead, Open, IsContainer;
    var add := if e.NodeStarted? then [e.id] else [];
    Counts(g, s.trace, e);
    Book(g, s, s.(trace := s.trace + [e]), e, pending, pending + add);
  }

  /** A pending entry reports right away. */
  lemma EmitFinished<W>(g: Graph, s: State<W>, x: Id, pending: seq<Id>)
    requires Accounted(g, s, [x] + pending) && !IsContainer(g, x)
    ensures Accounted(g, s.(trace := s.trace + [NodeFinished(x, false)]), pending)
  {
    hide FinishedIn, StartedIn, HeldBackIn, ReleasedIn, NeverAhead, Open, IsContainer;
    var e := NodeFinished(x, false);
    Counts(g, s.trace, e);
    Book(g, s, s.(trace := s.trace + [e]), e, [x] + pending, pending);
  }

  /** A pending entry is held back. */
  lemma EmitHeldBack<W>(g: Graph, s: State<W>, x: Id, pending: seq<Id>)
    requires Accounted(g, s, [x] + pending)
    ensures Accounted(g, s.(trace := s.trace + [NodeHeld(x)], partials := s.partials + [x]), pending)
  {
    hide FinishedIn, StartedIn, HeldBackIn, ReleasedIn, NeverAhead, Open, IsContainer;
    var e := NodeHeld(x);
    Counts(g, s.trace, e);
    assert ReleasedIn(s.trace) + s.partials + [x] == ReleasedIn(s.trace) + (s.partials + [x]);
    Book(g, s, s.(trace := s.trace + [e], partials := s.partials + [x]), e, [x] + pending, pending);
  }

  lemma FrontOf(ids: seq<Id>)
    requires ids != []
    ensures multiset(ids) == multiset{ids[0]} + multiset(ids[1..])
  {
    assert ids == [ids[0]] + ids[1..];
  }

  /** The front of `partials` reports late. */
  lemma EmitReleased<W>(g: Graph, s: State<W>, pending: seq<Id>)
    requires Accounted(g, s, pending) && s.partials != []
    ensures var t := s.trace + [NodeFinished(s.partials[0], true)];
            Accounted(g, s.(trace := t, partials := s.partials[1..]), pending)
  {
    hide FinishedIn, StartedIn, HeldBackIn, ReleasedIn, NeverAhead, Open, IsContainer;
    var x := s.partials[0];
    var e := NodeFinished(x, true);
    var t := s.(trace := s.trace + [e], partials := s.partials[1..]);
    Counts(g, s.trace, e);
    FrontOf(s.partials);
    assert ReleasedIn(s.trace) + [x] + s.partials[1..] == ReleasedIn(s.trace) + s.partials;
    assert FinishedIn(g, t.trace) + multiset(t.partials) + multiset(pending) <= StartedIn(t.trace);
    Book(g, s, t, e, pending, pending);
  }

  lemma {:induction false} DrainKeeps<W>(g: Graph, s: State<W>, pending: seq<Id>, k: nat)
    requires Accounted(g, s, pending) && k <= |s.partials|
    ensures Accounted(g, s.(trace := s.trace + Held(s.partials[..k]), partials := s.partials[k..]), pending)
    decreases k
  {
    hide Accounted;
    if k == 0 {
      assert s.trace + Held(s.partials[..k]) == s.trace;
    } else {
      EmitReleased(g, s, pending);
      var t := s.(trace := s.trace + [NodeFinished(s.partials[0], true)], partials := s.partials[1..]);
      DrainKeeps(g, t, pending, k - 1);
      assert t.trace + Held(t.partials[..k - 1]) == s.trace + Held(s.partials[..k]);
      assert t.partials[k - 1..] == s.partials[k..];
    }
  }

  lemma EmitMessage<W>(g: Graph, s: State<W>, pending: seq<Id>, x: Id)
    requires Accounted(g, s, pending)
    ensures Accounted(g, s.(trace := s.trace + [Event.Message(x), MessageEnd(x)]), pending)
  {
    hide Accounted;
    Emit(g, s, pending, Event.Message(x));
    var t := s.(trace := s.trace + [Event.Message(x)]);
    assert pending + [] == pending;
    Emit(g, t, pending, MessageEnd(x));
    assert t.trace + [MessageEnd(x)] == s.trace + [Event.Message(x), MessageEnd(x)];
  }

  lemma DeliverKeeps<W>(g: Graph, env: Env<W>, s: State<W>, x: Id, pending: seq<Id>)
    requires x in g.nodes && Accounted(g, s, pending)
    ensures Accounted(g, Deliver(g, env, s, x), pending)
  {
    if g.nodes[x].kind.Message? {
      var w := env.deliver(s.world, x);
      EmitMessage(g, s, pending, x);
      DrainKeeps(g, s.(world := w, trace := s.trace + [Event.Message(x), MessageEnd(x)]), pending,
                 Drainable(env, w, s.partials));
    }
  }

  lemma RecoverKeeps<W>(g: Graph, s: State<W>, x: Id, v: View, pending: seq<Id>)
    requires x in g.nodes && Accounted(g, s, pending)
    ensures Accounted(g, Recover(g, s, x, v), pending)
  {
    hide FinishedIn, StartedIn, HeldBackIn, ReleasedIn, NeverAhead, Open;
    EmitMessage(g, s, pending, x);
  }

  lemma ConcludeKeeps<W>(g: Graph, env: Env<W>, s: State<W>, x: Id, v: View, pending: seq<Id>)
    requires x in g.nodes && Accounted(g, s, [x] + pending)
    ensures Accounted(g, Conclude(g, env, s, x, v), pending)
  {
    var t := s.(world := env.settle(s.world, x, !s.error.NoError?));
    if g.nodes[x].kind.IsContainer() {
    } else if v.streaming && s.error.NoError? {
      EmitHeldBack(g, t, x, pending);
    } else {
      EmitFinished(g, t, x, pending);
    }
  }

  lemma RouteKeeps<W>(g: Graph, s: State<W>, x: Id, v: View, pending: seq<Id>)
    requires WellFormed(g) && x in g.nodes && s.path != [] && Accounted(g, s, pending)
    ensures Accounted(g, Route(g, s, x, v).st, pending)
  {
    hide Accounted, NamesFillUp;
    var n := g.nodes[x];
    assert pending + [] == pending;
    var t := s;
    if ItemEnds(n, v) {
      Emit(g, s, pending, NodeFinished(n.parent.value, false));
      t := s.(trace := s.trace + [NodeFinished(n.parent.value, false)]);
    }
    var r := Route(g, s, x, v).st;
    assert r == s || r == t || r == t.(path := r.path);
    OnlyTheEventsCount(g, t, r.path, t.world, pending);
  }

  lemma OnlyTheEventsCount<W>(g: Graph, s: State<W>, path: seq<Id>, w: W, pending: seq<Id>)
    ensures Accounted(g, s, pending) == Accounted(g, s.(path := path, world := w), pending)
  {
  }

  lemma PostProcessKeeps<W>(g: Graph, env: Env<W>, s: State<W>, x: Id, pending: seq<Id>)
    requires WellFormed(g) && x in g.nodes && s.path != [] && Accounted(g, s, [x] + pending)
    ensures Accounted(g, PostProcess(g, env, s, x).st, pending)
  {
    hide Accounted, Route, Deliver, Recover, Conclude;
    var s1 := Deliver(g, env, s, x);
    var v := env.view(s1.world, x);
    DeliverKeeps(g, env, s, x, [x] + pending);
    RecoverKeeps(g, s1, x, v, [x] + pending);
    PathGrows(g, env, s, x);
    ConcludeKeeps(g, env, Recover(g, s1, x, v), x, v, pending);
    RouteKeeps(g, Conclude(g, env, Recover(g, s1, x, v), x, v), x, v, pending);
  }

  lemma PathGrows<W>(g: Graph, env: Env<W>, s: State<W>, x: Id)
    requires x in g.nodes && s.path != []
    ensures var s1 := Deliver(g, env, s, x); var v := env.view(s1.world, x);
            Conclude(g, env, Recover(g, s1, x, v), x, v).path != []
  {
  }

  lemma AccountedForLess<W>(g: Graph, s: State<W>, pending: seq<Id>, fewer: seq<Id>)
    requires Accounted(g, s, pending) && multiset(fewer) <= multiset(pending)
    ensures Accounted(g, s, fewer)
  {
  }

  lemma {:induction false} PostProcessAllKeeps<W>(g: Graph, env: Env<W>, s: State<W>, i: nat, end: nat)
    requires WellFormed(g) && i <= end <= |s.path| && Known(g, s.path[..end])
    requires Accounted(g, s, s.path[i..end])
    ensures Accounted(g, PostProcessAll(g, env, s, i, end).st, [])
    decreases end - i
  {
    hide Accounted, PostProcess;
    AccountedForLess(g, s, s.path[i..end], s.path[i..end]);
    if i < end {
      var x := s.path[i];
      assert x in s.path[..end];
      assert s.path[i..end] == [x] + s.path[i + 1..end];
      PostProcessKeeps(g, env, s, x, s.path[i + 1..end]);
      var r := PostProcess(g, env, s, x);
      AccountedForLess(g, r.st, s.path[i + 1..end], []);
      if r.Done? {
        assert r.st.path[..end] == s.path[..end];
        assert r.st.path[i + 1..end] == r.st.path[..end][i + 1..] == s.path[..end][i + 1..] == s.path[i + 1..end];
        PostProcessAllKeeps(g, env, r.st, i + 1, end);
      }
    } else {
      assert s.path[i..end] == [];
    }
  }

  lemma {:induction false} AnnounceKeeps<W>(g: Graph, s: State<W>, ids: seq<Id>, pending: seq<Id>)
    requires Accounted(g, s, pending)
    ensures Accounted(g, s.(trace := s.trace + Begun(ids)), pending + ids)
    decreases |ids|
  {
    hide Accounted;
    if ids == [] {
      assert s.trace + Begun(ids) == s.trace;
      assert pending + ids == pending;
    } else {
      Emit(g, s, pending, NodeStarted(ids[0]));
      var t := s.(trace := s.trace + [NodeStarted(ids[0])]);
      AnnounceKeeps(g, t, ids[1..], pending + [ids[0]]);
      assert t.trace + Begun(ids[1..]) == s.trace + Begun(ids);
      assert pending + [ids[0]] + ids[1..] == pending + ids;
    }
  }

  lemma {:induction false} KeptIsPart(g: Graph, before: seq<Id>, pending: seq<Id>)
    requires Known(g, pending)
    ensures multiset(Kept(g, before, pending)) <= multiset(before) + multiset(pending)
    decreases |pending|
  {
    if pending != [] {
      assert pending == [pending[0]] + pending[1..];
      assert multiset(pending) == multiset{pending[0]} + multiset(pending[1..]);
      if Ready(g, before, pending[0]) {
        KeptIsPart(g, before + [pending[0]], pending[1..]);
      } else {
        KeptIsPart(g, before, pending[1..]);
      }
    }
  }

  lemma Cancel(a: multiset<Id>, b: multiset<Id>, c: multiset<Id>)
    requires a + b <= a + c
    ensures b <= c
  {
    forall x | x in b ensures b[x] <= c[x] {
      assert (a + b)[x] <= (a + c)[x];
    }
  }

  lemma RunBatchKeeps<W>(g: Graph, env: Env<W>, s: State<W>, idx: nat)
    requires idx <= |s.path| && Known(g, s.path) && Accounted(g, s, s.path[idx..])
    ensures var t := RunBatch(g, env, s, idx);
            Accounted(g, t, t.path[idx..])
  {
    hide Accounted;
    KnownSlice(g, s.path, idx);
    var t := RunBatch(g, env, s, idx);
    KeptIsPart(g, s.path[..idx], s.path[idx..]);
    assert t.path == s.path[..idx] + t.path[idx..];
    assert multiset(t.path) == multiset(s.path[..idx]) + multiset(t.path[idx..]);
    Cancel(multiset(s.path[..idx]), multiset(t.path[idx..]), multiset(s.path[idx..]));
    AccountedForLess(g, s, s.path[idx..], t.path[idx..]);
    OnlyTheEventsCount(g, s, t.path, t.world, t.path[idx..]);
  }

  lemma CloseKeeps<W>(g: Graph, s: State<W>, last: seq<Event>)
    requires Accounted(g, s, []) && (last == [] || (|last| == 1 && IsClosing(last[0])))
    ensures WellFormedTrace(g, s.(trace := s.trace + last))
  {
    if last == [] {
      assert s.trace + last == s.trace;
    } else {
      assert (s.trace + last)[..|s.trace|] == s.trace;
      assert last == [last[0]];
      Counts(g, s.trace, last[0]);
      Snoc(g, s.trace, last[0], s.partials);
    }
  }

  lemma RoundKeepsAccounts<W>(g: Graph, env: Env<W>, s: State<W>, idx: nat, canceled: bool)
    requires WellFormed(g) && idx <= |s.path| && Known(g, s.path) && Accounted(g, s, [])
    ensures match Round(g, env, s, idx, canceled)
            case Next(t, _) => Accounted(g, t, [])
            case Exits(e) => WellFormedTrace(g, e.st)
  {
    hide Accounted, WellFormedTrace, RunBatch, PostProcessAll, Selected, NamesFillUp;
    AnnounceKeeps(g, s, s.path[idx..], []);
    assert [] + s.path[idx..] == s.path[idx..];
    var s1 := Announce(s, idx);
    AccountedForLess(g, s1, s1.path[idx..], []);
    CloseKeeps(g, s1, []);
    assert s1.trace + [] == s1.trace;
    if !canceled {
      RunBatchKeeps(g, env, s1, idx);
      var s2 := RunBatch(g, env, s1, idx);
      var end := |s2.path|;
      assert s2.path[..end] == s2.path;
      assert s2.path[idx..end] == s2.path[idx..];
      PostProcessAllKeeps(g, env, s2, idx, end);
      var t := PostProcessAll(g, env, s2, idx, end).st;
      CloseKeeps(g, t, []);
      assert t.trace + [] == t.trace;
      CloseKeeps(g, t, [WorkflowFinished]);
      CloseKeeps(g, t, [UserInputs]);
      IgnoresPath(g, t);
    }
  }

  lemma IgnoresPath<W>(g: Graph, s: State<W>)
    ensures forall p, tr :: WellFormedTrace(g, s.(trace := tr)) == WellFormedTrace(g, s.(path := p, trace := tr))
  {
  }

  lemma {:induction false} RunFromKeepsAccounts<W>(g: Graph, env: Env<W>, s: State<W>, idx: nat, budget: nat)
    requires WellFormed(g) && idx <= |s.path| && Known(g, s.path) && Accounted(g, s, [])
    ensures WellFormedTrace(g, RunFrom(g, env, s, idx, budget).st)
    decreases budget
  {
    hide Accounted, Round, WellFormedTrace, NamesFillUp;
    if idx == |s.path| {
      CloseKeeps(g, s, []);
      assert s.trace + [] == s.trace;
      CloseKeeps(g, s, [WorkflowFinished]);
      IgnoresPath(g, s);
    } else {
      RoundKeepsAccounts(g, env, s, idx, budget == 0);
      match Round(g, env, s, idx, budget == 0)
      case Exits(_) =>
      case Next(t, i) => RunFromKeepsAccounts(g, env, t, i, budget - 1);
    }
  }

  /** Every run, however it ends, sends out a well-formed stream of events. */
  lemma RunHasWellFormedTrace<W>(g: Graph, env: Env<W>, path: seq<Id>, w: W, early: bool, budget: nat)
    requires WellFormed(g) && Known(g, path)
    ensures WellFormedTrace(g, Run(g, env, path, w, early, budget).st)
  {
    hide RunFrom, WellFormed, NamesFillUp, Accounted, WellFormedTrace, Opened;
    var s := Opened(env, path, w);
    OpenedAtStart(env, path, w);
    if early {
      NoEvents(g, s);
    } else {
      OpenedIsAccounted(g, env, path, w);
      KnownStart(g, path);
      RunFromKeepsAccounts(g, env, s, |s.path| - 1, budget);
    }
  }

  lemma OpenedAtStart<W>(env: Env<W>, path: seq<Id>, w: W)
    ensures Opened(env, path, w).path == RunStart(path) && Opened(env, path, w).partials == []
  {
  }

  lemma NoEvents<W>(g: Graph, s: State<W>)
    requires s.partials == []
    ensures WellFormedTrace(g, s.(trace := []))
  {
    NothingYet(g, []);
  }

  lemma KnownStart(g: Graph, path: seq<Id>)
    requires WellFormed(g) && Known(g, path)
    ensures Known(g, RunStart(path))
  {
  }

  lemma OpenedIsAccounted<W>(g: Graph, env: Env<W>, path: seq<Id>, w: W)
    ensures Accounted(g, Opened(env, path, w), [])
  {
    hide FinishedIn, StartedIn, HeldBackIn, ReleasedIn;
    var trace := [WorkflowStarted];
    NothingYet(g, []);
    NothingYet(g, trace);
    assert trace[..0] == [] && trace[..1] == trace;
  }

  lemma NothingYet(g: Graph, trace: seq<Event>)
    requires trace == [] || trace == [WorkflowStarted]
    ensures FinishedIn(g, trace) == StartedIn(trace) == multiset{}
    ensures HeldBackIn(trace) == ReleasedIn(trace) == []
  {
    assert trace != [] ==> trace[..0] == [];
  }

  // ---------- How the stream ends ----------

  predicate EndsWith(trace: seq<Event>, e: Event) {
    trace != [] && trace[|trace| - 1] == e && Open(trace[..|trace| - 1])
  }

  /** A run that finishes says so last, one that pauses asks for input last. A run that stops
      reports the end of the workflow if it was canceled, and sends no closing event after any
      other error; neither does a run that is aborted. */
  predicate ClosesAs<W>(e: Exit<W>) {
    match e
    case Finished(t) => EndsWith(t.trace, WorkflowFinished) && t.error == NoError
    case Paused(t) => EndsWith(t.trace, UserInputs) && t.error == NoError
    case Stopped(t) =>
      || (t.error == Canceled && EndsWith(t.trace, WorkflowFinished))
      || (t.error == Failed && Open(t.trace))
    case Aborted(t) => Open(t.trace)
  }

  lemma ClosedBy(trace: seq<Event>, e: Event)
    requires Open(trace)
    ensures EndsWith(trace + [e], e) && trace + [] == trace
  {
    assert (trace + [e])[..|trace|] == trace;
  }

  lemma AccountedIsOpen<W>(g: Graph, s: State<W>, pending: seq<Id>)
    requires Accounted(g, s, pending)
    ensures Open(s.trace)
  {
  }

  lemma RoundCloses<W>(g: Graph, env: Env<W>, s: State<W>, idx: nat, canceled: bool)
    requires WellFormed(g) && idx <= |s.path| && Known(g, s.path) && Accounted(g, s, [])
    ensures var r := Round(g, env, s, idx, canceled); r.Exits? ==> ClosesAs(r.exit)
  {
    hide Accounted, RunBatch, PostProcessAll, Selected, NamesFillUp, WellFormed, Known, Open, EndsWith;
    assert [] + s.path[idx..] == s.path[idx..];
    AnnounceKeeps(g, s, s.path[idx..], []);
    var s1 := Announce(s, idx);
    AccountedIsOpen(g, s1, s1.path[idx..]);
    if !canceled {
      RunBatchKeeps(g, env, s1, idx);
      var s2 := RunBatch(g, env, s1, idx);
      var end := |s2.path|;
      assert s2.path[..end] == s2.path && s2.path[idx..end] == s2.path[idx..];
      PostProcessAllKeeps(g, env, s2, idx, end);
      var t := PostProcessAll(g, env, s2, idx, end).st;
      AccountedIsOpen(g, t, []);
      ClosedBy(t.trace, WorkflowFinished);
      ClosedBy(t.trace, UserInputs);
    }
  }

  lemma {:induction false} RunFromCloses<W>(g: Graph, env: Env<W>, s: State<W>, idx: nat, budget: nat)
    requires WellFormed(g) && idx <= |s.path| && Known(g, s.path) && Accounted(g, s, []) && s.error == NoError
    ensures ClosesAs(RunFrom(g, env, s, idx, budget))
    decreases budget
  {
    hide Accounted, Round, NamesFillUp, WellFormed, Known, Open, EndsWith;
    if idx == |s.path| {
      AccountedIsOpen(g, s, []);
      ClosedBy(s.trace, WorkflowFinished);
    } else {
      RoundKeepsAccounts(g, env, s, idx, budget == 0);
      RoundCloses(g, env, s, idx, budget == 0);
      var r := Round(g, env, s, idx, budget == 0);
      if r.Next? {
        RunFromCloses(g, env, r.st, r.idx, budget - 1);
      }
    }
  }

  /** How the events of a run begin and end: none if it is canceled before it starts, and
      otherwise the start of the workflow first, and the closing event its exit calls for last. */
  lemma RunOpensAndCloses<W>(g: Graph, env: Env<W>, path: seq<Id>, w: W, early: bool, budget: nat)
    requires WellFormed(g) && Known(g, path)
    ensures var e := Run(g, env, path, w, early, budget);
            if early then e.Aborted? && e.st.trace == []
            else ClosesAs(e) && [WorkflowStarted] <= e.st.trace
  {
    hide RunFrom, WellFormed, NamesFillUp, Accounted, ClosesAs, RunStart;
    if !early {
      var s := Opened(env, path, w);
      OpenedIsAccounted(g, env, path, w);
      KnownStart(g, path);
      RunFromCloses(g, env, s, |s.path| - 1, budget);
      RunFromAddsEvents(g, env, s, |s.path| - 1, budget);
    }
  }

  lemma PostProcessAddsEvents<W>(g: Graph, env: Env<W>, s: State<W>, x: Id)
    requires WellFormed(g) && x in g.nodes && s.path != []
    ensures s.trace <= PostProcess(g, env, s, x).st.trace
  {
    hide WellFormed, Drainable, ExtendIds, Successors, TakesGoto;
  }

  lemma {:induction false} PostProcessAllAddsEvents<W>(g: Graph, env: Env<W>, s: State<W>, i: nat, end: nat)
    requires WellFormed(g) && i <= end <= |s.path| && Known(g, s.path[..end])
    ensures s.trace <= PostProcessAll(g, env, s, i, end).st.trace
    decreases end - i
  {
    hide WellFormed, PostProcess;
    if i < end {
      var x := s.path[i];
      assert x in s.path[..end];
      PostProcessAddsEvents(g, env, s, x);
      var r := PostProcess(g, env, s, x);
      if r.Done? {
        assert r.st.path[..end] == s.path[..end];
        PostProcessAllAddsEvents(g, env, r.st, i + 1, end);
      }
    }
  }

  lemma RoundAddsEvents<W>(g: Graph, env: Env<W>, s: State<W>, idx: nat, canceled: bool)
    requires WellFormed(g) && idx <= |s.path| && Known(g, s.path)
    ensures var r := Round(g, env, s, idx, canceled);
            s.trace <= (if r.Next? then r.st.trace else r.exit.st.trace)
  {
    hide WellFormed, PostProcessAll, Kept, Selected;
    if !canceled {
      var s2 := RunBatch(g, env, Announce(s, idx), idx);
      assert s2.path[..|s2.path|] == s2.path;
      PostProcessAllAddsEvents(g, env, s2, idx, |s2.path|);
    }
  }

  lemma {:induction false} RunFromAddsEvents<W>(g: Graph, env: Env<W>, s: State<W>, idx: nat, budget: nat)
    requires WellFormed(g) && idx <= |s.path| && Known(g, s.path)
    ensures s.trace <= RunFrom(g, env, s, idx, budget).st.trace
    decreases budget
  {
    hide Round, WellFormed, Known;
    if idx != |s.path| {
      RoundAddsEvents(g, env, s, idx, budget == 0);
      var r := Round(g, env, s, idx, budget == 0);
      if r.Next? {
        RunFromAddsEvents(g, env, r.st, r.idx, budget - 1);
      }
    }
  }

  // ---------- Nobody is forgotten ----------

  /** Reported finished, or held back until a message has been read. */
  function Reported<W>(g: Graph, s: State<W>): multiset<Id> {
    FinishedIn(g, s.trace) + multiset(s.partials)
  }

  /** The entries that report for themselves. */
  function Plain(g: Graph, ids: seq<Id>): multiset<Id> {
    if ids == [] then multiset{}
    else (if IsContainer(g, ids[0]) then multiset{} else multiset{ids[0]}) + Plain(g, ids[1..])
  }

  lemma {:induction false} PlainSplits(g: Graph, a: seq<Id>, b: seq<Id>)
    ensures Plain(g, a + b) == Plain(g, a) + Plain(g, b)
  {
    if a == [] {
      assert a + b == b;
    } else {
      assert (a + b)[1..] == a[1..] + b;
      PlainSplits(g, a[1..], b);
    }
  }

  lemma {:induction false} FinishedHeld(g: Graph, trace: seq<Event>, ids: seq<Id>)
    requires forall x <- ids :: !IsContainer(g, x)
    ensures FinishedIn(g, trace + Held(ids)) == FinishedIn(g, trace) + multiset(ids)
    decreases |ids|
  {
    hide FinishedIn;
    if ids == [] {
      assert trace + Held(ids) == trace;
    } else {
      Counts(g, trace, NodeFinished(ids[0], true));
      FinishedHeld(g, trace + [NodeFinished(ids[0], true)], ids[1..]);
      assert trace + [NodeFinished(ids[0], true)] + Held(ids[1..]) == trace + Held(ids);
      FrontOf(ids);
    }
  }

  lemma FinishedMessage(g: Graph, trace: seq<Event>, x: Id)
    ensures FinishedIn(g, trace + [Event.Message(x), MessageEnd(x)]) == FinishedIn(g, trace)
  {
    Counts(g, trace, Event.Message(x));
    Counts(g, trace + [Event.Message(x)], MessageEnd(x));
    assert trace + [Event.Message(x), MessageEnd(x)] == trace + [Event.Message(x)] + [MessageEnd(x)];
  }

  predicate NoContainerHeld<W>(g: Graph, s: State<W>) { forall x <- s.partials :: !IsContainer(g, x) }

  lemma DeliverReports<W>(g: Graph, env: Env<W>, s: State<W>, x: Id)
    requires x in g.nodes && NoContainerHeld(g, s)
    ensures var t := Deliver(g, env, s, x);
            Reported(g, t) == Reported(g, s) && NoContainerHeld(g, t)
  {
    hide FinishedIn, Held, Drainable, IsContainer;
    if g.nodes[x].kind.Message? {
      var k := Drainable(env, env.deliver(s.world, x), s.partials);
      FinishedMessage(g, s.trace, x);
      assert s.partials == s.partials[..k] + s.partials[k..];
      FinishedHeld(g, s.trace + [Event.Message(x), MessageEnd(x)], s.partials[..k]);
    }
  }

  lemma RecoverReports<W>(g: Graph, s: State<W>, x: Id, v: View)
    requires x in g.nodes
    ensures var t := Recover(g, s, x, v);
            FinishedIn(g, t.trace) == FinishedIn(g, s.trace) && t.partials == s.partials
  {
    FinishedMessage(g, s.trace, x);
  }

  lemma ConcludeReports<W>(g: Graph, env: Env<W>, s: State<W>, x: Id, v: View)
    requires x in g.nodes && NoContainerHeld(g, s)
    ensures var t := Conclude(g, env, s, x, v);
            Reported(g, t) == Reported(g, s) + Plain(g, [x]) && NoContainerHeld(g, t)
  {
    hide FinishedIn;
    Counts(g, s.trace, NodeFinished(x, false));
    Counts(g, s.trace, NodeHeld(x));
  }

  lemma RouteReports<W>(g: Graph, s: State<W>, x: Id, v: View)
    requires WellFormed(g) && x in g.nodes && s.path != []
    ensures var t := Route(g, s, x, v).st;
            FinishedIn(g, t.trace) == FinishedIn(g, s.trace) && t.partials == s.partials
  {
    hide NamesFillUp, FinishedIn, StartedIn, HeldBackIn, ReleasedIn, ExtendIds, TakesGoto;
    if ItemEnds(g.nodes[x], v) {
      Counts(g, s.trace, NodeFinished(g.nodes[x].parent.value, false));
    }
  }

  lemma PostProcessReports<W>(g: Graph, env: Env<W>, s: State<W>, x: Id)
    requires WellFormed(g) && x in g.nodes && s.path != [] && NoContainerHeld(g, s)
    ensures var t := PostProcess(g, env, s, x).st;
            Reported(g, t) == Reported(g, s) + Plain(g, [x]) && NoContainerHeld(g, t)
  {
    hide Route, Deliver, Recover, Conclude, NoContainerHeld;
    var s1 := Deliver(g, env, s, x);
    var v := env.view(s1.world, x);
    DeliverReports(g, env, s, x);
    RecoverReports(g, s1, x, v);
    SameHeld(g, s1, Recover(g, s1, x, v));
    PathGrows(g, env, s, x);
    ConcludeReports(g, env, Recover(g, s1, x, v), x, v);
    RouteReports(g, Conclude(g, env, Recover(g, s1, x, v), x, v), x, v);
    SameHeld(g, Conclude(g, env, Recover(g, s1, x, v), x, v), PostProcess(g, env, s, x).st);
  }

  lemma SameHeld<W>(g: Graph, s: State<W>, t: State<W>)
    requires s.partials == t.partials && NoContainerHeld(g, s)
    ensures NoContainerHeld(g, t)
  {
  }

  lemma {:induction false} PostProcessAllReports<W>(g: Graph, env: Env<W>, s: State<W>, i: nat, end: nat)
    requires WellFormed(g) && i <= end <= |s.path| && Known(g, s.path[..end]) && NoContainerHeld(g, s)
    ensures var r := PostProcessAll(g, env, s, i, end);
            r.Done? ==> Reported(g, r.st) == Reported(g, s) + Plain(g, s.path[i..end]) && NoContainerHeld(g, r.st)
    decreases end - i
  {
    hide PostProcess, NoContainerHeld, Reported, WellFormed, IsContainer;
    if i < end {
      var x := s.path[i];
      assert x in s.path[..end];
      assert s.path[i..end] == [x] + s.path[i + 1..end];
      PlainSplits(g, [x], s.path[i + 1..end]);
      PostProcessReports(g, env, s, x);
      var r := PostProcess(g, env, s, x);
      if r.Done? {
        assert r.st.path[..end] == s.path[..end];
        assert r.st.path[i + 1..end] == r.st.path[..end][i + 1..] == s.path[..end][i + 1..] == s.path[i + 1..end];
        PostProcessAllReports(g, env, r.st, i + 1, end);
      }
    }
  }

  lemma RoundReports<W>(g: Graph, env: Env<W>, s: State<W>, idx: nat, canceled: bool)
    requires WellFormed(g) && idx <= |s.path| && Known(g, s.path) && NoContainerHeld(g, s)
    ensures var r := Round(g, env, s, idx, canceled);
            r.Next? ==> && NoContainerHeld(g, r.st)
                        && Reported(g, r.st) == Reported(g, s) + Plain(g, r.st.path[idx..r.idx])
  {
    hide RunBatch, PostProcessAll, Selected, NamesFillUp, NoContainerHeld;
    if !canceled {
      var s1 := Announce(s, idx);
      AnnouncesNothingFinished(g, s.trace, s.path[idx..]);
      var s2 := RunBatch(g, env, s1, idx);
      BatchReports(g, env, s1, idx);
      SameHeld(g, s, s2);
      var end := |s2.path|;
      assert s2.path[..end] == s2.path;
      PostProcessAllReports(g, env, s2, idx, end);
      var r := PostProcessAll(g, env, s2, idx, end);
      assert r.st.path[..end] == s2.path;
      assert r.st.path[idx..end] == r.st.path[..end][idx..] == s2.path[idx..end];
    }
  }

  lemma BatchReports<W>(g: Graph, env: Env<W>, s: State<W>, idx: nat)
    requires idx <= |s.path| && Known(g, s.path)
    ensures var t := RunBatch(g, env, s, idx); t.trace == s.trace && t.partials == s.partials
  {
  }

  lemma {:induction false} AnnouncesNothingFinished(g: Graph, trace: seq<Event>, ids: seq<Id>)
    ensures FinishedIn(g, trace + Begun(ids)) == FinishedIn(g, trace)
    decreases |ids|
  {
    hide FinishedIn, IsContainer;
    if ids == [] {
      assert trace + Begun(ids) == trace;
    } else {
      Counts(g, trace, NodeStarted(ids[0]));
      AnnouncesNothingFinished(g, trace + [NodeStarted(ids[0])], ids[1..]);
      assert trace + [NodeStarted(ids[0])] + Begun(ids[1..]) == trace + Begun(ids);
    }
  }

  lemma CloseReports<W>(g: Graph, s: State<W>)
    ensures Reported(g, Close(s, |s.path|)) == Reported(g, s) && Close(s, |s.path|).path == s.path
  {
    Counts(g, s.trace, WorkflowFinished);
    assert s.trace + [] == s.trace;
  }

  lemma {:induction false} RunFromReports<W>(g: Graph, env: Env<W>, s: State<W>, idx: nat, budget: nat)
    requires WellFormed(g) && idx <= |s.path| && Known(g, s.path) && NoContainerHeld(g, s)
    ensures var e := RunFrom(g, env, s, idx, budget);
            e.Finished? ==> idx <= |e.st.path| && s.path[..idx] <= e.st.path &&
                            Reported(g, e.st) == Reported(g, s) + Plain(g, e.st.path[idx..])
    decreases budget
  {
    hide Round, NoContainerHeld, NamesFillUp, Reported, Close, Known, WellFormed, IsContainer;
    if idx == |s.path| {
      CloseReports(g, s);
    } else {
      RoundReports(g, env, s, idx, budget == 0);
      var r := Round(g, env, s, idx, budget == 0);
      if r.Next? {
        RunFromReports(g, env, r.st, r.idx, budget - 1);
        var e := RunFrom(g, env, r.st, r.idx, budget - 1);
        if e.Finished? {
          PathsFit(s.path, r.st.path, e.st.path, idx, r.idx);
          PlainSplits(g, r.st.path[idx..r.idx], e.st.path[r.idx..]);
        }
      }
    }
  }

  lemma PathsFit(a: seq<Id>, b: seq<Id>, c: seq<Id>, i: nat, j: nat)
    requires i <= |a| && i <= j <= |b| && a[..i] <= b && b[..j] <= c
    ensures a[..i] <= c && c[i..] == b[i..j] + c[j..]
  {
    assert c[..j] == b[..j];
    assert c[i..j] == c[..j][i..] == b[i..j];
  }

  /** A run that finishes has reported every component it committed exactly as often as it
      committed it, up to those still held back (iteration and loop nodes aside). */
  lemma FinishedRunReportsItsPath<W>(g: Graph, env: Env<W>, path: seq<Id>, w: W, budget: nat)
    requires WellFormed(g) && Known(g, path)
    ensures var e := Run(g, env, path, w, false, budget);
            var from := |RunStart(path)| - 1;
            e.Finished? ==> from <= |e.st.path| &&
                            FinishedIn(g, e.st.trace) + multiset(e.st.partials) == Plain(g, e.st.path[from..])
  {
    hide RunFrom, FinishedIn, Plain, NamesFillUp, WellFormed;
    var s := Opened(env, path, w);
    KnownStart(g, path);
    OpenedReportsNothing(g, env, path, w);
    RunFromReports(g, env, s, |s.path| - 1, budget);
  }

  lemma OpenedReportsNothing<W>(g: Graph, env: Env<W>, path: seq<Id>, w: W)
    ensures Reported(g, Opened(env, path, w)) == multiset{}
  {
    Counts(g, [], WorkflowStarted);
    assert [] + [WorkflowStarted] == [WorkflowStarted];
  }
}
