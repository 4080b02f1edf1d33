// Discarding a branch restores the main flow, and what a replan invalidates (contracts/domain/flow.go).
module FlowLaws {
  import opened Prelude
  import opened Flows

  // ---- branches of branches

  // A flow opened on another, however deep up to so many hops.
  ghost predicate Under(fx: Index, flow: string, top: string, hops: nat)
    requires fx.Sound()
    decreases hops
  {
    flow != "" && flow in fx.byId && (flow == top || (hops > 0 && Under(fx, fx.Get(flow).parent, top, hops - 1)))
  }

  // A flow that a walk up its ancestors meets in time.
  ghost predicate Within(fx: Index, flow: string, top: string)
    requires fx.Sound()
  {
    Under(fx, flow, top, MAX_HOPS - 1)
  }

  // An item of a branch: written on it or on a branch of it, or a flow event about these.
  ghost predicate OnBranch(fx: Index, known: map<string, nat>, top: string, it: Item)
    requires fx.Sound()
  {
    if it.kind == FlowItem then
      it.event.Some? ==> Within(fx, it.event.value.flow, top) || (it.event.value.op == OpenOp && it.event.value.flow in known)
    else Within(fx, it.flow, top)
  }

  lemma {:induction false} DiscardedBelow(fx: Index, flow: string, top: string, hops: nat)
    requires fx.Sound() && top in fx.byId && fx.Get(top).status == FlowDiscarded && Under(fx, flow, top, hops)
    ensures Effective(fx, flow, hops + 1) == FlowDiscarded
    decreases hops
  {
    if flow != top { DiscardedBelow(fx, fx.Get(flow).parent, top, hops - 1); }
  }

  // ---- a longer log

  // The branches of a log stay where they are, with their parent, in every longer one.
  ghost predicate Grown(fx: Index, g: Index)
    requires fx.Sound() && g.Sound()
  {
    |fx.list| <= |g.list| &&
    (forall i: nat :: i < |fx.list| ==> g.list[i].id == fx.list[i].id && g.list[i].parent == fx.list[i].parent) &&
    forall id :: id in fx.byId ==> id in g.byId && g.byId[id] == fx.byId[id]
  }

  lemma ChangedGrows(fx: Index, f: Flow)
    requires fx.Sound() && f.id in fx.byId && f.parent == fx.Get(f.id).parent
    ensures Changed(fx, f).Sound() && Grown(fx, Changed(fx, f))
  {
  }

  lemma OpenedGrows(fx: Index, it: Item, e: FlowEvent)
    requires fx.Sound() && it.kind == FlowItem && it.event == Some(e) && e.op == OpenOp
    ensures Grown(fx, Stepped(fx, it))
  {
  }

  lemma StepGrows(fx: Index, it: Item)
    requires fx.Sound()
    ensures Stepped(fx, it).Sound() && Grown(fx, Stepped(fx, it))
  {
    SteppedIsSound(fx, it);
    if it.kind == FlowItem && it.event.Some? {
      var e := it.event.value;
      if e.op == OpenOp {
        OpenedGrows(fx, it, e);
      } else if IsOpen(fx, e.flow) {
        ChangedGrows(fx, DecidedFlow(fx.Get(e.flow), it, e));
        ChangedGrows(fx, fx.Get(e.flow).(evaluated := true, evaluation := e.comment));
      }
    }
  }

  lemma ReplaySnoc(items: seq<Item>, more: seq<Item>, k: nat)
    requires k < |more|
    ensures Replay(items + more[..k + 1]) == Stepped(Replay(items + more[..k]), more[k])
  {
    var log := items + more[..k + 1];
    assert log[..|log| - 1] == items + more[..k] && log[|log| - 1] == more[k];
  }

  lemma GrownAgain(f: Index, g: Index, h: Index)
    requires f.Sound() && g.Sound() && h.Sound() && Grown(f, g) && Grown(g, h)
    ensures Grown(f, h)
  {
  }

  lemma {:induction false} PrefixGrown(items: seq<Item>, more: seq<Item>, k: nat)
    requires k <= |more|
    ensures Grown(Replay(items), Replay(items + more[..k]))
  {
    if k == 0 {
      assert items + more[..0] == items;
    } else {
      PrefixGrown(items, more, k - 1);
      ReplaySnoc(items, more, k - 1);
      StepGrows(Replay(items + more[..k - 1]), more[k - 1]);
      GrownAgain(Replay(items), Replay(items + more[..k - 1]), Replay(items + more[..k]));
    }
  }

  lemma ReplayGrows(items: seq<Item>, more: seq<Item>)
    ensures Grown(Replay(items), Replay(items + more))
  {
    PrefixGrown(items, more, |more|);
    assert more[..|more|] == more;
  }

  // A branch the log knew before another was opened is not one of its branches.
  lemma {:induction false} KnownIsNotUnder(fx: Index, g: Index, flow: string, top: string, hops: nat)
    requires ParentsFirst(fx) && g.Sound() && Grown(fx, g) && flow in fx.byId && top !in fx.byId
    ensures !Under(g, flow, top, hops)
    decreases hops
  {
    assert ParentFirst(fx, fx.byId[flow]);
    var parent := fx.Get(flow).parent;
    assert g.Get(flow).parent == parent;
    if hops > 0 && parent != "" { KnownIsNotUnder(fx, g, parent, top, hops - 1); }
  }

  // ---- the items of a branch leave the other flows alone

  // A log and what followed on a branch: opened after it, and discarded since.
  ghost predicate Aside(items: seq<Item>, more: seq<Item>, top: string) {
    ParentsFirst(Replay(items)) && top !in Replay(items).byId &&
    top in Replay(items + more).byId && Replay(items + more).Get(top).status == FlowDiscarded &&
    forall j :: 0 <= j < |more| ==> OnBranch(Replay(items + more), Replay(items).byId, top, more[j])
  }

  // What a replay adds to another: branches of a branch, the others as they were.
  ghost predicate Adds(fx: Index, h: Index, g: Index, top: string)
    requires fx.Sound() && h.Sound() && g.Sound()
  {
    fx.list <= h.list && Grown(fx, h) && forall i: nat :: |fx.list| <= i < |h.list| ==> Within(g, h.list[i].id, top)
  }

  lemma NewFlow(fx: Index, h: Index, g: Index, flow: string, top: string)
    requires ParentsFirst(fx) && h.Sound() && g.Sound() && Adds(fx, h, g, top) && Grown(fx, g) && top !in fx.byId
    requires Within(g, flow, top) && flow in h.byId
    ensures h.byId[flow] >= |fx.list|
  {
    if h.byId[flow] < |fx.list| {
      assert fx.list[h.byId[flow]].id == flow;
      KnownIsNotUnder(fx, g, flow, top, MAX_HOPS - 1);
    }
  }

  lemma OpeningAdds(fx: Index, h: Index, g: Index, it: Item, top: string)
    requires fx.Sound() && h.Sound() && g.Sound() && Adds(fx, h, g, top)
    requires it.kind == FlowItem && it.event.Some? && it.event.value.op == OpenOp
    requires Within(g, it.event.value.flow, top) || it.event.value.flow in fx.byId
    ensures Stepped(h, it).Sound() && Adds(fx, Stepped(h, it), g, top)
  {
    StepGrows(h, it);
    GrownAgain(fx, h, Stepped(h, it));
  }

  lemma OtherEventKeepsList(fx: Index, h: Index, it: Item)
    requires fx.Sound() && h.Sound() && fx.list <= h.list
    requires it.kind == FlowItem && it.event.Some? && it.event.value.op != OpenOp
    requires it.event.value.flow in h.byId ==> h.byId[it.event.value.flow] >= |fx.list|
    ensures |Stepped(h, it).list| == |h.list| && fx.list <= Stepped(h, it).list
  {
    var n := Stepped(h, it);
    forall i: nat | i < |fx.list| ensures n.list[i] == fx.list[i] { assert h.list[i] == fx.list[i]; }
  }

  lemma OtherEventAdds(fx: Index, h: Index, g: Index, it: Item, top: string)
    requires fx.Sound() && h.Sound() && g.Sound() && Adds(fx, h, g, top)
    requires it.kind == FlowItem && it.event.Some? && it.event.value.op != OpenOp
    requires it.event.value.flow in h.byId ==> h.byId[it.event.value.flow] >= |fx.list|
    ensures Stepped(h, it).Sound() && Adds(fx, Stepped(h, it), g, top)
  {
    StepGrows(h, it);
    OtherEventKeepsList(fx, h, it);
    AddsAgain(fx, h, Stepped(h, it), g, top);
  }

  // A replay of as many branches under the same ids adds as much.
  lemma AddsAgain(fx: Index, h: Index, n: Index, g: Index, top: string)
    requires fx.Sound() && h.Sound() && n.Sound() && g.Sound() && Adds(fx, h, g, top)
    requires Grown(h, n) && |n.list| == |h.list| && fx.list <= n.list
    ensures Adds(fx, n, g, top)
  {
    GrownAgain(fx, h, n);
  }

  lemma StepAdds(fx: Index, h: Index, g: Index, it: Item, top: string)
    requires ParentsFirst(fx) && h.Sound() && g.Sound() && Adds(fx, h, g, top) && Grown(fx, g) && top !in fx.byId
    requires OnBranch(g, fx.byId, top, it)
    ensures Stepped(h, it).Sound() && Adds(fx, Stepped(h, it), g, top)
  {
    if it.kind == FlowItem && it.event.Some? {
      var e := it.event.value;
      if e.op == OpenOp {
        OpeningAdds(fx, h, g, it, top);
      } else {
        if e.flow in h.byId { NewFlow(fx, h, g, e.flow, top); }
        OtherEventAdds(fx, h, g, it, top);
      }
    }
  }

  lemma BranchAddsOne(items: seq<Item>, more: seq<Item>, k: nat, top: string)
    requires Aside(items, more, top) && k < |more|
    requires Adds(Replay(items), Replay(items + more[..k]), Replay(items + more), top)
    ensures Adds(Replay(items), Replay(items + more[..k + 1]), Replay(items + more), top)
  {
    var fx, h, g := Replay(items), Replay(items + more[..k]), Replay(items + more);
    ReplayGrows(items, more);
    ReplaySnoc(items, more, k);
    assert OnBranch(g, fx.byId, top, more[k]);
    StepAdds(fx, h, g, more[k], top);
  }

  ghost predicate AddsUpTo(items: seq<Item>, more: seq<Item>, k: nat, top: string)
    requires k <= |more|
  {
    Adds(Replay(items), Replay(items + more[..k]), Replay(items + more), top)
  }

  lemma AddsNothing(items: seq<Item>, more: seq<Item>, top: string)
    ensures AddsUpTo(items, more, 0, top)
  {
    assert items + more[..0] == items;
  }

  lemma {:induction false} BranchAdds(items: seq<Item>, more: seq<Item>, k: nat, top: string)
    requires Aside(items, more, top) && k <= |more|
    ensures AddsUpTo(items, more, k, top)
  {
    if k == 0 {
      AddsNothing(items, more, top);
    } else {
      BranchAdds(items, more, k - 1, top);
      BranchAddsOne(items, more, k - 1, top);
    }
  }

  // ---- the statuses of the flows

  lemma {:induction false} KnownEffective(fx: Index, g: Index, flow: string, hops: nat)
    requires ParentsFirst(fx) && g.Sound() && Grown(fx, g) && fx.list <= g.list && (flow == "" || flow in fx.byId)
    ensures Effective(g, flow, hops) == Effective(fx, flow, hops)
    decreases hops
  {
    if flow != "" && hops > 0 {
      assert ParentFirst(fx, fx.byId[flow]);
      assert g.Get(flow) == fx.Get(flow);
      KnownEffective(fx, g, fx.Get(flow).parent, hops - 1);
    }
  }

  lemma AsideGives(items: seq<Item>, more: seq<Item>, top: string)
    requires Aside(items, more, top)
    ensures Adds(Replay(items), Replay(items + more), Replay(items + more), top)
  {
    BranchAdds(items, more, |more|, top);
    assert more[..|more|] == more;
  }

  // Every flow has the status it had before the branch was opened; the branch and its own are discarded.
  lemma FlowsAsBefore(items: seq<Item>, more: seq<Item>, top: string, flow: string)
    requires Aside(items, more, top)
    ensures Status(Replay(items + more), flow) == Status(Replay(items), flow)
    ensures Within(Replay(items + more), flow, top) ==> Status(Replay(items), flow) == FlowDiscarded
  {
    var fx, g := Replay(items), Replay(items + more);
    AsideGives(items, more, top);
    if flow == "" || flow in fx.byId {
      KnownEffective(fx, g, flow, MAX_HOPS);
      if flow != "" { KnownIsNotUnder(fx, g, flow, top, MAX_HOPS - 1); }
    } else if flow in g.byId {
      assert g.list[g.byId[flow]].id == flow;
      assert Within(g, flow, top);
      DiscardedBelow(g, flow, top, MAX_HOPS - 1);
    }
  }

  // ---- the view of the main flow

  function Plain(items: seq<Item>): seq<Item> { Inherited(items, []) }

  lemma {:induction false} SameStatusesSameView(items: seq<Item>, fx: Index, g: Index)
    requires fx.Sound() && g.Sound()
    requires forall i :: 0 <= i < |items| ==> OnMain(fx, items[i]) == OnMain(g, items[i])
    ensures MainView(items, fx) == MainView(items, g)
  {
    if items != [] {
      SameStatusesSameView(items[..|items| - 1], fx, g);
      assert OnMain(fx, items[|items| - 1]) == OnMain(g, items[|items| - 1]);
    }
  }

  lemma PlainSnoc(items: seq<Item>, it: Item)
    ensures Plain(items + [it]) == if it.kind == FlowItem then Plain(items) else Plain(items) + [it]
  {
    assert (items + [it])[..|items|] == items;
  }

  // ---- the status of the items

  // Nothing that follows is the item, replaces it or decides on it.
  predicate Untouched(more: seq<Item>, id: string) {
    forall j :: 0 <= j < |more| ==> more[j].id != id && id !in more[j].supersedes && !Judges(more[j], id)
  }

  ghost predicate Unwritten(more: seq<Item>, id: string) { forall j :: 0 <= j < |more| ==> more[j].id != id }

  lemma {:induction false} WrittenBefore(items: seq<Item>, more: seq<Item>, id: string)
    requires Unwritten(more, id)
    ensures Written(items + more, id) == Written(items, id)
  {
    if more == [] {
      assert items + more == items;
    } else {
      var n := |more| - 1;
      WrittenBefore(items, more[..n], id);
      assert (items + more)[..|items| + n] == items + more[..n];
      assert (items + more)[|items| + n] == more[n];
    }
  }

  lemma {:induction false} JudgedAgain(items: seq<Item>, more: seq<Item>, id: string, st: ItemStatus)
    ensures Judged(items + more, id, st) == Judged(more, id, Judged(items, id, st))
  {
    if more == [] {
      assert items + more == items;
    } else {
      var n := |more| - 1;
      JudgedAgain(items, more[..n], id, st);
      assert (items + more)[..|items| + n] == items + more[..n];
      assert (items + more)[|items| + n] == more[n];
    }
  }

  lemma {:induction false} NotJudged(more: seq<Item>, id: string, st: ItemStatus)
    requires forall j :: 0 <= j < |more| ==> !Judges(more[j], id)
    ensures Judged(more, id, st) == st
  {
    if more != [] { NotJudged(more[..|more| - 1], id, st); }
  }

  lemma SupersededEither(items: seq<Item>, more: seq<Item>, id: string)
    ensures IsSuperseded(items + more, id) <==> IsSuperseded(items, id) || IsSuperseded(more, id)
  {
    if IsSuperseded(items, id) {
      var i :| 0 <= i < |items| && id in items[i].supersedes;
      assert id in (items + more)[i].supersedes;
    }
    if IsSuperseded(more, id) {
      var i :| 0 <= i < |more| && id in more[i].supersedes;
      assert id in (items + more)[|items| + i].supersedes;
    }
  }

  // An index and a longer one that says no more of any flow: the new ones are discarded.
  ghost predicate SaysNoMore(fx: Index, g: Index) {
    fx.Sound() && g.Sound() && fx.list <= g.list &&
    (forall flow :: Status(g, flow) == Status(fx, flow)) &&
    forall i: nat :: |fx.list| <= i < |g.list| ==> Status(fx, g.list[i].id) == FlowDiscarded
  }

  lemma AsideSaysNoMore(items: seq<Item>, more: seq<Item>, top: string)
    requires Aside(items, more, top)
    ensures SaysNoMore(Replay(items), Replay(items + more))
  {
    var fx, g := Replay(items), Replay(items + more);
    AsideGives(items, more, top);
    forall flow ensures Status(g, flow) == Status(fx, flow) { FlowsAsBefore(items, more, top, flow); }
    forall i: nat | |fx.list| <= i < |g.list| ensures Status(fx, g.list[i].id) == FlowDiscarded {
      FlowsAsBefore(items, more, top, g.list[i].id);
    }
  }

  // A status while an open branch invalidates the item.
  function Aged(st: ItemStatus): ItemStatus { if st == Proposed || st == Accepted then Stale else st }

  lemma WeighedStep(fx: Index, i: nat, id: string, st: ItemStatus)
    requires fx.Sound() && i < |fx.list|
    ensures Weighed(fx, i, id, st) ==
            if id !in fx.list[i].stale || Status(fx, fx.list[i].id) == FlowDiscarded then Weighed(fx, i + 1, id, st)
            else if Status(fx, fx.list[i].id) == FlowAdopted then Superseded
            else Weighed(fx, i + 1, id, Aged(st))
  {
  }

  // From a branch on, an item weighs alike when it does from the next one on.
  lemma WeighedStepAlike(fx: Index, g: Index, i: nat, n: nat, id: string, st: ItemStatus, aged: ItemStatus)
    requires SaysNoMore(fx, g) && i < |g.list| && n == i + 1 && aged == Aged(st)
    requires Weighed(g, n, id, st) == Weighed(fx, n, id, st) && Weighed(g, n, id, aged) == Weighed(fx, n, id, aged)
    ensures Weighed(g, i, id, st) == Weighed(fx, i, id, st)
  {
    WeighedStep(g, i, id, st);
    if i < |fx.list| {
      assert g.list[i] == fx.list[i];
      WeighedStep(fx, i, id, st);
    } else {
      WeighedEnd(fx, i, id, st);
      WeighedEnd(fx, i + 1, id, st);
    }
  }

  lemma {:induction false} WeighedAlike(fx: Index, g: Index, i: nat, id: string, st: ItemStatus)
    requires SaysNoMore(fx, g)
    ensures Weighed(g, i, id, st) == Weighed(fx, i, id, st)
    decreases |g.list| - i
  {
    if i < |g.list| {
      var n, aged := i + 1, Aged(st);
      WeighedAlike(fx, g, n, id, st);
      WeighedAlike(fx, g, n, id, aged);
      WeighedStepAlike(fx, g, i, n, id, st, aged);
    }
  }

  lemma WeighedEnd(fx: Index, i: nat, id: string, st: ItemStatus)
    requires fx.Sound() && i >= |fx.list|
    ensures Weighed(fx, i, id, st) == st
  {
  }

  // The status of an item from what its log says of it.
  ghost function StatusFrom(fx: Index, id: string, superseded: bool, own: string, judged: ItemStatus): ItemStatus
    requires fx.Sound()
  {
    if superseded then Superseded
    else if own != "" && Status(fx, own) == FlowOpen then Candidate
    else if own != "" && Status(fx, own) == FlowDiscarded then Rejected
    else Weighed(fx, 0, id, judged)
  }

  lemma StatusAfter(log: seq<Item>, rest: seq<Item>, fx: Index, g: Index, id: string)
    requires SaysNoMore(fx, g) && Unwritten(rest, id)
    ensures var (st, own) := Written(log, id);
            StatusOf(log + rest, g, id) ==
            StatusFrom(fx, id, IsSuperseded(log, id) || IsSuperseded(rest, id), own, Judged(rest, id, Judged(log, id, st)))
  {
    var (st, own) := Written(log, id);
    WrittenBefore(log, rest, id);
    SupersededEither(log, rest, id);
    JudgedAgain(log, rest, id, st);
    WeighedAlike(fx, g, 0, id, Judged(rest, id, Judged(log, id, st)));
  }

  lemma StatusUntouched(log: seq<Item>, rest: seq<Item>, fx: Index, g: Index, id: string)
    requires SaysNoMore(fx, g) && Untouched(rest, id)
    ensures StatusOf(log + rest, g, id) == StatusOf(log, fx, id)
  {
    StatusAfter(log, rest, fx, g, id);
    NotJudged(rest, id, Judged(log, id, Written(log, id).0));
  }

  // ---- the board of the main flow

  // Flow events are written on the main flow and replace nothing.
  predicate EventsOnMain(items: seq<Item>) {
    forall i :: 0 <= i < |items| && items[i].kind == FlowItem ==> items[i].flow == "" && items[i].supersedes == []
  }

  // The id of a flow event.
  predicate NamesEvent(items: seq<Item>, id: string) {
    exists i :: 0 <= i < |items| && items[i].kind == FlowItem && items[i].id == id
  }

  lemma ReplayOne(items: seq<Item>, it: Item)
    ensures Replay(items + [it]) == Stepped(Replay(items), it)
  {
    assert (items + [it])[..|items|] == items;
  }

  // The view of the main flow holds every flow event: its branches are those of the log.
  lemma {:induction false} ViewReplays(items: seq<Item>, g: Index)
    requires g.Sound() && EventsOnMain(items)
    ensures Replay(MainView(items, g)) == Replay(items)
  {
    if items != [] {
      var n := |items| - 1;
      ViewReplays(items[..n], g);
      LastSplits(items);
      ReplayOne(items[..n], items[n]);
      if OnMain(g, items[n]) { ReplayOne(MainView(items[..n], g), items[n]); }
    }
  }

  lemma {:induction false} ViewSplits(items: seq<Item>, more: seq<Item>, g: Index)
    requires g.Sound()
    ensures MainView(items + more, g) == MainView(items, g) + MainView(more, g)
  {
    if more == [] {
      assert items + more == items;
    } else {
      var n := |more| - 1;
      ViewSplits(items, more[..n], g);
      assert (items + more)[..|items| + n] == items + more[..n];
      assert (items + more)[|items| + n] == more[n];
    }
  }

  lemma {:induction false} ViewHolds(items: seq<Item>, g: Index, it: Item)
    requires g.Sound()
    ensures it in MainView(items, g) <==> it in items && OnMain(g, it)
  {
    if items != [] {
      ViewHolds(items[..|items| - 1], g, it);
      LastSplits(items);
    }
  }

  lemma SameView(items: seq<Item>, more: seq<Item>, top: string)
    requires Aside(items, more, top)
    ensures MainView(items, Replay(items + more)) == MainView(items, Replay(items))
  {
    var fx, g := Replay(items), Replay(items + more);
    forall i | 0 <= i < |items| ensures OnMain(fx, items[i]) == OnMain(g, items[i]) {
      FlowsAsBefore(items, more, top, items[i].flow);
    }
    SameStatusesSameView(items, fx, g);
  }

  // What the main flow sees of a discarded branch: its flow events.
  lemma OnlyEventsShow(items: seq<Item>, more: seq<Item>, top: string, it: Item)
    requires Aside(items, more, top) && it in MainView(more, Replay(items + more))
    ensures it in more && it.kind == FlowItem
  {
    var fx, g := Replay(items), Replay(items + more);
    ViewHolds(more, g, it);
    var j :| 0 <= j < |more| && more[j] == it;
    assert OnBranch(g, fx.byId, top, more[j]);
    FlowsAsBefore(items, more, top, it.flow);
  }

  lemma ViewIsUntouched(items: seq<Item>, more: seq<Item>, top: string, id: string)
    requires Aside(items, more, top) && EventsOnMain(more) && !NamesEvent(more, id)
    ensures Untouched(MainView(more, Replay(items + more)), id)
  {
    var shown := MainView(more, Replay(items + more));
    forall j | 0 <= j < |shown| ensures shown[j].id != id && id !in shown[j].supersedes && !Judges(shown[j], id) {
      OnlyEventsShow(items, more, top, shown[j]);
      var k :| 0 <= k < |more| && more[k] == shown[j];
    }
  }

  /** On the board of the main flow, every item has the status it had before the branch was opened. */
  lemma DiscardRestoresTheStatuses(items: seq<Item>, more: seq<Item>, top: string, id: string)
    requires Aside(items, more, top) && EventsOnMain(items) && EventsOnMain(more) && !NamesEvent(more, id)
    ensures var board, was := MainView(items + more, Replay(items + more)), MainView(items, Replay(items));
            StatusOf(board, Replay(board), id) == StatusOf(was, Replay(was), id)
  {
    var fx, g := Replay(items), Replay(items + more);
    ViewReplays(items + more, g);
    ViewReplays(items, fx);
    SameView(items, more, top);
    ViewSplits(items, more, g);
    ViewIsUntouched(items, more, top, id);
    AsideSaysNoMore(items, more, top);
    StatusUntouched(MainView(items, fx), MainView(more, g), fx, g, id);
  }

  // ---- the statuses of the whole log

  /**
   * The status read off the whole log, not off a view of it, counts what the discarded branch replaced and decided: it is
   * the one of before under these.
   */
  lemma DiscardLeavesVerdicts(items: seq<Item>, more: seq<Item>, top: string, id: string)
    requires Aside(items, more, top) && Unwritten(more, id)
    ensures var (st, own) := Written(items, id);
            StatusOf(items + more, Replay(items + more), id) ==
            StatusFrom(Replay(items), id, IsSuperseded(items, id) || IsSuperseded(more, id), own,
                       Judged(more, id, Judged(items, id, st)))
  {
    AsideSaysNoMore(items, more, top);
    StatusAfter(items, more, Replay(items), Replay(items + more), id);
  }

  // An item of the main flow that nothing replaced or invalidated.
  ghost predicate Standing(items: seq<Item>, id: string) {
    Written(items, id).1 == "" && !IsSuperseded(items, id) &&
    forall i: nat :: i < |Replay(items).list| ==> id !in Replay(items).list[i].stale
  }

  lemma {:induction false} NothingWeighs(fx: Index, i: nat, id: string, st: ItemStatus)
    requires fx.Sound() && forall k: nat :: k < |fx.list| ==> id !in fx.list[k].stale
    ensures Weighed(fx, i, id, st) == st
    decreases |fx.list| - i
  {
    if i < |fx.list| { NothingWeighs(fx, i + 1, id, st); }
  }

  /** For a standing item, the whole log gives its status back exactly when the branch neither replaced it nor judged it otherwise. */
  lemma DiscardRestoresExactly(items: seq<Item>, more: seq<Item>, top: string, id: string)
    requires Aside(items, more, top) && Unwritten(more, id) && Standing(items, id)
    requires Written(items, id).0 != Superseded
    ensures var before := StatusOf(items, Replay(items), id);
            (StatusOf(items + more, Replay(items + more), id) == before
             <==> !IsSuperseded(more, id) && Judged(more, id, before) == before)
  {
    DiscardLeavesVerdicts(items, more, top, id);
    var st := Judged(items, id, Written(items, id).0);
    NothingWeighs(Replay(items), 0, id, st);
    NothingWeighs(Replay(items), 0, id, Judged(more, id, st));
    JudgedIsNotSuperseded(items, id, Written(items, id).0);
  }

  lemma {:induction false} JudgedIsNotSuperseded(items: seq<Item>, id: string, st: ItemStatus)
    requires st != Superseded
    ensures Judged(items, id, st) != Superseded
  {
    if items != [] { JudgedIsNotSuperseded(items[..|items| - 1], id, st); }
  }

  // ---- opening, working on, and discarding a branch

  predicate Opens(it: Item, top: string) {
    it.kind == FlowItem && it.event.Some? && it.event.value.op == OpenOp && it.event.value.flow == top
  }

  predicate Decides(it: Item, op: FlowOp, top: string) {
    it.kind == FlowItem && it.event.Some? && it.event.value.op == op && it.event.value.flow == top
  }

  // A branch that was opened, whatever its state, and was not adopted.
  ghost predicate NotAdopted(fx: Index, top: string) { fx.Sound() && top in fx.byId && fx.Get(top).status != FlowAdopted }

  lemma StepNotAdopted(fx: Index, it: Item, top: string)
    requires NotAdopted(fx, top) && !Decides(it, AdoptOp, top)
    ensures NotAdopted(Stepped(fx, it), top)
    ensures Decides(it, DiscardOp, top) ==> Stepped(fx, it).Get(top).status == FlowDiscarded
  {
    StepGrows(fx, it);
  }

  lemma OpeningNotAdopted(fx: Index, it: Item, top: string)
    requires fx.Sound() && top !in fx.byId && Opens(it, top)
    ensures NotAdopted(Stepped(fx, it), top)
  {
    StepGrows(fx, it);
  }

  lemma {:induction false} WorkNotAdopted(items: seq<Item>, more: seq<Item>, k: nat, top: string)
    requires top !in Replay(items).byId && 0 < k <= |more| && Opens(more[0], top)
    requires forall j :: 0 <= j < |more| ==> !Decides(more[j], AdoptOp, top)
    ensures NotAdopted(Replay(items + more[..k]), top)
  {
    ReplaySnoc(items, more, k - 1);
    if k == 1 {
      assert items + more[..0] == items;
      OpeningNotAdopted(Replay(items), more[0], top);
    } else {
      WorkNotAdopted(items, more, k - 1, top);
      StepNotAdopted(Replay(items + more[..k - 1]), more[k - 1], top);
    }
  }

  /** A branch that is opened, worked on and discarded, and not adopted meanwhile, is a branch aside. */
  lemma OpenedThenDiscarded(items: seq<Item>, more: seq<Item>, top: string)
    requires ParentsFirst(Replay(items)) && top !in Replay(items).byId
    requires |more| >= 2 && Opens(more[0], top) && Decides(more[|more| - 1], DiscardOp, top)
    requires forall j :: 0 <= j < |more| ==> !Decides(more[j], AdoptOp, top)
    requires forall j :: 0 <= j < |more| ==> OnBranch(Replay(items + more), Replay(items).byId, top, more[j])
    ensures Aside(items, more, top)
  {
    var n := |more| - 1;
    WorkNotAdopted(items, more, n, top);
    ReplaySnoc(items, more, n);
    StepNotAdopted(Replay(items + more[..n]), more[n], top);
    assert more[..|more|] == more;
  }

  lemma {:induction false} PlainOfEvents(items: seq<Item>, events: seq<Item>)
    requires forall j :: 0 <= j < |events| ==> events[j].kind == FlowItem
    ensures Plain(items + events) == Plain(items)
  {
    if events == [] {
      assert items + events == items;
    } else {
      var n := |events| - 1;
      PlainOfEvents(items, events[..n]);
      PlainSnoc(items + events[..n], events[n]);
      assert items + events == items + events[..n] + [events[n]];
    }
  }

  /** Once a branch is discarded, the main flow sees the items it saw before the branch was opened, in the same order. */
  lemma DiscardRestoresTheView(items: seq<Item>, more: seq<Item>, top: string)
    requires Aside(items, more, top)
    ensures Plain(MainView(items + more, Replay(items + more))) == Plain(MainView(items, Replay(items)))
  {
    var g := Replay(items + more);
    SameView(items, more, top);
    ViewSplits(items, more, g);
    var shown := MainView(more, g);
    forall j | 0 <= j < |shown| ensures shown[j].kind == FlowItem { OnlyEventsShow(items, more, top, shown[j]); }
    PlainOfEvents(MainView(items, g), shown);
  }

  /**
   * Discarding a branch restores the board: after it is opened, worked on, on it or on branches of it, and discarded, the
   * view of the main flow holds the items it held before, in the same order, each with the status it had on it.
   */
  lemma DiscardRestoresTheBoard(items: seq<Item>, more: seq<Item>, top: string)
    requires ParentsFirst(Replay(items)) && top !in Replay(items).byId && EventsOnMain(items) && EventsOnMain(more)
    requires |more| >= 2 && Opens(more[0], top) && Decides(more[|more| - 1], DiscardOp, top)
    requires forall j :: 0 <= j < |more| ==> !Decides(more[j], AdoptOp, top)
    requires forall j :: 0 <= j < |more| ==> OnBranch(Replay(items + more), Replay(items).byId, top, more[j])
    ensures var board, was := MainView(items + more, Replay(items + more)), MainView(items, Replay(items));
            Plain(board) == Plain(was) &&
            forall id :: !NamesEvent(more, id) ==> StatusOf(board, Replay(board), id) == StatusOf(was, Replay(was), id)
  {
    OpenedThenDiscarded(items, more, top);
    DiscardRestoresTheView(items, more, top);
    var board, was := MainView(items + more, Replay(items + more)), MainView(items, Replay(items));
    forall id | !NamesEvent(more, id) ensures StatusOf(board, Replay(board), id) == StatusOf(was, Replay(was), id) {
      DiscardRestoresTheStatuses(items, more, top, id);
    }
  }

  // ---- which items count

  predicate Out(st: ItemStatus) { st == Rejected || st == Superseded || st == Candidate }

  // An adopted branch, from the i-th on, invalidated the item.
  ghost predicate Replaced(fx: Index, i: nat, id: string)
    requires fx.Sound()
  {
    exists k: nat :: i <= k < |fx.list| && id in fx.list[k].stale && Status(fx, fx.list[k].id) == FlowAdopted
  }

  lemma WeighedOutStep(fx: Index, i: nat, n: nat, id: string, st: ItemStatus, aged: ItemStatus)
    requires fx.Sound() && i < |fx.list| && n == i + 1 && aged == Aged(st)
    requires Out(Weighed(fx, n, id, st)) <==> Out(st) || Replaced(fx, n, id)
    requires Out(Weighed(fx, n, id, aged)) <==> Out(aged) || Replaced(fx, n, id)
    ensures Out(Weighed(fx, i, id, st)) <==> Out(st) || Replaced(fx, i, id)
  {
    WeighedStep(fx, i, id, st);
    ReplacedStep(fx, i, id);
  }

  lemma {:induction false} WeighedOut(fx: Index, i: nat, id: string, st: ItemStatus)
    requires fx.Sound()
    ensures Out(Weighed(fx, i, id, st)) <==> Out(st) || Replaced(fx, i, id)
    decreases |fx.list| - i
  {
    if i < |fx.list| {
      var n, aged := i + 1, Aged(st);
      WeighedOut(fx, n, id, st);
      WeighedOut(fx, n, id, aged);
      WeighedOutStep(fx, i, n, id, st, aged);
    }
  }

  lemma ReplacedStep(fx: Index, i: nat, id: string)
    requires fx.Sound() && i < |fx.list|
    ensures Replaced(fx, i, id) <==>
            Replaced(fx, i + 1, id) || (id in fx.list[i].stale && Status(fx, fx.list[i].id) == FlowAdopted)
  {
  }

  /**
   * An item counts if and only if nothing replaced it, its flow is adopted with all its ancestors, the last decision on it
   * does not reject it, and no adopted branch invalidated it. A stale item counts until then.
   */
  lemma CountsExactly(items: seq<Item>, fx: Index, id: string)
    requires fx.Sound()
    ensures Counts(items, fx, id) <==>
            !IsSuperseded(items, id) &&
            (Written(items, id).1 == "" || Status(fx, Written(items, id).1) == FlowAdopted) &&
            !Out(Judged(items, id, Written(items, id).0)) && !Replaced(fx, 0, id)
  {
    WeighedOut(fx, 0, id, Judged(items, id, Written(items, id).0));
  }

  // ---- a decision made on a discarded branch

  function PlainItem(id: string, flow: string): Item { Item(id, OtherItem, Proposed, flow, [], [], None, None, 0) }

  function EventItem(id: string, op: FlowOp, flow: string): Item {
    Item(id, FlowItem, Proposed, "", [], [], None, Some(FlowEvent(op, flow, "", "", [], [], map[], "", None, "")), 0)
  }

  function DecidingItem(id: string, flow: string, about: string, accept: bool): Item {
    Item(id, DecisionItem, Proposed, flow, [], [], Some(Verdict(about, accept)), None, 0)
  }

  const Before := [PlainItem("r", "")]

  const Branch := [EventItem("o", OpenOp, "f"), DecidingItem("d", "f", "r", false), EventItem("x", DiscardOp, "f")]

  lemma ExampleBefore()
    ensures Replay(Before) == Index([], map[], "") && StatusOf(Before, Replay(Before), "r") == Proposed
  {
    assert Before[..0] == [] && Replay([]) == Index([], map[], "");
    NothingWeighs(Replay(Before), 0, "r", Proposed);
  }

  // One flow, "f", in a state.
  predicate OnlyF(fx: Index, status: FlowStatus) {
    fx.byId == map["f" := 0] && |fx.list| == 1 && fx.list[0].id == "f" && fx.list[0].status == status
  }

  lemma ExampleOpened()
    ensures OnlyF(Replay(Before + Branch[..1]), FlowOpen)
  {
    ExampleBefore();
    assert Before + Branch[..0] == Before;
    ReplaySnoc(Before, Branch, 0);
  }

  lemma ExampleDecided()
    ensures OnlyF(Replay(Before + Branch[..2]), FlowOpen)
  {
    ExampleOpened();
    ReplaySnoc(Before, Branch, 1);
  }

  lemma ExampleAfter()
    ensures OnlyF(Replay(Before + Branch), FlowDiscarded)
  {
    ExampleDecided();
    ReplaySnoc(Before, Branch, 2);
    ExampleDiscards(Replay(Before + Branch[..2]));
    WholePrefix(Branch);
  }

  lemma ExampleDiscards(fx: Index)
    requires OnlyF(fx, FlowOpen)
    ensures fx.Sound() && OnlyF(Stepped(fx, Branch[2]), FlowDiscarded)
  {
  }

  lemma ExampleAside()
    ensures Aside(Before, Branch, "f")
  {
    ExampleBefore();
    ExampleAfter();
    assert Within(Replay(Before + Branch), "f", "f");
  }

  lemma ExampleVerdict()
    ensures Judged(Branch, "r", Judged(Before, "r", Proposed)) == Rejected
  {
    assert Before[..0] == [];
    assert Branch[..2][..1] == Branch[..1];
    assert Judges(Branch[1], "r") && Branch[..2][1] == Branch[1];
  }

  lemma ExampleBoard()
    ensures var board := MainView(Before + Branch, Replay(Before + Branch)); StatusOf(board, Replay(board), "r") == Proposed
  {
    ExampleBefore();
    ExampleAside();
    assert !NamesEvent(Branch, "r") && EventsOnMain(Before) && EventsOnMain(Branch);
    DiscardRestoresTheStatuses(Before, Branch, "f", "r");
    var fx := Replay(Before);
    assert Before[..0] == [] && MainView(Before[..0], fx) == [];
    assert MainView(Before, fx) == Before;
  }

  lemma ExampleWritten()
    ensures Written(Before, "r") == (Proposed, "") && !IsSuperseded(Before, "r") && !IsSuperseded(Branch, "r") && Unwritten(Branch, "r")
  {
  }

  lemma ExampleLog()
    ensures StatusOf(Before + Branch, Replay(Before + Branch), "r") == Rejected
  {
    ExampleAside();
    ExampleBefore();
    ExampleWritten();
    DiscardLeavesVerdicts(Before, Branch, "f", "r");
    ExampleVerdict();
    NothingWeighs(Index([], map[], ""), 0, "r", Rejected);
  }

  /**
   * A requirement rejected by a decision of a branch that was discarded since: the whole log still has it rejected, the
   * board of the main flow, which drops the decision with the branch, has it proposed as before.
   */
  lemma BranchDecisionLeavesTheBoard()
    ensures Aside(Before, Branch, "f")
    ensures StatusOf(Before, Replay(Before), "r") == Proposed
    ensures StatusOf(Before + Branch, Replay(Before + Branch), "r") == Rejected
    ensures var board := MainView(Before + Branch, Replay(Before + Branch)); StatusOf(board, Replay(board), "r") == Proposed
  {
    ExampleBefore();
    ExampleAside();
    ExampleLog();
    ExampleBoard();
  }
}
