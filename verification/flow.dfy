// Flow branches (contracts/domain/flow.go) and the status of an item (contracts/domain/change.go): the log of a change
// replayed into its branches, and what each flow sees of it.
module Flows {
  import opened Prelude

  datatype FlowOp = OpenOp | AdoptOp | DiscardOp | ActivateOp | DeactivateOp | EvaluateOp

  datatype OptionSpec = OptionSpec(name: string, hypothesis: string, intent: string)

  /** An opening says where the branch starts, what it invalidates (items, and runs by their id) and why. */
  datatype FlowEvent = FlowEvent(op: FlowOp, flow: string, parent: string, forkAfter: string, stale: seq<string>,
                                 staleRuns: seq<string>, origin: map<string, Json>, writer: string,
                                 option: Option<OptionSpec>, comment: string)

  datatype FlowStatus = FlowOpen | FlowAdopted | FlowDiscarded

  datatype Flow = Flow(id: string, parent: string, forkAfter: string, status: FlowStatus, stale: seq<string>,
                       staleRuns: seq<string>, origin: map<string, Json>, openedAt: int, decidedAt: int, decidedBy: string,
                       option: Option<OptionSpec>, evaluated: bool, evaluation: string)

  /** A flow as it is listed: the adopted ones it competes with, and whether the change works on it. */
  datatype Branch = Branch(flow: Flow, competesWith: seq<string>, active: bool)

  datatype Kind = FlowItem | DecisionItem | OtherItem

  datatype ItemStatus = Proposed | Accepted | Rejected | Candidate | Stale | Superseded

  datatype Verdict = Verdict(item: string, accept: bool)

  datatype Item = Item(id: string, kind: Kind, status: ItemStatus, flow: string, supersedes: seq<string>,
                       derivedFrom: seq<string>, decision: Option<Verdict>, event: Option<FlowEvent>, at: int)

  /** The branches of a change, oldest first, where each is in the list, and the option the change works on. */
  datatype Index = Index(list: seq<Flow>, byId: map<string, nat>, active: string)
  {
    ghost predicate Sound() {
      (forall id :: id in byId ==> byId[id] < |list| && list[byId[id]].id == id) &&
      forall i: nat :: i < |list| ==> list[i].id in byId && byId[list[i].id] == i
    }

    function Get(id: string): Flow
      requires id in byId && byId[id] < |list|
    {
      list[byId[id]]
    }
  }

  const MAX_HOPS: nat := 64

  // ---- the replay

  predicate IsOpen(fx: Index, id: string) { id in fx.byId && fx.byId[id] < |fx.list| && fx.Get(id).status == FlowOpen }

  function Opened(it: Item, e: FlowEvent): Flow {
    Flow(e.flow, e.parent, e.forkAfter, FlowOpen, e.stale, e.staleRuns, e.origin, it.at, 0, "", e.option, false, "")
  }

  function Changed(fx: Index, f: Flow): Index
    requires f.id in fx.byId && fx.byId[f.id] < |fx.list|
  {
    fx.(list := fx.list[fx.byId[f.id] := f])
  }

  function DecidedFlow(f: Flow, it: Item, e: FlowEvent): Flow {
    f.(status := if e.op == DiscardOp then FlowDiscarded else FlowAdopted, decidedAt := it.at, decidedBy := e.writer)
  }

  function Stepped(fx: Index, it: Item): Index
    requires fx.Sound()
  {
    if it.kind != FlowItem || it.event.None? then fx
    else
      var e := it.event.value;
      match e.op
      case OpenOp =>
        if e.flow in fx.byId then fx
        else Index(fx.list + [Opened(it, e)], fx.byId[e.flow := |fx.list|], fx.active)
      case ActivateOp => if IsOpen(fx, e.flow) && fx.Get(e.flow).option.Some? then fx.(active := e.flow) else fx
      case DeactivateOp => if fx.active == e.flow then fx.(active := "") else fx
      case EvaluateOp =>
        if IsOpen(fx, e.flow) then Changed(fx, fx.Get(e.flow).(evaluated := true, evaluation := e.comment)) else fx
      case _ =>
        if !IsOpen(fx, e.flow) then fx
        else
          var g := Changed(fx, DecidedFlow(fx.Get(e.flow), it, e));
          if g.active == e.flow then g.(active := "") else g
  }

  lemma OpeningIsSound(fx: Index, f: Flow)
    requires fx.Sound() && f.id !in fx.byId
    ensures Index(fx.list + [f], fx.byId[f.id := |fx.list|], fx.active).Sound()
  {
  }

  lemma ChangedIsSound(fx: Index, f: Flow)
    requires fx.Sound() && f.id in fx.byId
    ensures Changed(fx, f).Sound()
  {
  }

  lemma SteppedIsSound(fx: Index, it: Item)
    requires fx.Sound()
    ensures Stepped(fx, it).Sound()
  {
    if it.kind == FlowItem && it.event.Some? {
      var e := it.event.value;
      if e.op == OpenOp {
        if e.flow !in fx.byId { OpeningIsSound(fx, Opened(it, e)); }
      } else if IsOpen(fx, e.flow) {
        ChangedIsSound(fx, DecidedFlow(fx.Get(e.flow), it, e));
        ChangedIsSound(fx, fx.Get(e.flow).(evaluated := true, evaluation := e.comment));
      }
    }
  }

  ghost function Replay(items: seq<Item>): (fx: Index)
    ensures fx.Sound()
  {
    if items == [] then Index([], map[], "")
    else
      var fx := Replay(items[..|items| - 1]);
      SteppedIsSound(fx, items[|items| - 1]);
      Stepped(fx, items[|items| - 1])
  }

  // ---- competition

  predicate IsOpening(fx: Index, it: Item) {
    it.kind == FlowItem && it.event.Some? && it.event.value.op == OpenOp && it.event.value.flow !in fx.byId
  }

  predicate IsDecision(fx: Index, it: Item) {
    it.kind == FlowItem && it.event.Some? && it.event.value.op in {AdoptOp, DiscardOp} && IsOpen(fx, it.event.value.flow)
  }

  // Where in the log each branch was opened, and where it was decided.
  ghost function Openings(items: seq<Item>): map<string, nat> {
    if items == [] then map[]
    else
      var n := |items| - 1;
      if IsOpening(Replay(items[..n]), items[n]) then Openings(items[..n])[items[n].event.value.flow := n] else Openings(items[..n])
  }

  ghost function Decisions(items: seq<Item>): map<string, nat> {
    if items == [] then map[]
    else
      var n := |items| - 1;
      if IsDecision(Replay(items[..n]), items[n]) then Decisions(items[..n])[items[n].event.value.flow := n] else Decisions(items[..n])
  }

  function PositionIn(at: map<string, nat>, id: string): nat { if id in at then at[id] else 0 }

  predicate Shares(a: seq<string>, b: seq<string>) { exists i :: 0 <= i < |a| && a[i] in b }

  // An item of a branch derives from what another invalidated.
  predicate BuildsOn(items: seq<Item>, flow: string, stale: seq<string>) {
    exists i :: 0 <= i < |items| && items[i].flow == flow && Shares(items[i].derivedFrom, stale)
  }

  predicate Competes(items: seq<Item>, f: Flow, a: Flow) {
    Shares(f.stale, a.stale) || Shares(f.staleRuns, a.staleRuns) || BuildsOn(items, f.id, a.stale)
  }

  // A flow adopted after another was opened, that competes with it.
  predicate IsRival(items: seq<Item>, openAt: map<string, nat>, decidedAt: map<string, nat>, f: Flow, a: Flow) {
    a.status == FlowAdopted && a.id != f.id && PositionIn(decidedAt, a.id) >= PositionIn(openAt, f.id) && Competes(items, f, a)
  }

  function Rivals(items: seq<Item>, openAt: map<string, nat>, decidedAt: map<string, nat>, list: seq<Flow>, f: Flow): seq<string> {
    if list == [] then []
    else
      var a := list[|list| - 1];
      Rivals(items, openAt, decidedAt, list[..|list| - 1], f) + if IsRival(items, openAt, decidedAt, f, a) then [a.id] else []
  }

  function BranchOf(items: seq<Item>, openAt: map<string, nat>, decidedAt: map<string, nat>, fx: Index, i: nat): Branch
    requires i < |fx.list|
  {
    var f := fx.list[i];
    Branch(f, if f.status == FlowOpen then Rivals(items, openAt, decidedAt, fx.list, f) else [],
           fx.active in fx.byId && fx.byId[fx.active] == i)
  }

  ghost function Listed(items: seq<Item>): (list: seq<Branch>)
    ensures |list| == |Replay(items).list|
    ensures forall i: nat :: i < |list| ==> list[i] == BranchOf(items, Openings(items), Decisions(items), Replay(items), i)
  {
    var fx := Replay(items);
    seq(|fx.list|, i requires 0 <= i < |fx.list| => BranchOf(items, Openings(items), Decisions(items), fx, i))
  }

  // The state of a flow, its ancestors taken into account, as far as so many hops reach.
  function Effective(fx: Index, id: string, hops: nat): FlowStatus
    requires fx.Sound()
    decreases hops
  {
    if id == "" || hops == 0 then FlowAdopted
    else if id !in fx.byId then FlowDiscarded
    else
      var f := fx.Get(id);
      if f.status == FlowDiscarded then FlowDiscarded
      else
        var above := Effective(fx, f.parent, hops - 1);
        if above == FlowDiscarded then FlowDiscarded
        else if f.status == FlowOpen then FlowOpen else above
  }

  function Status(fx: Index, id: string): FlowStatus
    requires fx.Sound()
  {
    Effective(fx, id, MAX_HOPS)
  }

  // ---- what a flow sees

  predicate OnMain(fx: Index, it: Item)
    requires fx.Sound()
  {
    it.flow == "" || Status(fx, it.flow) == FlowAdopted
  }

  function MainView(items: seq<Item>, fx: Index): seq<Item>
    requires fx.Sound()
  {
    if items == [] then []
    else
      var n := |items| - 1;
      if OnMain(fx, items[n]) then MainView(items[..n], fx) + [items[n]] else MainView(items[..n], fx)
  }

  // The items of a view that a branch keeps: no flow event, nothing it invalidated.
  function Inherited(items: seq<Item>, stale: seq<string>): seq<Item> {
    if items == [] then []
    else
      var n := |items| - 1;
      if items[n].kind == FlowItem || items[n].id in stale then Inherited(items[..n], stale)
      else Inherited(items[..n], stale) + [items[n]]
  }

  // The items of a branch itself, as plain ones.
  function Own(items: seq<Item>, flow: string): seq<Item> {
    if items == [] then []
    else
      var n := |items| - 1;
      if items[n].flow == flow && items[n].kind != FlowItem then Own(items[..n], flow) + [items[n].(flow := "")]
      else Own(items[..n], flow)
  }

  // Parents are opened before their children.
  ghost predicate ParentsFirst(fx: Index) {
    fx.Sound() && forall i: nat :: i < |fx.list| ==> ParentFirst(fx, i)
  }

  ghost predicate ParentFirst(fx: Index, i: nat)
    requires fx.Sound() && i < |fx.list|
  {
    fx.list[i].parent == "" || (fx.list[i].parent in fx.byId && fx.byId[fx.list[i].parent] < i)
  }

  ghost function Rank(fx: Index, flow: string): nat {
    if flow != "" && flow in fx.byId then fx.byId[flow] + 1 else 0
  }

  ghost function Seen(items: seq<Item>, fx: Index, flow: string): seq<Item>
    requires ParentsFirst(fx)
    decreases Rank(fx, flow)
  {
    if flow == "" then MainView(items, fx)
    else if flow !in fx.byId then []
    else
      assert ParentFirst(fx, fx.byId[flow]);
      Inherited(Seen(items, fx, fx.Get(flow).parent), fx.Get(flow).stale) + Own(items, flow)
  }

  // ---- the status of an item

  ghost predicate IsSuperseded(items: seq<Item>, id: string) {
    exists i :: 0 <= i < |items| && id in items[i].supersedes
  }

  // The status and the flow an item was written with.
  function Written(items: seq<Item>, id: string): (ItemStatus, string) {
    if items == [] then (Proposed, "")
    else
      var n := |items| - 1;
      if items[n].id == id then (items[n].status, items[n].flow) else Written(items[..n], id)
  }

  predicate Judges(it: Item, id: string) { it.kind == DecisionItem && it.decision.Some? && it.decision.value.item == id }

  // The last decision on an item, or what it had.
  function Judged(items: seq<Item>, id: string, st: ItemStatus): ItemStatus {
    if items == [] then st
    else
      var n := |items| - 1;
      if Judges(items[n], id) then (if items[n].decision.value.accept then Accepted else Rejected) else Judged(items[..n], id, st)
  }

  // What the branches that invalidated an item make of it, from the i-th on.
  function Weighed(fx: Index, i: nat, id: string, st: ItemStatus): ItemStatus
    requires fx.Sound()
    decreases |fx.list| - i
  {
    if i >= |fx.list| then st
    else if id !in fx.list[i].stale then Weighed(fx, i + 1, id, st)
    else match Status(fx, fx.list[i].id)
      case FlowAdopted => Superseded
      case FlowOpen => Weighed(fx, i + 1, id, if st == Proposed || st == Accepted then Stale else st)
      case FlowDiscarded => Weighed(fx, i + 1, id, st)
  }

  ghost function StatusOf(items: seq<Item>, fx: Index, id: string): ItemStatus
    requires fx.Sound()
  {
    var (st, own) := Written(items, id);
    if IsSuperseded(items, id) then Superseded
    else if own != "" && Status(fx, own) == FlowOpen then Candidate
    else if own != "" && Status(fx, own) == FlowDiscarded then Rejected
    else Weighed(fx, 0, id, Judged(items, id, st))
  }

  ghost predicate Counts(items: seq<Item>, fx: Index, id: string)
    requires fx.Sound()
  {
    StatusOf(items, fx, id) !in {Rejected, Superseded, Candidate}
  }

  // ---- the change

  method ApplyFlowEvent(fx: Index, it: Item) returns (g: Index)
    requires fx.Sound()
    ensures g == Stepped(fx, it)
  {
    g := fx;
    if it.kind != FlowItem || it.event.None? { return; }
    var e := it.event.value;
    match e.op {
      case OpenOp =>
        if e.flow in g.byId { return; }
        g := g.(byId := g.byId[e.flow := |g.list|]);
        g := g.(list := g.list + [Opened(it, e)]);
      case ActivateOp =>
        if e.flow in g.byId && g.Get(e.flow).status == FlowOpen && g.Get(e.flow).option.Some? { g := g.(active := e.flow); }
      case DeactivateOp =>
        if g.active == e.flow { g := g.(active := ""); }
      case EvaluateOp =>
        if e.flow in g.byId && g.Get(e.flow).status == FlowOpen {
          g := Changed(g, g.Get(e.flow).(evaluated := true, evaluation := e.comment));
        }
      case _ =>
        if e.flow in g.byId && g.Get(e.flow).status == FlowOpen {
          g := Changed(g, DecidedFlow(g.Get(e.flow), it, e));
          if g.active == e.flow { g := g.(active := ""); }
        }
    }
  }

  method FindShared(a: seq<string>, b: seq<string>) returns (found: bool)
    ensures found == Shares(a, b)
  {
    found := false;
    for i := 0 to |a|
      invariant forall j :: 0 <= j < i ==> a[j] !in b
    {
      if a[i] in b { return true; }
    }
  }

  method FindCompeting(items: seq<Item>, f: Flow, a: Flow) returns (compete: bool)
    ensures compete == Competes(items, f, a)
  {
    compete := FindShared(f.stale, a.stale);
    if !compete { compete := FindShared(f.staleRuns, a.staleRuns); }
    if compete { return; }
    for i := 0 to |items|
      invariant compete == BuildsOn(items[..i], f.id, a.stale)
    {
      if compete {
        assert forall j :: 0 <= j < i ==> items[..i][j] == items[j];
        break;
      }
      if items[i].flow == f.id { compete := FindShared(items[i].derivedFrom, a.stale); }
    }
  }

  method FindRivals(items: seq<Item>, openAt: map<string, nat>, decidedAt: map<string, nat>, list: seq<Flow>, f: Flow)
    returns (rivals: seq<string>)
    ensures rivals == Rivals(items, openAt, decidedAt, list, f)
  {
    rivals := [];
    for i := 0 to |list|
      invariant rivals == Rivals(items, openAt, decidedAt, list[..i], f)
    {
      PrefixGrows(list, i);
      var a := list[i];
      if a.status != FlowAdopted || a.id == f.id || PositionIn(decidedAt, a.id) < PositionIn(openAt, f.id) { continue; }
      var compete := FindCompeting(items, f, a);
      if compete { rivals := rivals + [a.id]; }
    }
    WholePrefix(list);
  }

  // The flows as they are listed: those that are open with their rivals, and the active one marked.
  method ListBranches(items: seq<Item>, openAt: map<string, nat>, decidedAt: map<string, nat>, fx: Index)
    returns (list: seq<Branch>)
    requires fx.Sound()
    ensures |list| == |fx.list|
    ensures forall i: nat :: i < |list| ==> list[i] == BranchOf(items, openAt, decidedAt, fx, i)
  {
    list := [];
    for i := 0 to |fx.list|
      invariant |list| == i
      invariant forall k: nat :: k < i ==> list[k] == BranchOf(items, openAt, decidedAt, fx, k).(active := false)
    {
      var f, rivals := fx.list[i], [];
      if f.status == FlowOpen { rivals := FindRivals(items, openAt, decidedAt, fx.list, f); }
      list := list + [Branch(f, rivals, false)];
    }
    if fx.active in fx.byId {
      var i := fx.byId[fx.active];
      list := list[i := list[i].(active := true)];
    }
  }

  method InheritedItems(base: seq<Item>, stale: seq<string>) returns (out: seq<Item>)
    ensures out == Inherited(base, stale)
  {
    out := [];
    for i := 0 to |base|
      invariant out == Inherited(base[..i], stale)
    {
      assert base[..i + 1][..i] == base[..i];
      if base[i].kind == FlowItem || base[i].id in stale { continue; }
      out := out + [base[i]];
    }
    assert base[..|base|] == base;
  }

  method EffectiveOf(fx: Index, id: string) returns (st: FlowStatus)
    requires fx.Sound()
    ensures st == Status(fx, id)
  {
    st := FlowAdopted;
    var at, hops := id, 0;
    while at != "" && hops < MAX_HOPS
      invariant 0 <= hops <= MAX_HOPS && st != FlowDiscarded
      invariant Status(fx, id) == (if Effective(fx, at, MAX_HOPS - hops) == FlowAdopted then st
                                   else Effective(fx, at, MAX_HOPS - hops))
      decreases MAX_HOPS - hops
    {
      if at !in fx.byId { return FlowDiscarded; }
      var f := fx.Get(at);
      if f.status == FlowDiscarded { return FlowDiscarded; }
      if f.status == FlowOpen { st := FlowOpen; }
      at, hops := f.parent, hops + 1;
    }
  }

  /** A change: its log, and the replay of it, with the flows it lists, kept for the length it was made at. */
  class Change {
    var items: seq<Item>
    var kept: Option<Index>
    var listed: seq<Branch>
    var keptAt: nat

    // Items are only ever appended: the replay kept is the one of a prefix of the log.
    ghost predicate Valid()
      reads this
    {
      kept.Some? ==> keptAt <= |items| && kept.value == Replay(items[..keptAt]) && listed == Listed(items[..keptAt])
    }

    constructor ()
      ensures Valid() && items == []
    {
      items, kept, listed, keptAt := [], None, [], 0;
    }

    method Append(it: Item)
      requires Valid()
      modifies this`items
      ensures Valid() && items == old(items) + [it]
    {
      assert kept.Some? ==> (items + [it])[..keptAt] == items[..keptAt];
      items := items + [it];
    }

    /** The branches of the log, whether they were kept or have to be replayed and compared. */
    method Replayed() returns (fx: Index)
      requires Valid()
      modifies this`kept, this`listed, this`keptAt
      ensures Valid() && kept == Some(fx) && keptAt == |items|
      ensures fx == Replay(items)
    {
      WholePrefix(items);
      if kept.Some? && keptAt == |items| { return kept.value; }
      fx := Index([], map[], "");
      var openAt: map<string, nat>, decidedAt: map<string, nat> := map[], map[];
      for pos := 0 to |items|
        invariant items == old(items) && fx == Replay(items[..pos])
        invariant openAt == Openings(items[..pos]) && decidedAt == Decisions(items[..pos])
      {
        PrefixGrows(items, pos);
        if IsOpening(fx, items[pos]) { openAt := openAt[items[pos].event.value.flow := pos]; }
        if IsDecision(fx, items[pos]) { decidedAt := decidedAt[items[pos].event.value.flow := pos]; }
        fx := ApplyFlowEvent(fx, items[pos]);
      }
      listed := ListBranches(items, openAt, decidedAt, fx);
      kept, keptAt := Some(fx), |items|;
    }

    /** The flows of the change, oldest first, each open one with those it competes with, and the active one marked. */
    method Flows() returns (list: seq<Branch>)
      requires Valid()
      modifies this`kept, this`listed, this`keptAt
      ensures Valid() && list == Listed(items)
    {
      var _ := Replayed();
      WholePrefix(items);
      list := listed;
    }

    method FlowStatusOf(id: string) returns (st: FlowStatus)
      requires Valid()
      modifies this`kept, this`listed, this`keptAt
      ensures Valid() && st == Status(Replay(items), id)
    {
      var fx := Replayed();
      st := EffectiveOf(fx, id);
    }

    method MainItems(fx: Index) returns (out: seq<Item>)
      requires fx.Sound()
      ensures out == MainView(items, fx)
    {
      out := [];
      for i := 0 to |items|
        invariant out == MainView(items[..i], fx)
      {
        assert items[..i + 1][..i] == items[..i];
        if items[i].flow != "" {
          var st := EffectiveOf(fx, items[i].flow);
          if st != FlowAdopted { continue; }
        }
        out := out + [items[i]];
      }
      assert items[..|items|] == items;
    }

    method OwnItems(flow: string) returns (out: seq<Item>)
      ensures out == Own(items, flow)
    {
      out := [];
      for i := 0 to |items|
        invariant out == Own(items[..i], flow)
      {
        assert items[..i + 1][..i] == items[..i];
        if items[i].flow == flow && items[i].kind != FlowItem {
          out := out + [items[i].(flow := "")];
        }
      }
      assert items[..|items|] == items;
    }

    /** The items of the change as the process running on a flow sees them. */
    method View(flow: string) returns (out: seq<Item>)
      requires Valid() && ParentsFirst(Replay(items))
      modifies this`kept, this`listed, this`keptAt
      ensures Valid() && out == Seen(items, Replay(items), flow)
      decreases Rank(Replay(items), flow)
    {
      var fx := Replayed();
      if flow == "" {
        out := MainItems(fx);
        return;
      }
      if flow !in fx.byId { return []; }
      var f := fx.Get(flow);
      assert ParentFirst(fx, fx.byId[flow]);
      var base := View(f.parent);
      out := InheritedItems(base, f.stale);
      var own := OwnItems(flow);
      out := out + own;
    }

    // The status and flow an item was written with, unless an item supersedes it.
    method FindWritten(id: string) returns (superseded: bool, st: ItemStatus, own: string)
      ensures superseded == IsSuperseded(items, id)
      ensures !superseded ==> (st, own) == Written(items, id)
    {
      superseded, st, own := false, Proposed, "";
      for i := 0 to |items|
        invariant (st, own) == Written(items[..i], id)
        invariant forall j :: 0 <= j < i ==> id !in items[j].supersedes
      {
        assert items[..i + 1][..i] == items[..i];
        if items[i].id == id { st, own := items[i].status, items[i].flow; }
        for k := 0 to |items[i].supersedes|
          invariant forall m :: 0 <= m < k ==> items[i].supersedes[m] != id
        {
          if items[i].supersedes[k] == id { superseded := true; return; }
        }
      }
      assert items[..|items|] == items;
    }

    method FindJudged(id: string, written: ItemStatus) returns (st: ItemStatus)
      ensures st == Judged(items, id, written)
    {
      st := written;
      for i := 0 to |items|
        invariant st == Judged(items[..i], id, written)
      {
        assert items[..i + 1][..i] == items[..i];
        if Judges(items[i], id) { st := if items[i].decision.value.accept then Accepted else Rejected; }
      }
      assert items[..|items|] == items;
    }

    method Weigh(fx: Index, id: string, judged: ItemStatus) returns (st: ItemStatus)
      requires fx.Sound()
      ensures st == Weighed(fx, 0, id, judged)
    {
      st := judged;
      for i := 0 to |fx.list|
        invariant Weighed(fx, i, id, st) == Weighed(fx, 0, id, judged)
      {
        if id !in fx.list[i].stale { continue; }
        var flow := EffectiveOf(fx, fx.list[i].id);
        match flow {
          case FlowAdopted => return Superseded;
          case FlowOpen => if st == Proposed || st == Accepted { st := Stale; }
          case FlowDiscarded =>
        }
      }
    }

    /** Where an item stands: replaced, of an undecided or discarded branch, judged, or invalidated by a branch. */
    method EffectiveStatus(id: string) returns (st: ItemStatus)
      requires Valid()
      modifies this`kept, this`listed, this`keptAt
      ensures Valid() && st == StatusOf(items, Replay(items), id)
    {
      var superseded, written, own := FindWritten(id);
      if superseded { return Superseded; }
      st := FindJudged(id, written);
      var fx := Replayed();
      if own != "" {
        var flow := EffectiveOf(fx, own);
        if flow == FlowOpen { return Candidate; }
        if flow == FlowDiscarded { return Rejected; }
      }
      st := Weigh(fx, id, st);
    }

    method InEffect(id: string) returns (counts: bool)
      requires Valid()
      modifies this`kept, this`listed, this`keptAt
      ensures Valid() && counts == Counts(items, Replay(items), id)
    {
      var st := EffectiveStatus(id);
      counts := !(st == Rejected || st == Superseded || st == Candidate);
    }
  }
}
