// The status of an item on the view of a branch, which carries no flow event (contracts/domain/flow.go, View, and
// contracts/domain/change.go, EffectiveStatus).
module ViewLaws {
  import opened Prelude
  import opened Flows
  import opened FlowLaws

  // ---- a view with no flow event

  ghost predicate NoEvent(items: seq<Item>) { forall i :: 0 <= i < |items| ==> items[i].kind != FlowItem }

  lemma {:induction false} NothingReplayed(items: seq<Item>)
    requires NoEvent(items)
    ensures Replay(items) == Index([], map[], "")
  {
    if items != [] { NothingReplayed(items[..|items| - 1]); }
  }

  lemma {:induction false} InheritedHasNoEvent(items: seq<Item>, stale: seq<string>)
    ensures NoEvent(Inherited(items, stale))
  {
    if items != [] { InheritedHasNoEvent(items[..|items| - 1], stale); }
  }

  lemma {:induction false} OwnHasNoEvent(items: seq<Item>, flow: string)
    ensures NoEvent(Own(items, flow))
  {
    if items != [] { OwnHasNoEvent(items[..|items| - 1], flow); }
  }

  // What a view with no flow event says of an item: the items of a branch are those of no branch that is known.
  ghost function PlainStatus(view: seq<Item>, id: string): ItemStatus {
    var (st, own) := Written(view, id);
    if IsSuperseded(view, id) then Superseded else if own != "" then Rejected else Judged(view, id, st)
  }

  lemma PlainViewStatus(view: seq<Item>, id: string)
    requires NoEvent(view)
    ensures StatusOf(view, Replay(view), id) == PlainStatus(view, id)
  {
    NothingReplayed(view);
  }

  /** On the view of a branch an item is replaced or judged by what the view holds, and rejected when it is of a branch still. */
  lemma BranchViewStatus(items: seq<Item>, flow: string, id: string)
    requires ParentsFirst(Replay(items)) && flow != ""
    ensures var view := Seen(items, Replay(items), flow); StatusOf(view, Replay(view), id) == PlainStatus(view, id)
  {
    var fx := Replay(items);
    if flow in fx.byId {
      assert ParentFirst(fx, fx.byId[flow]);
      InheritedHasNoEvent(Seen(items, fx, fx.Get(flow).parent), fx.Get(flow).stale);
      OwnHasNoEvent(items, flow);
    }
    PlainViewStatus(Seen(items, fx, flow), id);
  }

  // ---- an item the branch inherits

  // The item is the one of the id, or decides on it or replaces it.
  predicate Concerns(it: Item, id: string) { it.id == id || Judges(it, id) || id in it.supersedes }

  predicate IsKept(it: Item, stale: seq<string>) { it.kind != FlowItem && it.id !in stale }

  // The branch keeps what concerns an item.
  ghost predicate Inherits(base: seq<Item>, stale: seq<string>, id: string) {
    forall it :: it in base && Concerns(it, id) ==> IsKept(it, stale)
  }

  ghost predicate LeavesAlone(own: seq<Item>, id: string) { forall it :: it in own ==> !Concerns(it, id) }

  lemma SupersededSnoc(items: seq<Item>, it: Item, id: string)
    ensures IsSuperseded(items + [it], id) <==> IsSuperseded(items, id) || id in it.supersedes
  {
    SupersededEither(items, [it], id);
    assert IsSuperseded([it], id) <==> id in [it][0].supersedes;
  }

  lemma SaysSnoc(items: seq<Item>, it: Item, id: string, st: ItemStatus)
    ensures Written(items + [it], id) == if it.id == id then (it.status, it.flow) else Written(items, id)
    ensures Judged(items + [it], id, st) ==
            if Judges(it, id) then (if it.decision.value.accept then Accepted else Rejected) else Judged(items, id, st)
  {
    assert (items + [it])[..|items|] == items;
  }

  // Two lists say the same of an item.
  ghost predicate SaysAlike(kept: seq<Item>, base: seq<Item>, id: string, st: ItemStatus) {
    Written(kept, id) == Written(base, id) && Judged(kept, id, st) == Judged(base, id, st) &&
    (IsSuperseded(kept, id) <==> IsSuperseded(base, id))
  }

  // The inherited items say of an item all that the parent's view says.
  lemma {:induction false} InheritedSays(base: seq<Item>, stale: seq<string>, id: string, st: ItemStatus)
    requires Inherits(base, stale, id)
    ensures SaysAlike(Inherited(base, stale), base, id, st)
  {
    if base != [] {
      var n := |base| - 1;
      var before := Inherited(base[..n], stale);
      LastSplits(base);
      InheritedSays(base[..n], stale, id, st);
      assert base[n] in base;
      SaysOneMore(base[..n], before, base[n], IsKept(base[n], stale), id, st);
    }
  }

  lemma SaysOneMore(base: seq<Item>, before: seq<Item>, it: Item, kept: bool, id: string, st: ItemStatus)
    requires SaysAlike(before, base, id, st) && (Concerns(it, id) ==> kept)
    ensures SaysAlike(if kept then before + [it] else before, base + [it], id, st)
  {
    SupersededSnoc(base, it, id);
    SaysSnoc(base, it, id, st);
    SupersededSnoc(before, it, id);
    SaysSnoc(before, it, id, st);
  }

  // Items that leave another alone change nothing of what is said of it.
  lemma OwnSaysNothing(kept: seq<Item>, own: seq<Item>, id: string, st: ItemStatus)
    requires LeavesAlone(own, id)
    ensures SaysAlike(kept + own, kept, id, st)
  {
    forall j | 0 <= j < |own| ensures !Concerns(own[j], id) { assert own[j] in own; }
    WrittenBefore(kept, own, id);
    JudgedAgain(kept, own, id, st);
    NotJudged(own, id, Judged(kept, id, st));
    SupersededEither(kept, own, id);
  }

  lemma InheritedStatus(base: seq<Item>, stale: seq<string>, own: seq<Item>, id: string)
    requires Inherits(base, stale, id) && LeavesAlone(own, id)
    ensures PlainStatus(Inherited(base, stale) + own, id) == PlainStatus(base, id)
  {
    InheritedSays(base, stale, id, Written(base, id).0);
    OwnSaysNothing(Inherited(base, stale), own, id, Written(base, id).0);
  }

  // The flow keeps an item of its parent's view, with all that decides on it, and does nothing to it itself.
  ghost predicate KeepsItem(items: seq<Item>, flow: string, id: string)
    requires ParentsFirst(Replay(items))
  {
    var fx := Replay(items);
    flow != "" && flow in fx.byId && Inherits(Seen(items, fx, fx.Get(flow).parent), fx.Get(flow).stale, id) && LeavesAlone(Own(items, flow), id)
  }

  lemma KeptItemStatus(items: seq<Item>, flow: string, id: string)
    requires ParentsFirst(Replay(items)) && KeepsItem(items, flow, id)
    ensures var fx := Replay(items);
            var view := Seen(items, fx, flow);
            StatusOf(view, Replay(view), id) == PlainStatus(Seen(items, fx, fx.Get(flow).parent), id)
  {
    var fx := Replay(items);
    assert ParentFirst(fx, fx.byId[flow]);
    BranchViewStatus(items, flow, id);
    InheritedStatus(Seen(items, fx, fx.Get(flow).parent), fx.Get(flow).stale, Own(items, flow), id);
  }

  /** An item a branch of a branch inherits has the status it has on the view of that one. */
  lemma InheritedAsOnItsBranch(items: seq<Item>, flow: string, id: string)
    requires ParentsFirst(Replay(items)) && KeepsItem(items, flow, id) && Replay(items).Get(flow).parent != ""
    ensures var fx := Replay(items);
            var view, above := Seen(items, fx, flow), Seen(items, fx, fx.Get(flow).parent);
            StatusOf(view, Replay(view), id) == StatusOf(above, Replay(above), id)
  {
    KeptItemStatus(items, flow, id);
    BranchViewStatus(items, Replay(items).Get(flow).parent, id);
  }

  // ---- an item inherited from main

  lemma {:induction false} WrittenOnMain(items: seq<Item>, fx: Index, id: string)
    requires fx.Sound()
    ensures var own := Written(MainView(items, fx), id).1; own == "" || Status(fx, own) == FlowAdopted
  {
    if items != [] {
      var n := |items| - 1;
      WrittenOnMain(items[..n], fx, id);
      if OnMain(fx, items[n]) { SaysSnoc(MainView(items[..n], fx), items[n], id, Proposed); }
    }
  }

  // What main says of an item: replaced, or what is judged of it weighed by the branches that invalidated it.
  lemma MainStatus(items: seq<Item>, id: string)
    requires EventsOnMain(items)
    ensures var fx := Replay(items);
            var board := MainView(items, fx);
            StatusOf(board, Replay(board), id) ==
            if IsSuperseded(board, id) then Superseded else Weighed(fx, 0, id, Judged(board, id, Written(board, id).0))
  {
    ViewReplays(items, Replay(items));
    WrittenOnMain(items, Replay(items), id);
  }

  /**
   * An item a branch inherits from main, with all that decides on it, has on the branch's view the status it has on main's
   * if and only if it is replaced there, or is of no branch and none weighs on it, or is of a branch and main rejects it.
   */
  lemma InheritedAsOnMain(items: seq<Item>, flow: string, id: string)
    requires ParentsFirst(Replay(items)) && EventsOnMain(items) && KeepsItem(items, flow, id) && Replay(items).Get(flow).parent == ""
    ensures var fx := Replay(items);
            var view, board := Seen(items, fx, flow), MainView(items, fx);
            var judged := Judged(board, id, Written(board, id).0);
            StatusOf(view, Replay(view), id) == StatusOf(board, Replay(board), id)
            <==> IsSuperseded(board, id) ||
                 (if Written(board, id).1 == "" then Weighed(fx, 0, id, judged) == judged else Weighed(fx, 0, id, judged) == Rejected)
  {
    KeptItemStatus(items, flow, id);
    MainStatus(items, id);
  }

  // ---- an item of a branch that was adopted

  function EventItem(id: string, op: FlowOp, flow: string): Item {
    Item(id, FlowItem, Proposed, "", [], [], None, Some(FlowEvent(op, flow, "", "", [], [], map[], "", None, "")), 0)
  }

  function FlowOf(id: string, status: FlowStatus): Flow {
    Flow(id, "", "", status, [], [], map[], 0, 0, "", None, false, "")
  }

  const Work := Item("r", OtherItem, Proposed, "g", [], [], None, None, 0)

  const Start := [EventItem("o", OpenOp, "g")]

  const Working := Start + [Work]

  const Done := Working + [EventItem("a", AdoptOp, "g")]

  const Next := Done + [EventItem("p", OpenOp, "f")]

  const Known := Index([FlowOf("g", FlowAdopted), FlowOf("f", FlowOpen)], map["g" := 0, "f" := 1], "")

  lemma WorkingReplays()
    ensures Replay(Working) == Index([FlowOf("g", FlowOpen)], map["g" := 0], "")
  {
    assert Start[..0] == [] && Replay([]) == Index([], map[], "");
    ReplayOne(Start, Work);
  }

  lemma DoneReplays()
    ensures Replay(Done) == Index([FlowOf("g", FlowAdopted)], map["g" := 0], "")
  {
    WorkingReplays();
    ReplayOne(Working, EventItem("a", AdoptOp, "g"));
  }

  lemma NextReplays()
    ensures Replay(Next) == Known && ParentsFirst(Known) && Status(Known, "g") == FlowAdopted
  {
    DoneReplays();
    ReplayOne(Done, EventItem("p", OpenOp, "f"));
  }

  lemma BoardSnoc(items: seq<Item>, it: Item, fx: Index, flow: string)
    requires fx.Sound()
    ensures MainView(items + [it], fx) == if OnMain(fx, it) then MainView(items, fx) + [it] else MainView(items, fx)
    ensures it.flow != flow ==> Own(items + [it], flow) == Own(items, flow)
  {
    assert (items + [it])[..|items|] == items;
  }

  lemma StartBoard()
    ensures Known.Sound() && MainView(Start, Known) == Start && Own(Start, "f") == []
  {
    NextReplays();
    assert Start == [] + [EventItem("o", OpenOp, "g")];
    BoardSnoc([], EventItem("o", OpenOp, "g"), Known, "f");
  }

  lemma NextBoard()
    ensures Known.Sound() && MainView(Next, Known) == Next && Own(Next, "f") == []
  {
    NextReplays();
    StartBoard();
    BoardSnoc(Start, Work, Known, "f");
    BoardSnoc(Working, EventItem("a", AdoptOp, "g"), Known, "f");
    BoardSnoc(Done, EventItem("p", OpenOp, "f"), Known, "f");
  }

  lemma NextSays()
    ensures Written(Next, "r") == (Proposed, "g") && Judged(Next, "r", Proposed) == Proposed && !IsSuperseded(Next, "r")
  {
    assert Start == [] + [EventItem("o", OpenOp, "g")];
    SaysSnoc([], EventItem("o", OpenOp, "g"), "r", Proposed);
    SaysSnoc(Start, Work, "r", Proposed);
    SaysSnoc(Working, EventItem("a", AdoptOp, "g"), "r", Proposed);
    SaysSnoc(Done, EventItem("p", OpenOp, "f"), "r", Proposed);
    assert forall i :: 0 <= i < |Next| ==> Next[i].supersedes == [];
  }

  lemma EventConcernsNothing(id: string, op: FlowOp, flow: string)
    requires id != "r"
    ensures !Concerns(EventItem(id, op, flow), "r")
  {
  }

  lemma NextInherits()
    ensures EventsOnMain(Next) && Inherits(Next, [], "r")
  {
    EventConcernsNothing("o", OpenOp, "g");
    EventConcernsNothing("a", AdoptOp, "g");
    EventConcernsNothing("p", OpenOp, "f");
  }

  lemma NextKeeps()
    ensures EventsOnMain(Next) && ParentsFirst(Replay(Next)) && KeepsItem(Next, "f", "r")
  {
    NextReplays();
    NextBoard();
    NextInherits();
    assert Known.Get("f").parent == "" && Known.Get("f").stale == [];
    assert Seen(Next, Known, "") == Next;
  }

  /**
   * An item of a branch that was adopted, on the view of a branch opened since: main has it proposed, the branch, whose view
   * does not know of the adoption, rejected.
   */
  lemma AdoptedItemIsRejectedOnABranch()
    ensures EventsOnMain(Next) && ParentsFirst(Replay(Next)) && KeepsItem(Next, "f", "r")
    ensures var board := MainView(Next, Replay(Next)); StatusOf(board, Replay(board), "r") == Proposed
    ensures var view := Seen(Next, Replay(Next), "f"); StatusOf(view, Replay(view), "r") == Rejected
  {
    NextReplays();
    NextBoard();
    NextSays();
    NextKeeps();
    KeptItemStatus(Next, "f", "r");
    MainStatus(Next, "r");
    NothingWeighs(Known, 0, "r", Proposed);
  }
}
