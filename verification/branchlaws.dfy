// What the branches of a change are, from the events of its log by their positions (contracts/domain/flow.go), and what
// that makes of an item and of a view (contracts/domain/change.go).
module BranchLaws {
  import opened Prelude
  import opened Flows
  import opened Competition

  // ---- the events of a branch

  predicate EventOf(it: Item, op: FlowOp, id: string) {
    it.kind == FlowItem && it.event.Some? && it.event.value.op == op && it.event.value.flow == id
  }

  predicate OpenedBefore(items: seq<Item>, n: nat, id: string) { exists j :: 0 <= j < n && j < |items| && EventOf(items[j], OpenOp, id) }

  // The event opens a branch that no event opened before.
  predicate OpensAt(items: seq<Item>, i: nat) {
    i < |items| && items[i].kind == FlowItem && items[i].event.Some? && items[i].event.value.op == OpenOp &&
    !OpenedBefore(items, i, items[i].event.value.flow)
  }

  predicate Decides(it: Item, id: string) { EventOf(it, AdoptOp, id) || EventOf(it, DiscardOp, id) }

  predicate DecidedIn(items: seq<Item>, i: nat, n: nat, id: string) { exists j :: i < j < n && j < |items| && Decides(items[j], id) }

  // The first decision on a branch after its opening.
  predicate FirstDecision(items: seq<Item>, i: nat, n: nat, id: string, j: nat) {
    i < j < n && j < |items| && Decides(items[j], id) && !DecidedIn(items, i, j, id)
  }

  predicate Evaluates(items: seq<Item>, i: nat, id: string, j: nat) {
    i < j < |items| && EventOf(items[j], EvaluateOp, id) && !DecidedIn(items, i, j, id)
  }

  // The last evaluation of a branch before it was decided.
  predicate LastEvaluation(items: seq<Item>, i: nat, n: nat, id: string, j: nat) {
    j < n && Evaluates(items, i, id, j) && forall k: nat :: j < k < n ==> !Evaluates(items, i, id, k)
  }

  ghost predicate DecisionSays(items: seq<Item>, i: nat, n: nat, f: Flow)
    requires n <= |items|
  {
    if DecidedIn(items, i, n, f.id)
    then exists j: nat :: FirstDecision(items, i, n, f.id, j) && f.decidedAt == items[j].at && f.decidedBy == items[j].event.value.writer &&
                          f.status == if items[j].event.value.op == AdoptOp then FlowAdopted else FlowDiscarded
    else f.status == FlowOpen && f.decidedAt == 0 && f.decidedBy == ""
  }

  ghost predicate EvaluationSays(items: seq<Item>, i: nat, n: nat, f: Flow)
    requires n <= |items|
  {
    if exists j: nat :: LastEvaluation(items, i, n, f.id, j)
    then f.evaluated && exists j: nat :: LastEvaluation(items, i, n, f.id, j) && f.evaluation == items[j].event.value.comment
    else !f.evaluated && f.evaluation == ""
  }

  /** A branch is as its opening says, decided by the first decision after it and evaluated by the last before that. */
  ghost predicate FlowSays(items: seq<Item>, i: nat, n: nat, f: Flow) {
    i < n <= |items| && OpensAt(items, i) &&
    (var e := items[i].event.value;
     f == Flow(e.flow, e.parent, e.forkAfter, f.status, e.stale, e.staleRuns, e.origin, items[i].at, f.decidedAt, f.decidedBy,
               e.option, f.evaluated, f.evaluation)) &&
    DecisionSays(items, i, n, f) && EvaluationSays(items, i, n, f)
  }

  ghost function OpeningsAt(items: seq<Item>, n: nat): (at: seq<nat>)
    requires n <= |items|
    ensures forall k :: 0 <= k < |at| ==> at[k] < n && OpensAt(items, at[k])
    ensures forall j, k :: 0 <= j < k < |at| ==> at[j] < at[k]
    ensures forall i: nat :: i < n && OpensAt(items, i) ==> i in at
  {
    if n == 0 then [] else if OpensAt(items, n - 1) then OpeningsAt(items, n - 1) + [n - 1] else OpeningsAt(items, n - 1)
  }

  ghost predicate FlowsSay(items: seq<Item>, n: nat, at: seq<nat>, list: seq<Flow>) {
    |list| == |at| && forall k :: 0 <= k < |at| ==> FlowSays(items, at[k], n, list[k])
  }

  ghost predicate KnownSay(items: seq<Item>, n: nat, byId: map<string, nat>) { forall id :: id in byId <==> OpenedBefore(items, n, id) }

  // ---- one event more

  lemma StepAt(fx: Index, it: Item, k: nat)
    requires fx.Sound() && k < |fx.list|
    ensures k < |Stepped(fx, it).list| && Stepped(fx, it).list[k] == FlowAfter(fx.list[k], it)
  {
    StepOnFlow(fx, it, fx.list[k].id);
    StepKeepsPlace(fx, it, fx.list[k].id);
  }

  lemma StepKeepsPlace(fx: Index, it: Item, id: string)
    requires fx.Sound() && id in fx.byId
    ensures id in Stepped(fx, it).byId && Stepped(fx, it).byId[id] == fx.byId[id] && |fx.list| <= |Stepped(fx, it).list|
  {
  }

  lemma StepLength(fx: Index, it: Item)
    requires fx.Sound()
    ensures IsOpening(fx, it) ==> Stepped(fx, it).list == fx.list + [Opened(it, it.event.value)]
    ensures !IsOpening(fx, it) ==> |Stepped(fx, it).list| == |fx.list|
  {
  }

  lemma DecidedMore(items: seq<Item>, i: nat, n: nat, next: nat, id: string)
    requires i < n < |items| && next == n + 1
    ensures DecidedIn(items, i, next, id) <==> DecidedIn(items, i, n, id) || Decides(items[n], id)
  {
  }

  lemma DecisionMore(items: seq<Item>, i: nat, n: nat, next: nat, f: Flow)
    requires i < n < |items| && next == n + 1 && DecisionSays(items, i, n, f)
    ensures DecisionSays(items, i, next, FlowAfter(f, items[n]))
  {
    DecidedMore(items, i, n, next, f.id);
    if DecidedIn(items, i, n, f.id) {
      var j: nat :| FirstDecision(items, i, n, f.id, j) && f.decidedAt == items[j].at && f.decidedBy == items[j].event.value.writer &&
                    f.status == if items[j].event.value.op == AdoptOp then FlowAdopted else FlowDiscarded;
      assert FirstDecision(items, i, next, f.id, j);
    } else if Decides(items[n], f.id) {
      assert FirstDecision(items, i, next, f.id, n);
    }
  }

  lemma EvaluationMore(items: seq<Item>, i: nat, n: nat, next: nat, f: Flow)
    requires i < n < |items| && next == n + 1 && EvaluationSays(items, i, n, f)
    requires f.status == FlowOpen <==> !DecidedIn(items, i, n, f.id)
    ensures EvaluationSays(items, i, next, FlowAfter(f, items[n]))
  {
    if Evaluates(items, i, f.id, n) {
      assert LastEvaluation(items, i, next, f.id, n);
    } else {
      forall j: nat ensures LastEvaluation(items, i, next, f.id, j) <==> LastEvaluation(items, i, n, f.id, j) {
        EvaluationSame(items, i, n, next, f.id, j);
      }
    }
  }

  lemma EvaluationSame(items: seq<Item>, i: nat, n: nat, next: nat, id: string, j: nat)
    requires n < |items| && next == n + 1 && !Evaluates(items, i, id, n)
    ensures LastEvaluation(items, i, next, id, j) <==> LastEvaluation(items, i, n, id, j)
  {
  }

  lemma FlowMore(items: seq<Item>, i: nat, n: nat, next: nat, f: Flow)
    requires n < |items| && next == n + 1 && FlowSays(items, i, n, f)
    ensures FlowSays(items, i, next, FlowAfter(f, items[n]))
  {
    DecisionMore(items, i, n, next, f);
    EvaluationMore(items, i, n, next, f);
  }

  lemma OpenedSays(items: seq<Item>, n: nat, next: nat)
    requires n < |items| && next == n + 1 && OpensAt(items, n)
    ensures FlowSays(items, n, next, Opened(items[n], items[n].event.value))
  {
  }

  lemma OpeningAlike(items: seq<Item>, n: nat, fx: Index)
    requires n < |items| && KnownSay(items, n, fx.byId)
    ensures IsOpening(fx, items[n]) <==> OpensAt(items, n)
  {
  }

  lemma FlowsMore(items: seq<Item>, n: nat, next: nat, fx: Index)
    requires n < |items| && next == n + 1 && fx.Sound() && KnownSay(items, n, fx.byId) && FlowsSay(items, n, OpeningsAt(items, n), fx.list)
    ensures FlowsSay(items, next, OpeningsAt(items, next), Stepped(fx, items[n]).list)
  {
    OpeningAlike(items, n, fx);
    OpeningsMore(items, n, next);
    FlowsMoreAt(items, n, next, fx, OpeningsAt(items, n));
  }

  lemma OpeningsMore(items: seq<Item>, n: nat, next: nat)
    requires n < |items| && next == n + 1
    ensures OpeningsAt(items, next) == if OpensAt(items, n) then OpeningsAt(items, n) + [n] else OpeningsAt(items, n)
  {
  }

  lemma FlowsMoreAt(items: seq<Item>, n: nat, next: nat, fx: Index, at: seq<nat>)
    requires n < |items| && next == n + 1 && fx.Sound() && FlowsSay(items, n, at, fx.list)
    requires IsOpening(fx, items[n]) <==> OpensAt(items, n)
    ensures FlowsSay(items, next, if OpensAt(items, n) then at + [n] else at, Stepped(fx, items[n]).list)
  {
    var list := Stepped(fx, items[n]).list;
    StepLength(fx, items[n]);
    forall k: nat | k < |at| ensures FlowSays(items, at[k], next, list[k]) {
      StepAt(fx, items[n], k);
      FlowMore(items, at[k], n, next, fx.list[k]);
    }
    if OpensAt(items, n) { OpenedSays(items, n, next); }
  }

  lemma KnownMore(items: seq<Item>, n: nat, next: nat, fx: Index)
    requires n < |items| && next == n + 1 && fx.Sound() && KnownSay(items, n, fx.byId)
    ensures KnownSay(items, next, Stepped(fx, items[n]).byId)
  {
    forall id ensures id in Stepped(fx, items[n]).byId <==> OpenedBefore(items, next, id) {
      StepOpens(fx, items[n], id);
      assert OpenedBefore(items, next, id) <==> OpenedBefore(items, n, id) || EventOf(items[n], OpenOp, id);
    }
  }

  /** The branches of a log are those its events open, in order, each as its events say. */
  lemma {:induction false} BranchesAreTheirEvents(items: seq<Item>, n: nat)
    requires n <= |items|
    ensures KnownSay(items, n, Replay(items[..n]).byId) && FlowsSay(items, n, OpeningsAt(items, n), Replay(items[..n]).list)
  {
    if n > 0 {
      var last := n - 1;
      BranchesAreTheirEvents(items, last);
      ReplayOf(items, last);
      KnownMore(items, last, n, Replay(items[..last]));
      FlowsMore(items, last, n, Replay(items[..last]));
    }
  }

  // ---- the option the change works on

  // A branch is open among the first events: one opened it and none decided it since.
  ghost predicate OpenAt(items: seq<Item>, n: nat, id: string, i: nat) {
    i < n <= |items| && OpensAt(items, i) && items[i].event.value.flow == id && !DecidedIn(items, i, n, id)
  }

  // The event makes an open option the one worked on.
  ghost predicate Activates(items: seq<Item>, j: nat, id: string) {
    j < |items| && EventOf(items[j], ActivateOp, id) && exists i: nat :: OpenAt(items, j, id, i) && items[i].event.value.option.Some?
  }

  predicate Clears(it: Item, id: string) { EventOf(it, DeactivateOp, id) || Decides(it, id) }

  // Since a position no event put an option aside or made another the active one.
  ghost predicate NotMoved(items: seq<Item>, j: nat, n: nat, id: string) {
    forall k: nat :: j < k < n && k < |items| ==> !Clears(items[k], id) && !ActivatesAny(items, k)
  }

  ghost predicate ActivatesAny(items: seq<Item>, k: nat) {
    k < |items| && items[k].event.Some? && Activates(items, k, items[k].event.value.flow)
  }

  /** An option is the active one when the last event that activated one activated it and none put it aside since. */
  ghost predicate ActiveSays(items: seq<Item>, n: nat, active: string) {
    forall id :: id != "" ==> (active == id <==> ActivatedLast(items, n, id))
  }

  ghost predicate ActivatedLast(items: seq<Item>, n: nat, id: string) {
    exists j: nat :: j < n && Activates(items, j, id) && NotMoved(items, j, n, id)
  }

  lemma OpenIsKnown(items: seq<Item>, n: nat, fx: Index, id: string)
    requires n <= |items| && fx.Sound() && FlowsSay(items, n, OpeningsAt(items, n), fx.list)
    ensures IsOpen(fx, id) && fx.Get(id).option.Some? <==>
            exists i: nat :: OpenAt(items, n, id, i) && items[i].event.value.option.Some?
  {
    var at := OpeningsAt(items, n);
    if IsOpen(fx, id) {
      var k := fx.byId[id];
      assert FlowSays(items, at[k], n, fx.list[k]);
      assert OpenAt(items, n, id, at[k]);
    }
    forall i: nat | OpenAt(items, n, id, i) ensures IsOpen(fx, id) && fx.Get(id).option == items[i].event.value.option {
      var k :| 0 <= k < |at| && at[k] == i;
      assert FlowSays(items, at[k], n, fx.list[k]);
      assert fx.list[k].id in fx.byId;
    }
  }

  lemma ActiveAfter(fx: Index, it: Item)
    requires fx.Sound()
    ensures Stepped(fx, it).active ==
            if it.kind != FlowItem || it.event.None? then fx.active
            else if it.event.value.op == ActivateOp then
              (if IsOpen(fx, it.event.value.flow) && fx.Get(it.event.value.flow).option.Some? then it.event.value.flow else fx.active)
            else if fx.active == it.event.value.flow && (it.event.value.op == DeactivateOp || IsDecision(fx, it)) then ""
            else fx.active
  {
  }

  // The active option is open, so that any decision on it counts.
  ghost predicate ActiveOpen(fx: Index) { fx.active != "" ==> IsOpen(fx, fx.active) }

  lemma ActiveStaysOpen(fx: Index, it: Item)
    requires fx.Sound() && ActiveOpen(fx)
    ensures Stepped(fx, it).Sound() && ActiveOpen(Stepped(fx, it))
  {
    var g := Stepped(fx, it);
    SteppedIsSound(fx, it);
    ActiveAfter(fx, it);
    if g.active != "" { StepOnFlow(fx, it, g.active); }
  }

  lemma NotMovedMore(items: seq<Item>, j: nat, n: nat, next: nat, id: string)
    requires j < n < |items| && next == n + 1
    ensures NotMoved(items, j, next, id) <==> NotMoved(items, j, n, id) && !Clears(items[n], id) && !ActivatesAny(items, n)
  {
  }

  lemma ActiveMore(items: seq<Item>, n: nat, next: nat, fx: Index)
    requires n < |items| && next == n + 1 && fx.Sound() && ActiveOpen(fx) && ActiveSays(items, n, fx.active)
    requires FlowsSay(items, n, OpeningsAt(items, n), fx.list)
    ensures ActiveSays(items, next, Stepped(fx, items[n]).active)
  {
    var now := Stepped(fx, items[n]).active;
    ActiveAfter(fx, items[n]);
    forall id | id != "" ensures now == id <==> ActivatedLast(items, next, id) { ActiveOne(items, n, next, fx, now, id); }
  }

  lemma ActiveOne(items: seq<Item>, n: nat, next: nat, fx: Index, now: string, id: string)
    requires n < |items| && next == n + 1 && fx.Sound() && ActiveOpen(fx) && id != "" && now == Stepped(fx, items[n]).active
    requires fx.active == id <==> ActivatedLast(items, n, id)
    requires FlowsSay(items, n, OpeningsAt(items, n), fx.list)
    ensures now == id <==> ActivatedLast(items, next, id)
  {
    ActiveFrom(items, n, next, id);
    ActivatesAlike(items, n, fx, id);
    if items[n].event.Some? { ActivatesAlike(items, n, fx, items[n].event.value.flow); }
    ActiveAfterFor(fx, items[n], id, Activates(items, n, id), ActivatesAny(items, n));
  }

  lemma ActiveAfterFor(fx: Index, it: Item, id: string, activated: bool, moved: bool)
    requires fx.Sound() && ActiveOpen(fx) && id != ""
    requires activated <==> EventOf(it, ActivateOp, id) && IsOpen(fx, id) && fx.Get(id).option.Some?
    requires moved <==>
      it.event.Some? && var f := it.event.value.flow; EventOf(it, ActivateOp, f) && IsOpen(fx, f) && fx.Get(f).option.Some?
    ensures Stepped(fx, it).active == id <==> activated || (fx.active == id && !Clears(it, id) && !moved)
  {
    ActiveAfter(fx, it);
  }

  lemma ActivatesAlike(items: seq<Item>, n: nat, fx: Index, id: string)
    requires n < |items| && fx.Sound() && FlowsSay(items, n, OpeningsAt(items, n), fx.list)
    ensures Activates(items, n, id) <==> EventOf(items[n], ActivateOp, id) && IsOpen(fx, id) && fx.Get(id).option.Some?
  {
    OpenIsKnown(items, n, fx, id);
  }

  lemma ActiveFrom(items: seq<Item>, n: nat, next: nat, id: string)
    requires n < |items| && next == n + 1
    ensures ActivatedLast(items, next, id) <==>
            Activates(items, n, id) || (ActivatedLast(items, n, id) && !Clears(items[n], id) && !ActivatesAny(items, n))
  {
    if Activates(items, n, id) { assert NotMoved(items, n, next, id); }
    forall j: nat | j < n
      ensures NotMoved(items, j, next, id) <==> NotMoved(items, j, n, id) && !Clears(items[n], id) && !ActivatesAny(items, n)
    {
      NotMovedMore(items, j, n, next, id);
    }
  }

  lemma {:induction false} ActiveIsTheLast(items: seq<Item>, n: nat)
    requires n <= |items|
    ensures ActiveOpen(Replay(items[..n])) && ActiveSays(items, n, Replay(items[..n]).active)
  {
    if n > 0 {
      var last := n - 1;
      ActiveIsTheLast(items, last);
      BranchesAreTheirEvents(items, last);
      ReplayOf(items, last);
      ActiveStaysOpen(Replay(items[..last]), items[last]);
      ActiveMore(items, last, n, Replay(items[..last]));
    }
  }

  // ---- the state of a branch with those above it

  // The branch so many parents above another: none ("") above main or an unknown one.
  function Above(fx: Index, id: string, hops: nat): string
    decreases hops
  {
    if hops == 0 || id == "" then id
    else if id in fx.byId && fx.byId[id] < |fx.list| then Above(fx, fx.Get(id).parent, hops - 1) else ""
  }

  // A branch that stops a chain: unknown or discarded.
  predicate Stops(fx: Index, id: string) { id != "" && (id !in fx.byId || fx.byId[id] >= |fx.list| || fx.Get(id).status == FlowDiscarded) }

  ghost predicate StopsWithin(fx: Index, id: string, hops: nat) { exists k: nat :: k < hops && Stops(fx, Above(fx, id, k)) }

  ghost predicate OpenWithin(fx: Index, id: string, hops: nat) {
    exists k: nat :: k < hops && IsOpen(fx, Above(fx, id, k)) && Above(fx, id, k) != ""
  }

  lemma AboveNext(fx: Index, id: string, k: nat, next: nat)
    requires fx.Sound() && id != "" && id in fx.byId && next == k + 1
    ensures Above(fx, id, next) == Above(fx, fx.Get(id).parent, k)
  {
  }

  lemma WithinNext(fx: Index, id: string, hops: nat, rest: nat)
    requires fx.Sound() && id != "" && id in fx.byId && hops == rest + 1
    ensures StopsWithin(fx, id, hops) <==> Stops(fx, id) || StopsWithin(fx, fx.Get(id).parent, rest)
    ensures OpenWithin(fx, id, hops) <==> IsOpen(fx, id) || OpenWithin(fx, fx.Get(id).parent, rest)
  {
    var p := fx.Get(id).parent;
    assert Above(fx, id, 0) == id;
    forall k: nat, next: nat | k < rest && next == k + 1 ensures Above(fx, id, next) == Above(fx, p, k) { AboveNext(fx, id, k, next); }
    if exists k: nat :: k < rest && Stops(fx, Above(fx, p, k)) {
      var k: nat :| k < rest && Stops(fx, Above(fx, p, k));
      assert Stops(fx, Above(fx, id, k + 1));
    }
    if exists k: nat :: k < rest && IsOpen(fx, Above(fx, p, k)) && Above(fx, p, k) != "" {
      var k: nat :| k < rest && IsOpen(fx, Above(fx, p, k)) && Above(fx, p, k) != "";
      assert IsOpen(fx, Above(fx, id, k + 1));
    }
    if exists k: nat :: 0 < k < hops && Stops(fx, Above(fx, id, k)) {
      var k: nat :| 0 < k < hops && Stops(fx, Above(fx, id, k));
      assert Stops(fx, Above(fx, p, k - 1));
    }
    if exists k: nat :: 0 < k < hops && IsOpen(fx, Above(fx, id, k)) && Above(fx, id, k) != "" {
      var k: nat :| 0 < k < hops && IsOpen(fx, Above(fx, id, k)) && Above(fx, id, k) != "";
      assert IsOpen(fx, Above(fx, p, k - 1));
    }
  }

  lemma {:induction false} MainIsAbove(fx: Index, hops: nat)
    ensures !StopsWithin(fx, "", hops) && !OpenWithin(fx, "", hops)
  {
  }

  /** A branch is discarded when one of its line is, or is unknown; else open when one is; else adopted. */
  lemma {:induction false} EffectiveIsTheLine(fx: Index, id: string, hops: nat)
    requires fx.Sound()
    ensures Effective(fx, id, hops) ==
            if StopsWithin(fx, id, hops) then FlowDiscarded else if OpenWithin(fx, id, hops) then FlowOpen else FlowAdopted
    decreases hops
  {
    if id == "" {
      MainIsAbove(fx, hops);
    } else if hops > 0 {
      var rest := hops - 1;
      assert Above(fx, id, 0) == id;
      if id !in fx.byId {
        assert Stops(fx, Above(fx, id, 0));
      } else {
        WithinNext(fx, id, hops, rest);
        EffectiveIsTheLine(fx, fx.Get(id).parent, rest);
      }
    }
  }

  // ---- the status of an item

  predicate LastNamed(items: seq<Item>, id: string, i: nat) {
    i < |items| && items[i].id == id && forall k :: i < k < |items| ==> items[k].id != id
  }

  // A decision on an item, accepting it or not.
  predicate DecidesOn(it: Item, id: string) { it.kind == DecisionItem && it.decision.Some? && it.decision.value.item == id }

  predicate LastJudging(items: seq<Item>, id: string, i: nat) {
    i < |items| && DecidesOn(items[i], id) && forall k :: i < k < |items| ==> !DecidesOn(items[k], id)
  }

  // The status and branch an item was written with: none of its id, proposed on main.
  ghost predicate WrittenSays(items: seq<Item>, id: string, st: ItemStatus, flow: string) {
    if exists i: nat :: LastNamed(items, id, i)
    then exists i: nat :: LastNamed(items, id, i) && st == items[i].status && flow == items[i].flow
    else st == Proposed && flow == ""
  }

  // What the last decision on an item says, or what it was written with.
  ghost predicate JudgedSays(items: seq<Item>, id: string, written: ItemStatus, st: ItemStatus) {
    if exists i: nat :: LastJudging(items, id, i)
    then exists i: nat :: LastJudging(items, id, i) && st == if items[i].decision.value.accept then Accepted else Rejected
    else st == written
  }

  // A branch from the i-th on, in a state, invalidated the item.
  ghost predicate InvalidatedBy(fx: Index, i: nat, id: string, st: FlowStatus)
    requires fx.Sound()
  {
    exists j: nat :: i <= j < |fx.list| && id in fx.list[j].stale && Status(fx, fx.list[j].id) == st
  }

  ghost predicate WeighedSays(fx: Index, i: nat, id: string, judged: ItemStatus, st: ItemStatus)
    requires fx.Sound()
  {
    if InvalidatedBy(fx, i, id, FlowAdopted) then st == Superseded
    else if InvalidatedBy(fx, i, id, FlowOpen) && (judged == Proposed || judged == Accepted) then st == Stale
    else st == judged
  }

  /**
   * Where an item stands: superseded when an item says so; a candidate or rejected as its branch is open or discarded; else
   * superseded when an adopted branch invalidated it, stale when an open one did and it was not rejected, or as judged last.
   */
  ghost predicate StatusSays(items: seq<Item>, fx: Index, id: string, st: ItemStatus)
    requires fx.Sound()
  {
    if exists i :: 0 <= i < |items| && id in items[i].supersedes then st == Superseded
    else exists written, flow :: WrittenSays(items, id, written, flow) && StandsOn(items, fx, id, written, flow, st)
  }

  // Where an item nothing replaced stands, as it was written on a branch.
  ghost predicate StandsOn(items: seq<Item>, fx: Index, id: string, written: ItemStatus, flow: string, st: ItemStatus)
    requires fx.Sound()
  {
    if flow != "" && Status(fx, flow) == FlowOpen then st == Candidate
    else if flow != "" && Status(fx, flow) == FlowDiscarded then st == Rejected
    else exists judged :: JudgedSays(items, id, written, judged) && WeighedSays(fx, 0, id, judged, st)
  }

  lemma {:induction false} WrittenIsLast(items: seq<Item>, id: string)
    ensures WrittenSays(items, id, Written(items, id).0, Written(items, id).1)
  {
    if items != [] {
      var n := |items| - 1;
      WrittenIsLast(items[..n], id);
      if items[n].id == id {
        assert LastNamed(items, id, n);
      } else {
        assert forall i: nat :: LastNamed(items, id, i) <==> LastNamed(items[..n], id, i);
      }
    }
  }

  lemma {:induction false} JudgedIsLast(items: seq<Item>, id: string, st: ItemStatus)
    ensures JudgedSays(items, id, st, Judged(items, id, st))
  {
    if items != [] {
      var n := |items| - 1;
      JudgedIsLast(items[..n], id, st);
      if DecidesOn(items[n], id) {
        assert LastJudging(items, id, n);
      } else {
        assert forall i: nat :: LastJudging(items, id, i) <==> LastJudging(items[..n], id, i);
      }
    }
  }

  lemma InvalidatedNext(fx: Index, i: nat, next: nat, id: string, st: FlowStatus)
    requires fx.Sound() && i < |fx.list| && next == i + 1
    ensures InvalidatedBy(fx, i, id, st) <==> (id in fx.list[i].stale && Status(fx, fx.list[i].id) == st) || InvalidatedBy(fx, next, id, st)
  {
  }

  lemma {:induction false} WeighedIs(fx: Index, i: nat, id: string, st: ItemStatus)
    requires fx.Sound()
    ensures WeighedSays(fx, i, id, st, Weighed(fx, i, id, st))
    decreases |fx.list| - i
  {
    if i < |fx.list| {
      var next := i + 1;
      InvalidatedNext(fx, i, next, id, FlowAdopted);
      InvalidatedNext(fx, i, next, id, FlowOpen);
      WeighedIs(fx, next, id, st);
      WeighedIs(fx, next, id, Stale);
    }
  }

  /** The status of every item is what the log and its branches say. */
  lemma StatusIsTheLogs(items: seq<Item>, fx: Index, id: string)
    requires fx.Sound()
    ensures StatusSays(items, fx, id, StatusOf(items, fx, id))
  {
    var (st, flow) := Written(items, id);
    WrittenIsLast(items, id);
    JudgedIsLast(items, id, st);
    WeighedIs(fx, 0, id, Judged(items, id, st));
  }

  // ---- the views

  predicate Ascending(at: seq<nat>) { forall j, k :: 0 <= j < k < |at| ==> at[j] < at[k] }

  // The items at some positions, in order.
  ghost predicate ItemsAt(items: seq<Item>, at: seq<nat>, view: seq<Item>) {
    Ascending(at) && |view| == |at| && forall k :: 0 <= k < |at| ==> at[k] < |items| && view[k] == items[at[k]]
  }

  predicate Main(fx: Index, it: Item)
    requires fx.Sound()
  {
    it.flow == "" || Status(fx, it.flow) == FlowAdopted
  }

  /** Main sees the items written on it or on a branch in effect, in the order of the log. */
  ghost predicate MainSays(items: seq<Item>, fx: Index, at: seq<nat>, view: seq<Item>)
    requires fx.Sound()
  {
    ItemsAt(items, at, view) && forall i: nat :: i < |items| ==> (i in at <==> Main(fx, items[i]))
  }

  predicate Keeps(it: Item, stale: seq<string>) { it.kind != FlowItem && it.id !in stale }

  /** A branch sees of the view above it what is no event of a branch and what it did not invalidate, in order. */
  ghost predicate InheritedSays(above: seq<Item>, stale: seq<string>, at: seq<nat>, view: seq<Item>) {
    ItemsAt(above, at, view) && forall i: nat :: i < |above| ==> (i in at <==> Keeps(above[i], stale))
  }

  /** Its own items follow, as plain ones, without the events of the branch. */
  ghost predicate OwnSays(items: seq<Item>, flow: string, at: seq<nat>, view: seq<Item>) {
    Ascending(at) && |view| == |at| &&
    (forall k :: 0 <= k < |at| ==> at[k] < |items| && view[k] == items[at[k]].(flow := "")) &&
    forall i: nat :: i < |items| ==> (i in at <==> items[i].flow == flow && items[i].kind != FlowItem)
  }

  /** What a flow sees: main's view on main, nothing on an unknown one, else what it inherits and then its own. */
  ghost predicate ViewSays(items: seq<Item>, fx: Index, flow: string, above: seq<Item>, view: seq<Item>)
    requires fx.Sound()
  {
    if flow == "" then exists at: seq<nat> :: MainSays(items, fx, at, view)
    else if flow !in fx.byId then view == []
    else exists kept: seq<nat>, own: seq<nat> ::
      |view| == |kept| + |own| && InheritedSays(above, fx.Get(flow).stale, kept, view[..|kept|]) &&
      OwnSays(items, flow, own, view[|kept|..])
  }

  lemma {:induction false} MainIs(items: seq<Item>, fx: Index) returns (at: seq<nat>)
    requires fx.Sound()
    ensures MainSays(items, fx, at, MainView(items, fx))
  {
    if items == [] {
      at := [];
    } else {
      var n := |items| - 1;
      at := MainIs(items[..n], fx);
      MainMore(items, fx, n, at, MainView(items[..n], fx));
      if Main(fx, items[n]) { at := at + [n]; }
    }
  }

  lemma MainMore(items: seq<Item>, fx: Index, n: nat, at: seq<nat>, view: seq<Item>)
    requires fx.Sound() && |items| == n + 1 && MainSays(items[..n], fx, at, view)
    ensures Main(fx, items[n]) ==> MainSays(items, fx, at + [n], view + [items[n]])
    ensures !Main(fx, items[n]) ==> MainSays(items, fx, at, view)
  {
    if Main(fx, items[n]) {
      forall i: nat | i < |items| ensures i in at + [n] <==> Main(fx, items[i]) {
        if i < n { assert items[i] == items[..n][i]; }
      }
    } else {
      forall i: nat | i < |items| ensures i in at <==> Main(fx, items[i]) {
        if i < n { assert items[i] == items[..n][i]; }
      }
    }
  }

  lemma {:induction false} InheritedIs(above: seq<Item>, stale: seq<string>) returns (at: seq<nat>)
    ensures InheritedSays(above, stale, at, Inherited(above, stale))
  {
    if above == [] {
      at := [];
    } else {
      var n := |above| - 1;
      at := InheritedIs(above[..n], stale);
      InheritedMore(above, stale, n, at, Inherited(above[..n], stale));
      if Keeps(above[n], stale) { at := at + [n]; }
    }
  }

  lemma InheritedMore(above: seq<Item>, stale: seq<string>, n: nat, at: seq<nat>, view: seq<Item>)
    requires |above| == n + 1 && InheritedSays(above[..n], stale, at, view)
    ensures Keeps(above[n], stale) ==> InheritedSays(above, stale, at + [n], view + [above[n]])
    ensures !Keeps(above[n], stale) ==> InheritedSays(above, stale, at, view)
  {
    if Keeps(above[n], stale) {
      forall i: nat | i < |above| ensures i in at + [n] <==> Keeps(above[i], stale) {
        if i < n { assert above[i] == above[..n][i]; }
      }
    } else {
      forall i: nat | i < |above| ensures i in at <==> Keeps(above[i], stale) {
        if i < n { assert above[i] == above[..n][i]; }
      }
    }
  }

  lemma {:induction false} OwnIs(items: seq<Item>, flow: string) returns (at: seq<nat>)
    ensures OwnSays(items, flow, at, Own(items, flow))
  {
    if items == [] {
      at := [];
    } else {
      var n := |items| - 1;
      at := OwnIs(items[..n], flow);
      if items[n].flow == flow && items[n].kind != FlowItem { at := at + [n]; }
    }
  }

  /** The view of every flow, position by position, over the view of its parent. */
  lemma ViewIsItsItems(items: seq<Item>, fx: Index, flow: string)
    requires ParentsFirst(fx)
    ensures flow != "" && flow in fx.byId ==> Rank(fx, fx.Get(flow).parent) < Rank(fx, flow)
    ensures var above := if flow != "" && flow in fx.byId then Seen(items, fx, fx.Get(flow).parent) else [];
      ViewSays(items, fx, flow, above, Seen(items, fx, flow))
  {
    if flow == "" {
      var at := MainIs(items, fx);
    } else if flow in fx.byId {
      assert ParentFirst(fx, fx.byId[flow]);
      var above := Seen(items, fx, fx.Get(flow).parent);
      var kept := InheritedIs(above, fx.Get(flow).stale);
      var own := OwnIs(items, flow);
      var view := Seen(items, fx, flow);
      assert view[..|kept|] == Inherited(above, fx.Get(flow).stale) && view[|kept|..] == Own(items, flow);
    }
  }

  // ---- the rivals of a branch

  // The branches that are picked out, in the order of the list.
  ghost predicate IdsAt(list: seq<Flow>, hits: seq<bool>, at: seq<nat>, ids: seq<string>) {
    |hits| == |list| && Ascending(at) && |ids| == |at| && (forall k :: 0 <= k < |at| ==> at[k] < |list| && ids[k] == list[at[k]].id) &&
    forall i: nat :: i < |list| ==> (i in at <==> hits[i])
  }

  lemma IdAdded(list: seq<Flow>, hits: seq<bool>, n: nat, at: seq<nat>, ids: seq<string>)
    requires |list| == |hits| == n + 1 && IdsAt(list[..n], hits[..n], at, ids)
    ensures IdsAt(list, hits, if hits[n] then at + [n] else at, if hits[n] then ids + [list[n].id] else ids)
  {
  }

  /** The rivals of a branch stand in the order of the branches. */
  lemma {:induction false} RivalsInOrder(items: seq<Item>, openAt: map<string, nat>, decidedAt: map<string, nat>, list: seq<Flow>, f: Flow,
                                         hits: seq<bool>)
    returns (at: seq<nat>)
    requires |hits| == |list| && forall i :: 0 <= i < |list| ==> hits[i] == IsRival(items, openAt, decidedAt, f, list[i])
    ensures IdsAt(list, hits, at, Rivals(items, openAt, decidedAt, list, f))
  {
    if list == [] {
      at := [];
    } else {
      var n := |list| - 1;
      at := RivalsInOrder(items, openAt, decidedAt, list[..n], f, hits[..n]);
      IdAdded(list, hits, n, at, Rivals(items, openAt, decidedAt, list[..n], f));
      var before := Rivals(items, openAt, decidedAt, list[..n], f);
      assert Rivals(items, openAt, decidedAt, list, f) == if hits[n] then before + [list[n].id] else before;
      if hits[n] { at := at + [n]; }
    }
  }

  predicate InCommon(a: seq<string>, b: seq<string>) { exists s :: s in a && s in b }

  /** A branch competes with another when both replace one item or one run, or when it builds on what the other replaces. */
  lemma CompetesSays(items: seq<Item>, f: Flow, a: Flow)
    ensures Competes(items, f, a) <==>
            InCommon(f.stale, a.stale) || InCommon(f.staleRuns, a.staleRuns) ||
            exists i :: 0 <= i < |items| && items[i].flow == f.id && InCommon(items[i].derivedFrom, a.stale)
  {
    SharesSays(f.stale, a.stale);
    SharesSays(f.staleRuns, a.staleRuns);
    forall i | 0 <= i < |items| ensures Shares(items[i].derivedFrom, a.stale) <==> InCommon(items[i].derivedFrom, a.stale) {
      SharesSays(items[i].derivedFrom, a.stale);
    }
  }

  lemma SharesSays(a: seq<string>, b: seq<string>)
    ensures Shares(a, b) <==> InCommon(a, b)
  {
    if Shares(a, b) { var i :| 0 <= i < |a| && a[i] in b; }
    if InCommon(a, b) {
      var s :| s in a && s in b;
      var i :| 0 <= i < |a| && a[i] == s;
    }
  }

  /** A change lists its branches in order, each decided one without rivals, and marks the active option. */
  lemma ListedSays(items: seq<Item>, i: nat)
    requires i < |Listed(items)|
    ensures |Listed(items)| == |OpeningsAt(items, |items|)|
    ensures FlowSays(items, OpeningsAt(items, |items|)[i], |items|, Listed(items)[i].flow)
    ensures Listed(items)[i].flow.status != FlowOpen ==> Listed(items)[i].competesWith == []
    ensures Listed(items)[i].flow.id != "" ==> (Listed(items)[i].active <==> ActivatedLast(items, |items|, Listed(items)[i].flow.id))
  {
    BranchesAreTheirEvents(items, |items|);
    ActiveIsTheLast(items, |items|);
    assert items[..|items|] == items;
    var fx := Replay(items);
    assert fx.list[i].id in fx.byId && fx.byId[fx.list[i].id] == i;
    if fx.active in fx.byId && fx.byId[fx.active] == i { assert fx.list[i].id == fx.active; }
  }

  /** The state of a branch looks 64 branches up. */
  lemma StatusIsTheLine(fx: Index, id: string)
    requires fx.Sound()
    ensures Status(fx, id) == if StopsWithin(fx, id, 64) then FlowDiscarded else if OpenWithin(fx, id, 64) then FlowOpen else FlowAdopted
  {
    EffectiveIsTheLine(fx, id, MAX_HOPS);
  }
}
