// Branches that replace the same things (contracts/domain/flow.go): which flows compete, and what the adoption rule, that a
// flow is adopted only when it competes with none (graph/graph/flow.go), keeps of a log.
module Competition {
  import opened Prelude
  import opened Flows

  // ---- a longer log

  // The branches of a log are known in a longer one, invalidating the same things, and a decision on one stands.
  ghost predicate Later(fx: Index, g: Index)
    requires fx.Sound() && g.Sound()
  {
    forall id :: id in fx.byId ==> id in g.byId && SameBranch(fx.Get(id), g.Get(id))
  }

  predicate SameBranch(f: Flow, g: Flow) {
    g.id == f.id && g.parent == f.parent && g.stale == f.stale && g.staleRuns == f.staleRuns &&
    (f.status != FlowOpen ==> g.status == f.status)
  }

  // What an event makes of a branch that is known.
  function FlowAfter(f: Flow, it: Item): Flow {
    if it.kind != FlowItem || it.event.None? || it.event.value.flow != f.id || f.status != FlowOpen then f
    else match it.event.value.op
      case EvaluateOp => f.(evaluated := true, evaluation := it.event.value.comment)
      case AdoptOp => DecidedFlow(f, it, it.event.value)
      case DiscardOp => DecidedFlow(f, it, it.event.value)
      case _ => f
  }

  lemma OpeningKeeps(fx: Index, f: Flow, id: string)
    requires fx.Sound() && f.id !in fx.byId && id in fx.byId
    ensures var g := Index(fx.list + [f], fx.byId[f.id := |fx.list|], fx.active); id in g.byId && g.Get(id) == fx.Get(id)
  {
  }

  lemma ChangedKeeps(fx: Index, f: Flow, id: string)
    requires fx.Sound() && f.id in fx.byId && id in fx.byId
    ensures Changed(fx, f).byId == fx.byId && Changed(fx, f).Get(id) == if id == f.id then f else fx.Get(id)
  {
  }

  lemma OtherStep(fx: Index, it: Item, e: FlowEvent, id: string)
    requires fx.Sound() && it.kind == FlowItem && it.event == Some(e) && id in fx.byId && e.op != OpenOp
    ensures var g := Stepped(fx, it); g.Sound() && id in g.byId && g.Get(id) == FlowAfter(fx.Get(id), it)
  {
    SteppedIsSound(fx, it);
    if IsOpen(fx, e.flow) && e.op == EvaluateOp {
      ChangedKeeps(fx, fx.Get(e.flow).(evaluated := true, evaluation := e.comment), id);
    } else if IsOpen(fx, e.flow) && (e.op == AdoptOp || e.op == DiscardOp) {
      ChangedKeeps(fx, DecidedFlow(fx.Get(e.flow), it, e), id);
    }
  }

  lemma StepOnFlow(fx: Index, it: Item, id: string)
    requires fx.Sound() && id in fx.byId
    ensures var g := Stepped(fx, it); g.Sound() && id in g.byId && g.Get(id) == FlowAfter(fx.Get(id), it)
  {
    SteppedIsSound(fx, it);
    if it.kind == FlowItem && it.event.Some? {
      var e := it.event.value;
      if e.op != OpenOp { OtherStep(fx, it, e, id); } else if e.flow !in fx.byId { OpeningKeeps(fx, Opened(it, e), id); }
    }
  }

  lemma StepIsLater(fx: Index, it: Item)
    requires fx.Sound()
    ensures Stepped(fx, it).Sound() && Later(fx, Stepped(fx, it))
  {
    SteppedIsSound(fx, it);
    forall id | id in fx.byId ensures id in Stepped(fx, it).byId && SameBranch(fx.Get(id), Stepped(fx, it).Get(id)) {
      StepOnFlow(fx, it, id);
    }
  }

  lemma LaterAgain(f: Index, g: Index, h: Index)
    requires f.Sound() && g.Sound() && h.Sound() && Later(f, g) && Later(g, h)
    ensures Later(f, h)
  {
  }

  lemma ReplayOf(items: seq<Item>, n: nat)
    requires n < |items|
    ensures Replay(items[..n + 1]) == Stepped(Replay(items[..n]), items[n])
  {
    assert items[..n + 1][..n] == items[..n];
  }

  lemma {:induction false} PrefixLater(items: seq<Item>, p: nat, q: nat)
    requires p <= q <= |items|
    ensures Later(Replay(items[..p]), Replay(items[..q]))
    decreases q
  {
    if p < q {
      var n := q - 1;
      PrefixLater(items, p, n);
      ReplayOf(items, n);
      StepIsLater(Replay(items[..n]), items[n]);
      LaterAgain(Replay(items[..p]), Replay(items[..n]), Replay(items[..q]));
    }
  }

  // ---- where a branch was opened and decided

  predicate OpensFlow(fx: Index, it: Item, id: string) { IsOpening(fx, it) && it.event.value.flow == id }

  predicate DecidesFlow(fx: Index, it: Item, id: string) { IsDecision(fx, it) && it.event.value.flow == id }

  predicate Adopts(fx: Index, it: Item, id: string) { DecidesFlow(fx, it, id) && it.event.value.op == AdoptOp }

  // After an event, a flow is known when it was or when the event opened it, and decided when it was or was just.
  lemma StepOpens(fx: Index, it: Item, id: string)
    requires fx.Sound()
    ensures id in Stepped(fx, it).byId <==> id in fx.byId || OpensFlow(fx, it, id)
  {
  }

  predicate IsDecided(fx: Index, id: string) { id in fx.byId && fx.byId[id] < |fx.list| && fx.Get(id).status != FlowOpen }

  lemma StepDecides(fx: Index, it: Item, id: string)
    requires fx.Sound()
    ensures IsDecided(Stepped(fx, it), id) <==> IsDecided(fx, id) || DecidesFlow(fx, it, id)
    ensures DecidesFlow(fx, it, id) ==> id in Stepped(fx, it).byId && Stepped(fx, it).byId[id] < |Stepped(fx, it).list|
    ensures DecidesFlow(fx, it, id) ==> (Stepped(fx, it).Get(id).status == FlowAdopted <==> Adopts(fx, it, id))
  {
    StepOpens(fx, it, id);
    if id in fx.byId { StepOnFlow(fx, it, id); } else if OpensFlow(fx, it, id) { OpenedIsOpen(fx, it, id); }
  }

  lemma OpenedIsOpen(fx: Index, it: Item, id: string)
    requires fx.Sound() && OpensFlow(fx, it, id)
    ensures IsOpen(Stepped(fx, it), id)
  {
  }

  lemma {:induction false} OpeningIs(items: seq<Item>, id: string)
    ensures id in Openings(items) <==> id in Replay(items).byId
    ensures id in Openings(items) ==>
              Openings(items)[id] < |items| && OpensFlow(Replay(items[..Openings(items)[id]]), items[Openings(items)[id]], id)
  {
    if items != [] {
      var n := |items| - 1;
      OpeningIs(items[..n], id);
      StepOpens(Replay(items[..n]), items[n], id);
      assert forall k: nat :: k <= n ==> items[..n][..k] == items[..k];
    }
  }

  lemma {:induction false} DecisionIs(items: seq<Item>, id: string)
    ensures id in Decisions(items) <==> IsDecided(Replay(items), id)
    ensures id in Decisions(items) ==>
              Decisions(items)[id] < |items| && DecidesFlow(Replay(items[..Decisions(items)[id]]), items[Decisions(items)[id]], id)
  {
    if items != [] {
      var n := |items| - 1;
      DecisionIs(items[..n], id);
      StepDecides(Replay(items[..n]), items[n], id);
      assert forall k: nat :: k <= n ==> items[..n][..k] == items[..k];
    }
  }

  ghost predicate Adopted(fx: Index, id: string) { id in fx.byId && fx.byId[id] < |fx.list| && fx.Get(id).status == FlowAdopted }

  lemma DecidedOnce(items: seq<Item>, p: nat, q: nat, id: string)
    requires p < |items| && DecidesFlow(Replay(items[..p]), items[p], id)
    requires q < |items| && DecidesFlow(Replay(items[..q]), items[q], id)
    ensures q <= p
  {
    if p < q {
      ReplayOf(items, p);
      StepDecides(Replay(items[..p]), items[p], id);
      PrefixLater(items, p + 1, q);
    }
  }

  // A flow decided somewhere in a log is adopted at its end exactly when the decision adopts it.
  lemma DecisionStands(items: seq<Item>, p: nat, id: string)
    requires p < |items| && DecidesFlow(Replay(items[..p]), items[p], id)
    ensures Adopted(Replay(items), id) <==> Adopts(Replay(items[..p]), items[p], id)
  {
    ReplayOf(items, p);
    StepDecides(Replay(items[..p]), items[p], id);
    PrefixLater(items, p + 1, |items|);
    WholePrefix(items);
  }

  // An adopted flow was adopted where its decision is.
  lemma AdoptionIs(items: seq<Item>, id: string)
    requires Adopted(Replay(items), id)
    ensures id in Decisions(items) && Decisions(items)[id] < |items|
    ensures Adopts(Replay(items[..Decisions(items)[id]]), items[Decisions(items)[id]], id)
  {
    DecisionIs(items, id);
    DecisionStands(items, Decisions(items)[id], id);
  }

  // A flow is known at the positions after the one it was opened at.
  lemma KnownSince(items: seq<Item>, id: string, p: nat)
    requires id in Openings(items) && p <= |items|
    ensures id in Replay(items[..p]).byId <==> Openings(items)[id] < p
  {
    OpeningIs(items, id);
    var o := Openings(items)[id];
    if o < p {
      ReplayOf(items, o);
      StepOpens(Replay(items[..o]), items[o], id);
      PrefixLater(items, o + 1, p);
    } else {
      PrefixLater(items, p, o);
    }
  }

  // ---- which flows compete

  ghost predicate AdoptedAt(items: seq<Item>, p: nat, f: string, a: string) {
    p < |items| && f in Replay(items[..p]).byId && Adopts(Replay(items[..p]), items[p], a)
  }

  // A flow was adopted when another was open or decided already.
  ghost predicate AdoptedSince(items: seq<Item>, f: string, a: string) { exists p: nat :: AdoptedAt(items, p, f, a) }

  lemma AdoptedSinceIs(items: seq<Item>, f: string, a: string)
    requires f in Replay(items).byId && Adopted(Replay(items), a)
    ensures AdoptedSince(items, f, a) <==> PositionIn(Decisions(items), a) >= PositionIn(Openings(items), f)
  {
    OpeningIs(items, f);
    AdoptionIs(items, a);
    var p, o := Decisions(items)[a], Openings(items)[f];
    KnownSince(items, f, p);
    if p >= o {
      assert p != o;
      assert AdoptedAt(items, p, f, a);
    }
    if AdoptedSince(items, f, a) {
      var q: nat :| AdoptedAt(items, q, f, a);
      DecidedOnce(items, p, q, a);
      DecidedOnce(items, q, p, a);
    }
  }

  lemma {:induction false} RivalsAre(items: seq<Item>, openAt: map<string, nat>, decidedAt: map<string, nat>, list: seq<Flow>,
                                     f: Flow, id: string)
    ensures id in Rivals(items, openAt, decidedAt, list, f) <==>
            exists j :: 0 <= j < |list| && list[j].id == id && IsRival(items, openAt, decidedAt, f, list[j])
  {
    if list != [] {
      var n := |list| - 1;
      RivalsAre(items, openAt, decidedAt, list[..n], f, id);
      assert forall j :: 0 <= j < n ==> list[..n][j] == list[j];
    }
  }

  // Over a log, two flows compete: the one open, the other adopted since, what they replace or build on in common.
  ghost predicate CompeteIn(items: seq<Item>, f: string, a: string) {
    var fx := Replay(items);
    IsOpen(fx, f) && Adopted(fx, a) && AdoptedSince(items, f, a) && Competes(items, fx.Get(f), fx.Get(a))
  }

  /** A listed flow competes exactly with the flows adopted since its opening that replace what it replaces or builds on. */
  lemma CompetesExactly(items: seq<Item>, i: nat, a: string)
    requires i < |Listed(items)|
    ensures a in Listed(items)[i].competesWith <==> CompeteIn(items, Listed(items)[i].flow.id, a)
  {
    var fx := Replay(items);
    var f := fx.list[i];
    RivalsAre(items, Openings(items), Decisions(items), fx.list, f, a);
    if f.status == FlowOpen && Adopted(fx, a) { AdoptedSinceIs(items, f.id, a); }
  }

  // ---- competition lasts

  lemma SincePrefix(items: seq<Item>, more: seq<Item>, f: string, a: string)
    requires AdoptedSince(items, f, a)
    ensures AdoptedSince(items + more, f, a)
  {
    var p: nat :| AdoptedAt(items, p, f, a);
    assert (items + more)[..p] == items[..p];
    assert AdoptedAt(items + more, p, f, a);
  }

  lemma BuildsOnStill(items: seq<Item>, more: seq<Item>, flow: string, stale: seq<string>)
    ensures BuildsOn(items, flow, stale) ==> BuildsOn(items + more, flow, stale)
  {
    if BuildsOn(items, flow, stale) {
      var i :| 0 <= i < |items| && items[i].flow == flow && Shares(items[i].derivedFrom, stale);
      assert (items + more)[i] == items[i];
    }
  }

  lemma CompetesStill(items: seq<Item>, more: seq<Item>, f: Flow, a: Flow, g: Flow, b: Flow)
    requires Competes(items, f, a) && SameBranch(f, g) && SameBranch(a, b)
    ensures Competes(items + more, g, b)
  {
    BuildsOnStill(items, more, f.id, a.stale);
  }

  lemma LogIsLater(items: seq<Item>, more: seq<Item>)
    ensures Later(Replay(items), Replay(items + more))
  {
    PrefixLater(items + more, |items|, |items + more|);
    WholePrefix(items + more);
    assert (items + more)[..|items|] == items;
  }

  /** A flow that competes with an adopted one competes with it in every extension of the log, until it is decided. */
  lemma CompetitionLasts(items: seq<Item>, more: seq<Item>, f: string, a: string)
    requires CompeteIn(items, f, a)
    ensures CompeteIn(items + more, f, a) || IsDecided(Replay(items + more), f)
  {
    LogIsLater(items, more);
    SincePrefix(items, more, f, a);
    var fx, g := Replay(items), Replay(items + more);
    CompetesStill(items, more, fx.Get(f), fx.Get(a), g.Get(f), g.Get(a));
  }

  // ---- what the adoption rule keeps

  // An event that adopts a flow finds it competing with none, its parent adopted.
  ghost predicate MayFollow(log: seq<Item>, it: Item) {
    var fx := Replay(log);
    IsDecision(fx, it) && it.event.value.op == AdoptOp ==>
      var f := fx.Get(it.event.value.flow);
      Listed(log)[fx.byId[f.id]].competesWith == [] && (f.parent != "" ==> Status(fx, f.parent) == FlowAdopted)
  }

  ghost predicate Guarded(items: seq<Item>) { forall p: nat :: p < |items| ==> MayFollow(items[..p], items[p]) }

  // When a flow is adopted, it competes with no flow adopted since it was opened.
  lemma AdoptedAlone(items: seq<Item>, p: nat, f: string, a: string)
    requires Guarded(items) && p < |items| && Adopts(Replay(items[..p]), items[p], f)
    ensures !CompeteIn(items[..p], f, a)
  {
    assert MayFollow(items[..p], items[p]);
    CompetesExactly(items[..p], Replay(items[..p]).byId[f], a);
  }

  // A flow adopted by the end of a log that was open with another was adopted since the other was opened.
  lemma AdoptedAfter(log: seq<Item>, q: nat, f: string, a: string)
    requires q <= |log| && f in Replay(log[..q]).byId && IsOpen(Replay(log[..q]), a) && Adopted(Replay(log), a)
    ensures AdoptedSince(log, f, a)
  {
    AdoptionIs(log, a);
    var r := Decisions(log)[a];
    if r < q {
      ReplayOf(log, r);
      StepDecides(Replay(log[..r]), log[r], a);
      PrefixLater(log, r + 1, q);
    }
    PrefixLater(log, q, r);
    assert AdoptedAt(log, r, f, a);
  }

  // Of two flows open together and both adopted, the one adopted last does not compete with the other when it is adopted.
  lemma LastDoesNotCompete(items: seq<Item>, q: nat, p: nat, f: string, a: string)
    requires Guarded(items) && q <= p < |items| && Adopts(Replay(items[..p]), items[p], f)
    requires IsOpen(Replay(items[..q]), f) && IsOpen(Replay(items[..q]), a) && Adopted(Replay(items[..p]), a)
    ensures var fx := Replay(items[..p]); a in fx.byId && f in fx.byId && !Competes(items[..p], fx.Get(f), fx.Get(a))
  {
    assert items[..p][..q] == items[..q];
    AdoptedAfter(items[..p], q, f, a);
    AdoptedAlone(items, p, f, a);
  }

  lemma SharesBoth(a: seq<string>, b: seq<string>)
    ensures Shares(a, b) <==> Shares(b, a)
  {
    if i :| 0 <= i < |a| && a[i] in b {
      var j :| 0 <= j < |b| && b[j] == a[i];
      assert b[j] in a;
    }
    if j :| 0 <= j < |b| && b[j] in a {
      var i :| 0 <= i < |a| && a[i] == b[j];
      assert a[i] in b;
    }
  }

  predicate ReplaceAlike(f: Flow, a: Flow) { Shares(f.stale, a.stale) || Shares(f.staleRuns, a.staleRuns) }

  // The same, read at the end of the log.
  lemma LastReplacesApart(items: seq<Item>, q: nat, p: nat, f: string, a: string)
    requires Guarded(items) && q <= p < |items| && Adopts(Replay(items[..p]), items[p], f)
    requires IsOpen(Replay(items[..q]), f) && IsOpen(Replay(items[..q]), a) && Adopted(Replay(items[..p]), a)
    ensures var fx := Replay(items); a in fx.byId && f in fx.byId && !ReplaceAlike(fx.Get(f), fx.Get(a))
  {
    LastDoesNotCompete(items, q, p, f, a);
    PrefixLater(items, p, |items|);
    WholePrefix(items);
  }

  // An open flow at a moment of a log that adopts it was adopted from that moment on.
  lemma AdoptedFrom(items: seq<Item>, q: nat, id: string)
    requires q <= |items| && IsOpen(Replay(items[..q]), id) && Adopted(Replay(items), id)
    ensures id in Decisions(items) && q <= Decisions(items)[id] < |items|
    ensures Adopts(Replay(items[..Decisions(items)[id]]), items[Decisions(items)[id]], id)
  {
    AdoptionIs(items, id);
    var p := Decisions(items)[id];
    if p < q {
      ReplayOf(items, p);
      StepDecides(Replay(items[..p]), items[p], id);
      PrefixLater(items, p + 1, q);
    }
  }

  lemma AdoptedBefore(items: seq<Item>, r: nat, p: nat, id: string)
    requires r < p <= |items| && Adopts(Replay(items[..r]), items[r], id)
    ensures Adopted(Replay(items[..p]), id)
  {
    assert items[..p][..r] == items[..r];
    DecisionStands(items[..p], r, id);
  }

  /**
   * In a log whose adoptions the graph allowed, two flows that were open together and are both adopted by its end
   * invalidate no item and no run in common: what one replaced the other did not.
   */
  lemma NothingIsReplacedTwice(items: seq<Item>, q: nat, f: string, a: string)
    requires Guarded(items) && q <= |items| && f != a
    requires IsOpen(Replay(items[..q]), f) && IsOpen(Replay(items[..q]), a)
    requires Adopted(Replay(items), f) && Adopted(Replay(items), a)
    ensures !ReplaceAlike(Replay(items).Get(f), Replay(items).Get(a))
  {
    AdoptedFrom(items, q, f);
    AdoptedFrom(items, q, a);
    var p, r := Decisions(items)[f], Decisions(items)[a];
    if r < p {
      AdoptedBefore(items, r, p, a);
      LastReplacesApart(items, q, p, f, a);
    } else {
      assert r != p;
      AdoptedBefore(items, p, r, f);
      LastReplacesApart(items, q, r, a, f);
      SharesBoth(Replay(items).Get(f).stale, Replay(items).Get(a).stale);
      SharesBoth(Replay(items).Get(f).staleRuns, Replay(items).Get(a).staleRuns);
    }
  }

  // ---- what is adopted counts, what is worked on is open

  ghost predicate ParentAdopted(fx: Index, id: string) {
    Adopted(fx, id) ==> fx.Get(id).parent == "" || Adopted(fx, fx.Get(id).parent)
  }

  // A parent that is in effect is adopted itself.
  lemma EffectiveIsAdopted(fx: Index, id: string)
    requires fx.Sound() && id != "" && Status(fx, id) == FlowAdopted
    ensures Adopted(fx, id)
  {
  }

  lemma StepAdopts(log: seq<Item>, it: Item, id: string)
    requires MayFollow(log, it) && ParentAdopted(Replay(log), id)
    ensures ParentAdopted(Stepped(Replay(log), it), id)
  {
    var fx, g := Replay(log), Stepped(Replay(log), it);
    StepIsLater(fx, it);
    StepOpens(fx, it, id);
    StepDecides(fx, it, id);
    if OpensFlow(fx, it, id) {
      OpenedIsOpen(fx, it, id);
    } else if Adopts(fx, it, id) && fx.Get(id).parent != "" {
      EffectiveIsAdopted(fx, fx.Get(id).parent);
    }
  }

  lemma GuardedBefore(items: seq<Item>)
    requires Guarded(items) && items != []
    ensures Guarded(items[..|items| - 1]) && MayFollow(items[..|items| - 1], items[|items| - 1])
  {
    assert forall p: nat :: p < |items| - 1 ==> items[..|items| - 1][..p] == items[..p];
  }

  lemma {:induction false} ParentsAreAdopted(items: seq<Item>, id: string)
    requires Guarded(items)
    ensures ParentAdopted(Replay(items), id)
  {
    if items != [] {
      var n := |items| - 1;
      GuardedBefore(items);
      ParentsAreAdopted(items[..n], id);
      StepAdopts(items[..n], items[n], id);
    }
  }

  /** In a log whose adoptions the graph allowed, an adopted flow is in effect, however deep it was opened. */
  lemma {:induction false} AdoptedIsInEffect(items: seq<Item>, id: string, hops: nat)
    requires Guarded(items) && Adopted(Replay(items), id)
    ensures Effective(Replay(items), id, hops) == FlowAdopted
    decreases hops
  {
    ParentsAreAdopted(items, id);
    var parent := Replay(items).Get(id).parent;
    if hops > 0 && parent != "" { AdoptedIsInEffect(items, parent, hops - 1); }
  }

  ghost predicate ActiveIsOption(fx: Index) {
    fx.active == "" || (IsOpen(fx, fx.active) && fx.Get(fx.active).option.Some?)
  }

  lemma StepActive(fx: Index, it: Item)
    requires fx.Sound() && ActiveIsOption(fx)
    ensures Stepped(fx, it).Sound() && ActiveIsOption(Stepped(fx, it))
  {
    SteppedIsSound(fx, it);
    if fx.active != "" { StepOnFlow(fx, it, fx.active); }
  }

  lemma {:induction false} ActiveIsAnOption(items: seq<Item>)
    ensures ActiveIsOption(Replay(items))
  {
    if items != [] {
      ActiveIsAnOption(items[..|items| - 1]);
      StepActive(Replay(items[..|items| - 1]), items[|items| - 1]);
    }
  }

  /** Over any log at most one listed flow is active, and it is an option still open. */
  lemma OneActiveOption(items: seq<Item>, i: nat, j: nat)
    requires i < |Listed(items)| && j < |Listed(items)| && Listed(items)[i].active
    ensures Listed(items)[j].active <==> i == j
    ensures Listed(items)[i].flow.id != "" ==>
              Listed(items)[i].flow.status == FlowOpen && Listed(items)[i].flow.option.Some?
  {
    ActiveIsAnOption(items);
  }
}
