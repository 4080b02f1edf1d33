// What the fold of the impact events keeps over whole logs: each impact evolves on its own, no acceptance survives an
// edit, and the stored review is the last one of the history.
module ReviewLaws {
  import opened Prelude
  import opened Domain
  import opened ImpactFold

  // ---- one impact among the others

  ghost predicate UniqueIds(impacts: seq<ChangeImpact>) {
    forall i, j :: 0 <= i < j < |impacts| ==> impacts[i].id != impacts[j].id
  }

  ghost function Find(impacts: seq<ChangeImpact>, id: string): Option<ChangeImpact> {
    if Position(impacts, id) < 0 then None else Some(impacts[Position(impacts, id)])
  }

  // What an event makes of the impact of an id, whatever the others are.
  ghost function Next(was: Option<ChangeImpact>, id: string, e: ImpactEvent): Option<ChangeImpact>
    requires e.Foldable()
  {
    if e.op == ImpactAdopted then (if was.None? then None else Some(Adopted(was.value, e.flow, e.stale)))
    else if e.impact != id then was
    else if e.op == ImpactProposed || e.op == ImpactCreated then Some(Declared(e))
    else if was.None? then None
    else Moved(was.value, e)
  }

  lemma MovedKeepsId(cn: ChangeImpact, e: ImpactEvent)
    requires e.Foldable() && Moved(cn, e).Some?
    ensures Moved(cn, e).value.id == cn.id
  {
  }

  lemma FoundAt(impacts: seq<ChangeImpact>, id: string, i: nat)
    requires UniqueIds(impacts) && i < |impacts| && impacts[i].id == id
    ensures Position(impacts, id) == i
  {
  }

  lemma FoundNowhere(impacts: seq<ChangeImpact>, id: string)
    requires forall i :: 0 <= i < |impacts| ==> impacts[i].id != id
    ensures Find(impacts, id) == None
  {
  }

  // Replacing or removing an impact touches no other.
  lemma PutKeepsUnique(impacts: seq<ChangeImpact>, at: nat, cn: Option<ChangeImpact>)
    requires UniqueIds(impacts) && at < |impacts| && (cn.Some? ==> cn.value.id == impacts[at].id)
    ensures UniqueIds(Put(impacts, at, cn))
  {
  }

  lemma PutIsPointwise(impacts: seq<ChangeImpact>, at: nat, cn: Option<ChangeImpact>, id: string)
    requires UniqueIds(impacts) && at < |impacts| && (cn.Some? ==> cn.value.id == impacts[at].id)
    ensures UniqueIds(Put(impacts, at, cn))
    ensures Find(Put(impacts, at, cn), id) == if id == impacts[at].id then cn else Find(impacts, id)
  {
    PutKeepsUnique(impacts, at, cn);
    FoundAt(impacts, impacts[at].id, at);
    if cn.Some? { ReplacedIsFound(impacts, at, cn.value, id); } else { RemovedIsGone(impacts, at, id); }
  }

  lemma ReplacedIsFound(impacts: seq<ChangeImpact>, at: nat, cn: ChangeImpact, id: string)
    requires UniqueIds(impacts) && at < |impacts| && cn.id == impacts[at].id
    ensures Find(impacts[at := cn], id) == if id == cn.id then Some(cn) else Find(impacts, id)
  {
    var i := Position(impacts, id);
    if i < 0 {
      FoundNowhere(impacts[at := cn], id);
    } else {
      FoundAt(impacts[at := cn], id, i);
    }
  }

  lemma RemovedIsGone(impacts: seq<ChangeImpact>, at: nat, id: string)
    requires UniqueIds(impacts) && at < |impacts|
    ensures Find(impacts[..at] + impacts[at + 1..], id) == if id == impacts[at].id then None else Find(impacts, id)
  {
    var out := impacts[..at] + impacts[at + 1..];
    var i := Position(impacts, id);
    PutKeepsUnique(impacts, at, None);
    if i < 0 || i == at {
      FoundNowhere(out, id);
    } else {
      FoundAt(out, id, if i > at then i - 1 else i);
    }
  }

  lemma AppendIsPointwise(impacts: seq<ChangeImpact>, cn: ChangeImpact, id: string)
    requires UniqueIds(impacts) && Find(impacts, cn.id).None?
    ensures UniqueIds(impacts + [cn])
    ensures Find(impacts + [cn], id) == if id == cn.id then Some(cn) else Find(impacts, id)
  {
    var i := Position(impacts, id);
    if id == cn.id {
      FoundAt(impacts + [cn], id, |impacts|);
    } else if i >= 0 {
      FoundAt(impacts + [cn], id, i);
    }
  }

  lemma AdoptionIsPointwise(impacts: seq<ChangeImpact>, flow: string, stale: seq<string>, id: string)
    requires UniqueIds(impacts)
    ensures UniqueIds(AdoptAll(impacts, flow, stale))
    ensures Find(AdoptAll(impacts, flow, stale), id) ==
            if Find(impacts, id).None? then None else Some(Adopted(Find(impacts, id).value, flow, stale))
  {
    var i := Position(impacts, id);
    if i >= 0 { FoundAt(AdoptAll(impacts, flow, stale), id, i); }
  }

  /** An event acts on each impact of the list as if it were alone, and the ids stay unique. */
  lemma StepIsPointwise(impacts: seq<ChangeImpact>, e: ImpactEvent, id: string)
    requires UniqueIds(impacts) && e.Foldable()
    ensures UniqueIds(Step(impacts, e))
    ensures Find(Step(impacts, e), id) == Next(Find(impacts, id), id, e)
  {
    var at := Position(impacts, e.impact);
    if e.op == ImpactAdopted {
      AdoptionIsPointwise(impacts, e.flow, e.stale, id);
    } else if e.op == ImpactProposed || e.op == ImpactCreated {
      if at >= 0 {
        PutIsPointwise(impacts, at, Some(Declared(e)), id);
      } else {
        AppendIsPointwise(impacts, Declared(e), id);
      }
    } else if at >= 0 {
      if Moved(impacts[at], e).Some? { MovedKeepsId(impacts[at], e); }
      PutIsPointwise(impacts, at, Moved(impacts[at], e), id);
    }
  }

  lemma {:induction false} FoldHasUniqueIds(events: seq<ImpactEvent>)
    requires FoldableLog(events)
    ensures UniqueIds(Fold(events))
  {
    if events != [] {
      FoldHasUniqueIds(events[..|events| - 1]);
      StepIsPointwise(Fold(events[..|events| - 1]), events[|events| - 1], "");
    }
  }

  lemma FoldGrows(events: seq<ImpactEvent>, id: string)
    requires FoldableLog(events) && events != []
    ensures Find(Fold(events), id) == Next(Find(Fold(events[..|events| - 1]), id), id, events[|events| - 1])
  {
    FoldHasUniqueIds(events[..|events| - 1]);
    StepIsPointwise(Fold(events[..|events| - 1]), events[|events| - 1], id);
  }

  // ---- an edit takes the verdict back

  lemma LastOnGrows(reviews: seq<Review>, r: Review, flow: string)
    ensures LastOn(reviews + [r], flow) == if CountsOn(r, flow) then Some(r.status) else LastOn(reviews, flow)
  {
    assert (reviews + [r])[..|reviews|] == reviews;
  }

  // What takes a verdict back: an edit, or the cancellation of a checkout that leaves a modification or a committed impact.
  predicate Reopens(cn: ChangeImpact, e: ImpactEvent) {
    e.op == ImpactUpdated ||
    (e.op == ImpactCancelled &&
     (cn.intent == IntentModified || (cn.committed.Some? && (e.post.Some? || OnOtherFlow(cn, e)))))
  }

  lemma EditedReopens(cn: ChangeImpact, e: ImpactEvent)
    ensures SeenOn(Edited(cn, e), e.flow) == ReviewProposed
    ensures e.flow != "" ==> Edited(cn, e).review == cn.review
    ensures forall flow :: flow != "" && flow != e.flow ==> LastOn(Edited(cn, e).reviews, flow) == LastOn(cn.reviews, flow)
  {
    if SeenOn(cn, e.flow) != ReviewProposed {
      var r := Edited(cn, e).reviews[|cn.reviews|];
      forall flow { LastOnGrows(cn.reviews, r, flow); }
    }
  }

  /**
   * After an edit on a flow, or a cancelled checkout of a modification or of a committed impact, the impact is proposed
   * again for that flow; one of a branch leaves main's review and every other flow's.
   */
  lemma EditReopens(impacts: seq<ChangeImpact>, e: ImpactEvent)
    requires UniqueIds(impacts) && e.Foldable() && Find(impacts, e.impact).Some? && Reopens(Find(impacts, e.impact).value, e)
    ensures Find(Step(impacts, e), e.impact).Some?
    ensures SeenOn(Find(Step(impacts, e), e.impact).value, e.flow) == ReviewProposed
    ensures e.flow != "" ==> Find(Step(impacts, e), e.impact).value.review == Find(impacts, e.impact).value.review
    ensures forall flow :: flow != "" && flow != e.flow ==>
      LastOn(Find(Step(impacts, e), e.impact).value.reviews, flow) == LastOn(Find(impacts, e.impact).value.reviews, flow)
  {
    StepIsPointwise(impacts, e, e.impact);
    var cn := Find(impacts, e.impact).value;
    EditedReopens(cn, e);
    EditedReopens(cn.(post := e.post), e);
  }

  // The event takes back what main said of the impact.
  predicate ReopensOnMain(was: Option<ChangeImpact>, e: ImpactEvent, id: string) {
    e.flow == "" && e.impact == id && was.Some? && Reopens(was.value, e)
  }

  ghost predicate MainEdit(events: seq<ImpactEvent>, i: nat, id: string)
    requires FoldableLog(events) && i < |events|
  {
    ReopensOnMain(Find(Fold(events[..i]), id), events[i], id)
  }

  // The event accepts the impact on the main flow: a review of it, or a declaration that starts accepted.
  predicate Accepts(e: ImpactEvent, id: string)
    requires e.Foldable()
  {
    e.impact == id &&
    ((e.op == ImpactReviewed && e.review.value.flow == "" && e.review.value.status == ReviewAccepted) ||
     ((e.op == ImpactProposed || e.op == ImpactCreated) && e.state.value.review == ReviewAccepted))
  }

  // The main flow shows the impact accepted.
  ghost predicate ShownAccepted(events: seq<ImpactEvent>, id: string)
    requires FoldableLog(events)
  {
    Find(Fold(events), id).Some? && Find(Fold(events), id).value.review == ReviewAccepted
  }

  lemma AcceptedByTheEvent(was: Option<ChangeImpact>, id: string, e: ImpactEvent)
    requires e.Foldable() && e.op != ImpactAdopted && Next(was, id, e).Some? && Next(was, id, e).value.review == ReviewAccepted
    ensures !ReopensOnMain(was, e, id)
    ensures Accepts(e, id) || (was.Some? && was.value.review == ReviewAccepted)
  {
  }

  lemma AcceptedByTheLast(events: seq<ImpactEvent>, id: string)
    requires FoldableLog(events) && events != [] && events[|events| - 1].op != ImpactAdopted && ShownAccepted(events, id)
    ensures !MainEdit(events, |events| - 1, id)
    ensures Accepts(events[|events| - 1], id) || ShownAccepted(events[..|events| - 1], id)
  {
    FoldGrows(events, id);
    AcceptedByTheEvent(Find(Fold(events[..|events| - 1]), id), id, events[|events| - 1]);
  }

  ghost predicate AcceptedAfter(events: seq<ImpactEvent>, id: string, edit: nat)
    requires FoldableLog(events)
  {
    exists i :: edit < i < |events| && Accepts(events[i], id)
  }

  // An edit of main that no adoption follows.
  ghost predicate EditedAt(events: seq<ImpactEvent>, id: string, edit: nat)
    requires FoldableLog(events)
  {
    edit < |events| && MainEdit(events, edit, id) && forall i :: edit < i < |events| ==> events[i].op != ImpactAdopted
  }

  lemma EditedBefore(events: seq<ImpactEvent>, id: string, edit: nat)
    requires FoldableLog(events) && EditedAt(events, id, edit) && edit < |events| - 1
    ensures EditedAt(events[..|events| - 1], id, edit)
  {
    assert events[..|events| - 1][..edit] == events[..edit];
  }

  // An impact shown accepted since an edit was accepted by the last event, or was shown accepted before it.
  lemma AcceptedOneBack(events: seq<ImpactEvent>, id: string, edit: nat)
    requires FoldableLog(events) && EditedAt(events, id, edit) && ShownAccepted(events, id)
    ensures edit < |events| - 1
    ensures Accepts(events[|events| - 1], id) ||
            (EditedAt(events[..|events| - 1], id, edit) && ShownAccepted(events[..|events| - 1], id))
  {
    AcceptedByTheLast(events, id);
    EditedBefore(events, id, edit);
  }

  lemma {:induction false} AcceptedSince(events: seq<ImpactEvent>, id: string, edit: nat) returns (i: nat)
    requires FoldableLog(events) && EditedAt(events, id, edit) && ShownAccepted(events, id)
    ensures edit < i < |events| && Accepts(events[i], id)
  {
    AcceptedOneBack(events, id, edit);
    i := |events| - 1;
    if !Accepts(events[i], id) { i := AcceptedSince(events[..i], id, edit); }
  }

  /**
   * An impact the main flow shows accepted was accepted after the last edit, or cancelled checkout, that reopened it there,
   * unless a flow was adopted since.
   */
  lemma NoAcceptanceSurvivesAnEdit(events: seq<ImpactEvent>, id: string, edit: nat)
    requires FoldableLog(events) && EditedAt(events, id, edit) && ShownAccepted(events, id)
    ensures AcceptedAfter(events, id, edit)
  {
    var i := AcceptedSince(events, id, edit);
  }

  // ---- the stored review is the last of the history

  ghost predicate Consistent(cn: ChangeImpact) { cn.superseded || cn.review == LastMain(cn.reviews) }

  // A log as the graph writes it: declarations start consistent, a review is recorded before any adoption replaces it,
  // and the candidate of a discarded flow is rejected on its flow.
  ghost predicate Recorded(e: ImpactEvent)
    requires e.Foldable()
  {
    match e.op
    case ImpactProposed => Consistent(e.state.value)
    case ImpactCreated => Consistent(e.state.value)
    case ImpactReviewed => !e.review.value.superseded
    case _ => true
  }

  ghost predicate NeverDiscarded(events: seq<ImpactEvent>, id: string) {
    forall i :: 0 <= i < |events| && events[i].op == ImpactDiscarded ==> events[i].impact != id
  }

  lemma EditedIsConsistent(cn: ChangeImpact, e: ImpactEvent)
    requires Consistent(cn)
    ensures Consistent(Edited(cn, e))
  {
    var edited := Edited(cn, e);
    if SeenOn(cn, e.flow) != ReviewProposed {
      LastOnGrows(cn.reviews, edited.reviews[|cn.reviews|], "");
    }
  }

  lemma NextIsConsistent(was: Option<ChangeImpact>, id: string, e: ImpactEvent)
    requires e.Foldable() && Recorded(e) && (e.op == ImpactDiscarded ==> e.impact != id)
    requires was.Some? ==> Consistent(was.value)
    ensures Next(was, id, e).Some? ==> Consistent(Next(was, id, e).value)
  {
    if was.Some? && e.impact == id {
      match e.op {
        case ImpactReviewed => LastOnGrows(was.value.reviews, e.review.value, "");
        case ImpactUpdated => EditedIsConsistent(was.value, e);
        case ImpactCancelled =>
          EditedIsConsistent(was.value, e);
          EditedIsConsistent(was.value.(post := e.post), e);
        case _ =>
      }
    }
  }

  /** Adoptions included, the review stored of an impact that still counts is the last one of its history on main. */
  lemma {:induction false} StoredReviewIsTheLast(events: seq<ImpactEvent>, id: string)
    requires FoldableLog(events) && (forall i :: 0 <= i < |events| ==> Recorded(events[i])) && NeverDiscarded(events, id)
    ensures Find(Fold(events), id).Some? ==> Consistent(Find(Fold(events), id).value)
  {
    if events != [] {
      var last := |events| - 1;
      StoredReviewIsTheLast(events[..last], id);
      FoldGrows(events, id);
      NextIsConsistent(Find(Fold(events[..last]), id), id, events[last]);
    }
  }

  /** The exception: the discard of a flow rejects its candidate, which its main history does not say. */
  lemma DiscardLeavesTheMainHistory(cn: ChangeImpact, e: ImpactEvent)
    requires e.Foldable() && e.op == ImpactDiscarded && !cn.superseded && !e.review.value.superseded
    ensures Moved(cn, e).Some? && Moved(cn, e).value.review == ReviewRejected
    ensures Consistent(Moved(cn, e).value) <==>
            (if e.review.value.flow == "" then e.review.value.status else LastMain(cn.reviews)) == ReviewRejected
  {
    LastOnGrows(cn.reviews, e.review.value, "");
  }
}
