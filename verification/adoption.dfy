// What a flow sees of the change impacts (contracts/domain/impactevent.go, seenBy and flowPost), and the adoption
// theorem: adopting a branch makes the main flow what the branch saw.
module Adoption {
  import opened Prelude
  import opened Domain
  import opened ImpactFold
  import opened ReviewLaws

  // ---- the view of a flow

  predicate Stale(execution: string, stale: set<string>) { execution != "" && execution in stale }

  predicate Hidden(cn: ChangeImpact, chain: seq<string>, stale: set<string>) {
    cn.superseded || (cn.flow != "" && cn.flow !in chain) || (chain != [] && Stale(cn.execution, stale))
  }

  predicate Passed(r: Review, chain: seq<string>, stale: set<string>) {
    r.superseded || (r.flow != "" && r.flow !in chain) || Stale(r.execution, stale)
  }

  // The last review of a history the chain does not pass over.
  ghost function LastSeen(reviews: seq<Review>, chain: seq<string>, stale: set<string>): NodeReview {
    if reviews == [] then ReviewProposed
    else if Passed(reviews[|reviews| - 1], chain, stale) then LastSeen(reviews[..|reviews| - 1], chain, stale)
    else reviews[|reviews| - 1].status
  }

  ghost function SeenAs(cn: ChangeImpact, events: seq<ImpactEvent>, chain: seq<string>, stale: set<string>): ChangeImpact {
    if chain == [] then cn
    else cn.(post := PostSeen(events, cn.id, chain, stale), review := LastSeen(cn.reviews, chain, stale))
  }

  ghost function Seen(impacts: seq<ChangeImpact>, events: seq<ImpactEvent>, chain: seq<string>, stale: set<string>)
    : seq<ChangeImpact>
  {
    if impacts == [] then []
    else
      var last := impacts[|impacts| - 1];
      Seen(impacts[..|impacts| - 1], events, chain, stale)
      + if Hidden(last, chain, stale) then [] else [SeenAs(last, events, chain, stale)]
  }

  method SeenBy(impacts: seq<ChangeImpact>, events: seq<ImpactEvent>, chain: seq<string>, stale: set<string>)
    returns (out: seq<ChangeImpact>)
    ensures out == Seen(impacts, events, chain, stale)
  {
    out := [];
    for i := 0 to |impacts|
      invariant out == Seen(impacts[..i], events, chain, stale)
    {
      assert impacts[..i + 1][..i] == impacts[..i];
      var cn := impacts[i];
      if cn.superseded || (cn.flow != "" && cn.flow !in chain) || (|chain| > 0 && Stale(cn.execution, stale)) {
        continue;
      }
      if |chain| == 0 {
        out := out + [cn];
        continue;
      }
      var post := FlowPost(events, cn.id, chain, stale);
      var review := ReviewProposed;
      for j := 0 to |cn.reviews|
        invariant review == LastSeen(cn.reviews[..j], chain, stale)
      {
        assert cn.reviews[..j + 1][..j] == cn.reviews[..j];
        var r := cn.reviews[j];
        if r.superseded || (r.flow != "" && r.flow !in chain) || Stale(r.execution, stale) {
          continue;
        }
        review := r.status;
      }
      assert cn.reviews[..|cn.reviews|] == cn.reviews;
      out := out + [cn.(post := post, review := review)];
    }
    assert impacts[..|impacts|] == impacts;
  }

  // ---- the post a chain sees

  predicate MovesPost(e: ImpactEvent, id: string) { (e.op.WritesPost() || e.op == ImpactCancelled) && e.impact == id }

  // The post the runs of a flow that stand left last; a cancelled checkout leaves none, whoever cancels it.
  ghost function PostOn(events: seq<ImpactEvent>, id: string, flow: string, stale: set<string>): Option<NodeRef> {
    if events == [] then None
    else
      var e := events[|events| - 1];
      var before := PostOn(events[..|events| - 1], id, flow, stale);
      if !MovesPost(e, id) || e.flow != flow then before
      else if e.op == ImpactCancelled && e.post.None? then None
      else if Stale(e.execution, stale) then before
      else e.post
  }

  // The innermost flow that has one.
  ghost function PostAlong(events: seq<ImpactEvent>, id: string, order: seq<string>, stale: set<string>): Option<NodeRef> {
    if order == [] then None
    else if PostOn(events, id, order[0], stale).Some? then PostOn(events, id, order[0], stale)
    else PostAlong(events, id, order[1..], stale)
  }

  ghost function PostSeen(events: seq<ImpactEvent>, id: string, chain: seq<string>, stale: set<string>): Option<NodeRef> {
    PostAlong(events, id, chain + [""], stale)
  }

  method FlowPost(events: seq<ImpactEvent>, id: string, chain: seq<string>, stale: set<string>) returns (post: Option<NodeRef>)
    ensures post == PostSeen(events, id, chain, stale)
  {
    var last: map<string, Option<NodeRef>> := map[];
    for i := 0 to |events|
      invariant forall f :: f in chain + [""] ==> (if f in last then last[f] else None) == PostOn(events[..i], id, f, stale)
    {
      assert events[..i + 1][..i] == events[..i];
      var e := events[i];
      if (!e.op.WritesPost() && e.op != ImpactCancelled) || e.impact != id {
        continue;
      }
      if e.flow == "" && !Stale(e.execution, stale) {
        last := last["" := e.post];
      } else if e.flow != "" && e.flow in chain && !Stale(e.execution, stale) {
        last := last[e.flow := e.post];
      }
      if e.op == ImpactCancelled && e.post.None? {
        last := last - {e.flow};
      }
    }
    assert events[..|events|] == events;
    var order := chain + [""];
    for i := 0 to |order|
      invariant PostAlong(events, id, order, stale) == PostAlong(events, id, order[i..], stale)
    {
      if order[i] in last && last[order[i]].Some? {
        return last[order[i]];
      }
      assert order[i..][1..] == order[i + 1..];
    }
    return None;
  }

  // ---- adoption

  function AsSet(stale: seq<string>): set<string> { set x | x in stale }

  // The reviews of an impact a view counts, whichever flow made them.
  ghost function Counted(reviews: seq<Review>, chain: seq<string>, stale: set<string>): seq<Review> {
    if reviews == [] then []
    else
      var last := reviews[|reviews| - 1];
      Counted(reviews[..|reviews| - 1], chain, stale)
      + if Passed(last, chain, stale) then [] else [last.(flow := "")]
  }

  // What a view shows of its impacts: which ones, in order, under which review, with which history.
  datatype Card = Card(id: string, review: NodeReview, history: seq<Review>)

  ghost function Shown(view: seq<ChangeImpact>, chain: seq<string>, stale: set<string>): seq<Card> {
    if view == [] then []
    else
      var cn := view[|view| - 1];
      Shown(view[..|view| - 1], chain, stale) + [Card(cn.id, cn.review, Counted(cn.reviews, chain, stale))]
  }

  // The work of the flow itself that still counts does not come from a run the flow replaces.
  ghost predicate ReviewStands(r: Review, flow: string, stale: set<string>) {
    CountsOn(r, flow) ==> !Stale(r.execution, stale)
  }

  ghost predicate OwnReviewsStand(reviews: seq<Review>, flow: string, stale: set<string>) {
    forall r :: r in reviews ==> ReviewStands(r, flow, stale)
  }

  ghost predicate ImpactStands(cn: ChangeImpact, flow: string, stale: set<string>) {
    !cn.superseded ==>
      (cn.flow == flow ==> !Stale(cn.execution, stale)) &&
      (!Hidden(cn, [flow], stale) ==> OwnReviewsStand(cn.reviews, flow, stale))
  }

  ghost predicate OwnWorkStands(impacts: seq<ChangeImpact>, flow: string, stale: set<string>) {
    forall cn :: cn in impacts ==> ImpactStands(cn, flow, stale)
  }

  // One review: main counts it after the adoption if the branch did, or if it is the branch's own from a stale run.
  lemma AdoptedReview(r: Review, flow: string, stale: seq<string>)
    requires flow != ""
    ensures var a := AdoptReview(r, flow, stale);
      (Passed(a, [], {}) <==> Passed(r, [flow], AsSet(stale)) && !(CountsOn(r, flow) && Stale(r.execution, AsSet(stale)))) &&
      (!Passed(a, [], {}) ==> a.(flow := "") == r.(flow := ""))
  {
  }

  // Two lists grow alike: a shorter one never catches up with a longer one.
  lemma GrowAlike<T>(main: seq<T>, branch: seq<T>, m: seq<T>, b: seq<T>)
    requires |main| >= |branch| && |b| <= |m| <= 1
    ensures |main + m| >= |branch + b|
    ensures main + m == branch + b <==> main == branch && m == b
  {
    if main + m == branch + b {
      assert |main| == |branch|;
      assert (main + m)[..|main|] == main && (branch + b)[..|branch|] == branch;
      assert (main + m)[|main|..] == m && (branch + b)[|branch|..] == b;
    }
  }

  ghost function IfCounted(r: Review, chain: seq<string>, stale: set<string>): seq<Review> {
    if Passed(r, chain, stale) then [] else [r.(flow := "")]
  }

  lemma CountedGrows(rest: seq<Review>, r: Review, chain: seq<string>, stale: set<string>)
    ensures Counted(rest + [r], chain, stale) == Counted(rest, chain, stale) + IfCounted(r, chain, stale)
  {
    assert (rest + [r])[..|rest|] == rest;
  }

  lemma AdoptedSnoc(rs: seq<Review>, r: Review, flow: string, stale: seq<string>)
    ensures AdoptReviews(rs + [r], flow, stale) == AdoptReviews(rs, flow, stale) + [AdoptReview(r, flow, stale)]
    ensures OwnReviewsStand(rs + [r], flow, AsSet(stale))
       <==> OwnReviewsStand(rs, flow, AsSet(stale)) && ReviewStands(r, flow, AsSet(stale))
  {
    assert r in rs + [r];
  }

  lemma {:induction false} AdoptedReviews(rs: seq<Review>, flow: string, stale: seq<string>)
    requires flow != ""
    ensures |Counted(AdoptReviews(rs, flow, stale), [], {})| >= |Counted(rs, [flow], AsSet(stale))|
    ensures Counted(AdoptReviews(rs, flow, stale), [], {}) == Counted(rs, [flow], AsSet(stale))
       <==> OwnReviewsStand(rs, flow, AsSet(stale))
  {
    if rs != [] {
      var n := |rs| - 1;
      AdoptedReviews(rs[..n], flow, stale);
      AdoptedReview(rs[n], flow, stale);
      var rest, a := AdoptReviews(rs[..n], flow, stale), AdoptReview(rs[n], flow, stale);
      LastSplits(rs);
      AdoptedSnoc(rs[..n], rs[n], flow, stale);
      CountedGrows(rest, a, [], {});
      CountedGrows(rs[..n], rs[n], [flow], AsSet(stale));
      GrowAlike(Counted(rest, [], {}), Counted(rs[..n], [flow], AsSet(stale)),
                IfCounted(a, [], {}), IfCounted(rs[n], [flow], AsSet(stale)));
    }
  }

  lemma {:induction false} LastMainIsLastSeen(rs: seq<Review>)
    ensures LastMain(rs) == LastSeen(rs, [], {})
  {
    if rs != [] { LastMainIsLastSeen(rs[..|rs| - 1]); }
  }

  lemma {:induction false} LastSeenOfCounted(rs: seq<Review>, chain: seq<string>, stale: set<string>)
    ensures LastSeen(rs, chain, stale) ==
            var h := Counted(rs, chain, stale); if h == [] then ReviewProposed else h[|h| - 1].status
  {
    if rs != [] { LastSeenOfCounted(rs[..|rs| - 1], chain, stale); }
  }

  ghost function MainCard(cn: ChangeImpact, flow: string, stale: seq<string>): Card {
    var a := Adopted(cn, flow, stale);
    Card(a.id, a.review, Counted(a.reviews, [], {}))
  }

  ghost function BranchCard(cn: ChangeImpact, flow: string, stale: seq<string>): Card {
    Card(cn.id, LastSeen(cn.reviews, [flow], AsSet(stale)), Counted(cn.reviews, [flow], AsSet(stale)))
  }

  // One impact: shown by main after the adoption as by the branch before, but for its own stale work.
  lemma AdoptedCard(cn: ChangeImpact, flow: string, stale: seq<string>)
    requires flow != ""
    ensures Hidden(Adopted(cn, flow, stale), [], {}) ==> Hidden(cn, [flow], AsSet(stale)) && ImpactStands(cn, flow, AsSet(stale))
    ensures !Hidden(Adopted(cn, flow, stale), [], {}) ==>
      (ImpactStands(cn, flow, AsSet(stale)) <==>
       (!Hidden(cn, [flow], AsSet(stale)) && MainCard(cn, flow, stale) == BranchCard(cn, flow, stale)))
  {
    AdoptedReviews(cn.reviews, flow, stale);
    LastMainIsLastSeen(AdoptReviews(cn.reviews, flow, stale));
    LastSeenOfCounted(AdoptReviews(cn.reviews, flow, stale), [], {});
    LastSeenOfCounted(cn.reviews, [flow], AsSet(stale));
  }

  // What the main flow shows once the flow is adopted, whatever its log says since.
  ghost function MainCards(impacts: seq<ChangeImpact>, after: seq<ImpactEvent>, flow: string, stale: seq<string>): seq<Card> {
    Shown(Seen(AdoptAll(impacts, flow, stale), after, [], {}), [], {})
  }

  ghost function BranchCards(impacts: seq<ChangeImpact>, events: seq<ImpactEvent>, flow: string, stale: seq<string>): seq<Card> {
    Shown(Seen(impacts, events, [flow], AsSet(stale)), [flow], AsSet(stale))
  }

  lemma ShownGrows(view: seq<ChangeImpact>, cn: ChangeImpact, chain: seq<string>, stale: set<string>)
    ensures Shown(view + [cn], chain, stale)
         == Shown(view, chain, stale) + [Card(cn.id, cn.review, Counted(cn.reviews, chain, stale))]
  {
    assert (view + [cn])[..|view|] == view;
  }

  lemma MainCardsGrow(rest: seq<ChangeImpact>, cn: ChangeImpact, after: seq<ImpactEvent>, flow: string, stale: seq<string>)
    ensures MainCards(rest + [cn], after, flow, stale) == MainCards(rest, after, flow, stale)
            + if Hidden(Adopted(cn, flow, stale), [], {}) then [] else [MainCard(cn, flow, stale)]
  {
    var adopted := AdoptAll(rest + [cn], flow, stale);
    assert adopted[..|rest|] == AdoptAll(rest, flow, stale);
    assert adopted[|rest|] == Adopted(cn, flow, stale);
    ShownGrows(Seen(AdoptAll(rest, flow, stale), after, [], {}), Adopted(cn, flow, stale), [], {});
    assert Seen(AdoptAll(rest, flow, stale), after, [], {}) + [] == Seen(AdoptAll(rest, flow, stale), after, [], {});
  }

  lemma BranchCardsGrow(rest: seq<ChangeImpact>, cn: ChangeImpact, events: seq<ImpactEvent>, flow: string, stale: seq<string>)
    ensures BranchCards(rest + [cn], events, flow, stale) == BranchCards(rest, events, flow, stale)
            + if Hidden(cn, [flow], AsSet(stale)) then [] else [BranchCard(cn, flow, stale)]
  {
    assert (rest + [cn])[..|rest|] == rest;
    var view := Seen(rest, events, [flow], AsSet(stale));
    ShownGrows(view, SeenAs(cn, events, [flow], AsSet(stale)), [flow], AsSet(stale));
    assert view + [] == view;
  }

  /**
   * Adopting a flow forked from main makes the main flow show exactly what the flow showed (the same impacts in the
   * same order, each with the same review and the same history) if and only if no work of the flow itself that still
   * counts comes from a run the flow replaces.
   */
  lemma {:induction false} AdoptionMakesMainWhatTheBranchSaw(
      impacts: seq<ChangeImpact>, events: seq<ImpactEvent>, after: seq<ImpactEvent>, flow: string, stale: seq<string>)
    requires flow != ""
    ensures |MainCards(impacts, after, flow, stale)| >= |BranchCards(impacts, events, flow, stale)|
    ensures MainCards(impacts, after, flow, stale) == BranchCards(impacts, events, flow, stale)
       <==> OwnWorkStands(impacts, flow, AsSet(stale))
  {
    if impacts != [] {
      var n := |impacts| - 1;
      var rest, cn := impacts[..n], impacts[n];
      assert impacts == rest + [cn];
      AdoptionMakesMainWhatTheBranchSaw(rest, events, after, flow, stale);
      AdoptedCard(cn, flow, stale);
      MainCardsGrow(rest, cn, after, flow, stale);
      BranchCardsGrow(rest, cn, events, flow, stale);
      GrowAlike(MainCards(rest, after, flow, stale), BranchCards(rest, events, flow, stale),
                if Hidden(Adopted(cn, flow, stale), [], {}) then [] else [MainCard(cn, flow, stale)],
                if Hidden(cn, [flow], AsSet(stale)) then [] else [BranchCard(cn, flow, stale)]);
      assert OwnWorkStands(impacts, flow, AsSet(stale))
        <==> OwnWorkStands(rest, flow, AsSet(stale)) && ImpactStands(cn, flow, AsSet(stale));
    }
  }

  /** The same over the log: what main shows after the adopted event, against what the flow showed before it. */
  lemma AdoptedLog(events: seq<ImpactEvent>, e: ImpactEvent)
    requires FoldableLog(events) && e.Foldable() && e.op == ImpactAdopted
    ensures FoldableLog(events + [e])
    ensures Shown(Seen(Fold(events + [e]), events + [e], [], {}), [], {})
         == Shown(Seen(Fold(events), events, [e.flow], AsSet(e.stale)), [e.flow], AsSet(e.stale))
       <==> OwnWorkStands(Fold(events), e.flow, AsSet(e.stale))
  {
    FoldSnoc(events, e);
    assert Step(Fold(events), e) == AdoptAll(Fold(events), e.flow, e.stale);
    AdoptionMakesMainWhatTheBranchSaw(Fold(events), events, events + [e], e.flow, e.stale);
  }

  // ---- work of a stale run of the branch itself

  function StaleCandidate(): ChangeImpact {
    ChangeImpact("i", "", "", IntentModified, "", None, None, None, ReviewProposed, [], "", "", false, "", [], "x", [], "f", false, 0)
  }

  function EventOn(op: ImpactOp, impact: string, state: Option<ChangeImpact>, stale: seq<string>): ImpactEvent {
    ImpactEvent("", "", 0, impact, op, "f", "", "", "", 0, "", state, None, None, None, None, None, None, "", "", false, None, stale, None)
  }

  const Proposal := EventOn(ImpactProposed, "i", Some(StaleCandidate()), [])

  const Adoption := EventOn(ImpactAdopted, "", None, ["x"])

  lemma ProposalFolds()
    ensures FoldableLog([Proposal]) && Fold([Proposal]) == [StaleCandidate()]
  {
    assert [Proposal][..0] == [] && Fold([]) == [];
  }

  /** An impact the run x declared on f, and f adopted in the place of x: the branch saw nothing of it, main does. */
  lemma StaleWorkOfTheBranchSurfaces()
    ensures FoldableLog([Proposal]) && Proposal.Valid() && Adoption.Valid()
    ensures !OwnWorkStands(Fold([Proposal]), "f", {"x"})
    ensures Seen(Fold([Proposal]), [Proposal], ["f"], {"x"}) == []
    ensures FoldableLog([Proposal] + [Adoption]) && |Seen(Fold([Proposal] + [Adoption]), [Proposal] + [Adoption], [], {})| == 1
  {
    ProposalFolds();
    var cn := StaleCandidate();
    assert !ImpactStands(cn, "f", {"x"}) && cn in [cn];
    assert [cn][..0] == [];
    FoldSnoc([Proposal], Adoption);
    var adopted := Adopted(cn, "f", ["x"]);
    assert Step([cn], Adoption) == [adopted];
    assert [adopted][..0] == [] && !Hidden(adopted, [], {});
  }

  // ---- until it is adopted, a branch works out of sight of main

  // What main sees of the impact of an id.
  datatype Sight = Sight(review: NodeReview, pre: Option<NodeRef>, post: Option<NodeRef>, history: seq<Review>)

  ghost function MainSees(cn: Option<ChangeImpact>): Option<Sight> {
    if cn.None? || Hidden(cn.value, [], {}) then None
    else Some(Sight(cn.value.review, cn.value.pre, cn.value.post, Counted(cn.value.reviews, [], {})))
  }

  // The operations a run on a branch makes; it declares impacts of its own, and its reviews are made on it.
  ghost predicate BranchWork(was: Option<ChangeImpact>, e: ImpactEvent)
    requires e.Foldable()
  {
    e.flow != "" &&
    match e.op
    case ImpactProposed => e.state.value.flow == e.flow && MainSees(was).None?
    case ImpactCreated => e.state.value.flow == e.flow && MainSees(was).None?
    case ImpactReviewed => e.review.value.flow == e.flow
    case ImpactDiscarded => was.Some? && was.value.flow == e.flow
    case ImpactAdopted => false
    case ImpactWithdrawn => MainSees(was).None?
    case ImpactCommitted => MainSees(was).None?
    case ImpactRebased => MainSees(was).None?
    case _ => true
  }

  ghost function Continue(impacts: seq<ChangeImpact>, more: seq<ImpactEvent>): seq<ChangeImpact>
    requires FoldableLog(more)
    decreases |more|
  {
    if more == [] then impacts else Continue(Step(impacts, more[0]), more[1..])
  }

  ghost predicate BranchWorks(impacts: seq<ChangeImpact>, more: seq<ImpactEvent>)
    requires FoldableLog(more)
    decreases |more|
  {
    more == [] ||
    (BranchWork(Find(impacts, more[0].impact), more[0]) && BranchWorks(Step(impacts, more[0]), more[1..]))
  }

  lemma FoldSnoc(events: seq<ImpactEvent>, e: ImpactEvent)
    requires FoldableLog(events) && e.Foldable()
    ensures FoldableLog(events + [e]) && Fold(events + [e]) == Step(Fold(events), e)
  {
    assert (events + [e])[..|events|] == events;
  }

  lemma {:induction false} FoldContinues(events: seq<ImpactEvent>, more: seq<ImpactEvent>)
    requires FoldableLog(events) && FoldableLog(more)
    ensures Fold(events + more) == Continue(Fold(events), more)
    decreases |more|
  {
    if more == [] {
      assert events + more == events;
    } else {
      FoldSnoc(events, more[0]);
      FoldContinues(events + [more[0]], more[1..]);
      HeadMoves(events, more);
    }
  }

  lemma EditIsInvisible(cn: ChangeImpact, e: ImpactEvent)
    requires e.flow != ""
    ensures Counted(Edited(cn, e).reviews, [], {}) == Counted(cn.reviews, [], {})
  {
    if SeenOn(cn, e.flow) != ReviewProposed {
      CountedGrows(cn.reviews, Edited(cn, e).reviews[|cn.reviews|], [], {});
    }
  }

  lemma BranchReviewIsInvisible(cn: ChangeImpact, e: ImpactEvent)
    requires e.Foldable() && e.op == ImpactReviewed && BranchWork(Some(cn), e)
    ensures MainSees(Moved(cn, e)) == MainSees(Some(cn))
  {
    CountedGrows(cn.reviews, e.review.value, [], {});
    assert Counted(cn.reviews, [], {}) + [] == Counted(cn.reviews, [], {});
  }

  // An edit of a branch shows nothing on the main flow.
  lemma EditShowsNothing(cn: ChangeImpact, e: ImpactEvent)
    requires e.flow != ""
    ensures MainSees(Some(Edited(cn, e))) == MainSees(Some(cn))
  {
    EditIsInvisible(cn, e);
  }

  lemma BranchCancelIsInvisible(cn: ChangeImpact, e: ImpactEvent)
    requires e.Foldable() && e.op == ImpactCancelled && e.flow != ""
    ensures MainSees(Moved(cn, e)) == MainSees(Some(cn))
  {
    if OnOtherFlow(cn, e) {
      EditShowsNothing(cn, e);
    } else {
      assert cn.flow != "" && Hidden(cn, [], {});
      var moved := Moved(cn, e);
      assert moved.Some? ==> moved.value.flow == cn.flow;
    }
  }

  lemma BranchStepIsInvisible(was: Option<ChangeImpact>, id: string, e: ImpactEvent)
    requires e.Foldable() && (e.impact == id ==> BranchWork(was, e)) && e.op != ImpactAdopted
    ensures MainSees(Next(was, id, e)) == MainSees(was)
  {
    if was.Some? && e.impact == id {
      match e.op {
        case ImpactReviewed => BranchReviewIsInvisible(was.value, e);
        case ImpactUpdated => EditShowsNothing(was.value, e);
        case ImpactCancelled => BranchCancelIsInvisible(was.value, e);
        case _ =>
      }
    }
  }

  /** Whatever a run does on a branch, main sees of every impact what it saw before. */
  lemma BranchWorkIsInvisibleToMain(events: seq<ImpactEvent>, more: seq<ImpactEvent>, id: string)
    requires FoldableLog(events) && FoldableLog(more) && BranchWorks(Fold(events), more)
    ensures MainSees(Find(Fold(events + more), id)) == MainSees(Find(Fold(events), id))
  {
    FoldHasUniqueIds(events);
    FoldContinues(events, more);
    ContinueIsInvisible(Fold(events), more, id);
  }

  lemma {:induction false} ContinueIsInvisible(impacts: seq<ChangeImpact>, more: seq<ImpactEvent>, id: string)
    requires UniqueIds(impacts) && FoldableLog(more) && BranchWorks(impacts, more)
    ensures MainSees(Find(Continue(impacts, more), id)) == MainSees(Find(impacts, id))
    decreases |more|
  {
    if more != [] {
      StepIsPointwise(impacts, more[0], id);
      BranchStepIsInvisible(Find(impacts, id), id, more[0]);
      ContinueIsInvisible(Step(impacts, more[0]), more[1..], id);
    }
  }
}
