// The fold of the impact events of a change (contracts/domain/impactevent.go): the loops as methods, each proved
// against a function of its inputs, and what holds of that function over whole logs.
module ImpactFold {
  import opened Prelude
  import opened Domain

  // ---- the review an impact has for a flow

  ghost predicate CountsOn(r: Review, flow: string) { r.flow == flow && !r.superseded }

  // The last review made on a flow that no adoption replaced.
  ghost function LastOn(reviews: seq<Review>, flow: string): Option<NodeReview> {
    if reviews == [] then None
    else if CountsOn(reviews[|reviews| - 1], flow) then Some(reviews[|reviews| - 1].status)
    else LastOn(reviews[..|reviews| - 1], flow)
  }

  ghost function OrProposed(r: Option<NodeReview>): NodeReview {
    if r.Some? then r.value else ReviewProposed
  }

  ghost function LastMain(reviews: seq<Review>): NodeReview { OrProposed(LastOn(reviews, "")) }

  ghost function SeenOn(cn: ChangeImpact, flow: string): NodeReview {
    if flow != "" && LastOn(cn.reviews, flow).Some? then LastOn(cn.reviews, flow).value else cn.review
  }

  method ReviewSeenOn(cn: ChangeImpact, flow: string) returns (r: NodeReview)
    ensures r == SeenOn(cn, flow)
  {
    if flow != "" {
      var i := |cn.reviews| - 1;
      assert cn.reviews[..i + 1] == cn.reviews;
      while i >= 0
        invariant -1 <= i < |cn.reviews|
        invariant LastOn(cn.reviews, flow) == LastOn(cn.reviews[..i + 1], flow)
      {
        assert cn.reviews[..i + 1][..i] == cn.reviews[..i];
        var seen := cn.reviews[i];
        if seen.flow == flow && !seen.superseded {
          return seen.status;
        }
        i := i - 1;
      }
    }
    return cn.review;
  }

  // ---- an edit reopens what was decided

  function ReopenComment(patch: Option<Patch>): string {
    if patch.Some? && patch.value.rebased.Some? && patch.value.rebased.value != ""
    then "rebased onto " + patch.value.rebased.value else "edited again"
  }

  ghost function Edited(cn: ChangeImpact, e: ImpactEvent): ChangeImpact {
    if SeenOn(cn, e.flow) == ReviewProposed then cn
    else
      cn.(reviews := cn.reviews + [Review(ReviewProposed, e.writer, ReopenComment(e.patch), e.at, e.flow, e.execution, false, "")],
          review := if e.flow == "" then ReviewProposed else cn.review)
  }

  method EditedAgain(cn: ChangeImpact, e: ImpactEvent) returns (r: ChangeImpact)
    ensures r == Edited(cn, e)
  {
    var seen := ReviewSeenOn(cn, e.flow);
    if seen == ReviewProposed {
      return cn;
    }
    r := cn.(reviews := cn.reviews + [Review(ReviewProposed, e.writer, ReopenComment(e.patch), e.at, e.flow, e.execution, false, "")]);
    if e.flow == "" {
      r := r.(review := ReviewProposed);
    }
  }

  // ---- the adoption of a flow, for one impact

  predicate StaleRun(execution: string, stale: seq<string>) { execution != "" && execution in stale }

  function AdoptReview(r: Review, flow: string, stale: seq<string>): Review {
    if r.flow == flow then r.(flow := "")
    else if r.flow == "" && StaleRun(r.execution, stale) then r.(superseded := true)
    else r
  }

  function AdoptReviews(rs: seq<Review>, flow: string, stale: seq<string>): (out: seq<Review>)
    ensures |out| == |rs|
    ensures forall i :: 0 <= i < |rs| ==> out[i] == AdoptReview(rs[i], flow, stale)
  {
    seq(|rs|, i requires 0 <= i < |rs| => AdoptReview(rs[i], flow, stale))
  }

  predicate LosesTo(cn: ChangeImpact, flow: string, stale: seq<string>) {
    cn.flow != flow && cn.flow == "" && StaleRun(cn.execution, stale)
  }

  ghost function Adopted(cn: ChangeImpact, flow: string, stale: seq<string>): ChangeImpact {
    var superseded := cn.superseded || LosesTo(cn, flow, stale);
    var reviews := AdoptReviews(cn.reviews, flow, stale);
    cn.(flow := if cn.flow == flow then "" else cn.flow, superseded := superseded, reviews := reviews,
        review := if superseded then cn.review else LastMain(reviews))
  }

  method AdoptEach(rs: seq<Review>, flow: string, stale: seq<string>) returns (reviews: seq<Review>)
    ensures reviews == AdoptReviews(rs, flow, stale)
  {
    reviews := rs;
    for i := 0 to |reviews|
      invariant |reviews| == |rs|
      invariant forall j :: 0 <= j < i ==> reviews[j] == AdoptReview(rs[j], flow, stale)
      invariant forall j :: i <= j < |reviews| ==> reviews[j] == rs[j]
    {
      var r := reviews[i];
      if r.flow == flow {
        reviews := reviews[i := r.(flow := "")];
      } else if r.flow == "" && StaleRun(r.execution, stale) {
        reviews := reviews[i := r.(superseded := true)];
      }
    }
  }

  method LastMainOf(reviews: seq<Review>) returns (review: NodeReview)
    ensures review == LastMain(reviews)
  {
    review := ReviewProposed;
    for i := 0 to |reviews|
      invariant review == LastMain(reviews[..i])
    {
      assert reviews[..i + 1][..i] == reviews[..i];
      var r := reviews[i];
      if !r.superseded && r.flow == "" { review := r.status; }
    }
    assert reviews[..|reviews|] == reviews;
  }

  method AdoptImpact(cn0: ChangeImpact, flow: string, staleExecutions: seq<string>) returns (cn: ChangeImpact)
    ensures cn == Adopted(cn0, flow, staleExecutions)
  {
    cn := cn0;
    if cn.flow == flow {
      cn := cn.(flow := "");
    } else if cn.flow == "" && !cn.superseded && StaleRun(cn.execution, staleExecutions) {
      cn := cn.(superseded := true);
    }
    var reviews := AdoptEach(cn.reviews, flow, staleExecutions);
    cn := cn.(reviews := reviews);
    if !cn.superseded {
      var review := LastMainOf(reviews);
      cn := cn.(review := review);
    }
  }

  ghost function AdoptAll(impacts: seq<ChangeImpact>, flow: string, stale: seq<string>): (out: seq<ChangeImpact>)
    ensures |out| == |impacts|
    ensures forall i :: 0 <= i < |impacts| ==> out[i] == Adopted(impacts[i], flow, stale)
  {
    seq(|impacts|, i requires 0 <= i < |impacts| => Adopted(impacts[i], flow, stale))
  }

  // ---- one event

  // What an event about an impact already declared leaves of it; None: nothing, it leaves the list.
  ghost function Moved(cn: ChangeImpact, e: ImpactEvent): Option<ChangeImpact>
    requires e.Foldable()
  {
    match e.op
    case ImpactWithdrawn => None
    case ImpactTransitioned => Some(Written(cn, e))
    case ImpactCheckedOut => Some(Written(cn, e))
    case ImpactReviewed =>
      Some(cn.(reviews := cn.reviews + [e.review.value],
               review := if e.review.value.flow == "" then e.review.value.status else cn.review))
    case ImpactDiscarded => Some(cn.(reviews := cn.reviews + [e.review.value], review := ReviewRejected))
    case ImpactCommitted =>
      Some(cn.(committed := e.committed, effect := if e.effect.Some? then e.effect.value else cn.effect,
               post := if cn.post.None? || cn.post.value.IsDraft() then e.committed else cn.post))
    case ImpactRebased => Some(cn.(pre := e.pre, recheck := true))
    case ImpactCancelled =>
      if OnOtherFlow(cn, e) then Some(CancelReopens(cn, e))
      else if e.post.None? && cn.intent == IntentCreated then None
      else Some(CancelReopens(cn.(post := e.post), e))
    case ImpactUpdated => Some(Edited(cn, e))
    case _ => Some(cn)
  }

  // A write of another branch than the impact's own: its post and pre are not those the impact shows.
  predicate OnOtherFlow(cn: ChangeImpact, e: ImpactEvent) { e.flow != "" && e.flow != cn.flow }

  ghost function Written(cn: ChangeImpact, e: ImpactEvent): ChangeImpact {
    if OnOtherFlow(cn, e) then cn else cn.(post := e.post, pre := if e.pre.Some? then e.pre else cn.pre)
  }

  ghost function CancelReopens(cn: ChangeImpact, e: ImpactEvent): ChangeImpact {
    if cn.intent == IntentModified || cn.committed.Some? then Edited(cn, e) else cn
  }

  ghost function Declared(e: ImpactEvent): ChangeImpact
    requires e.Foldable() && (e.op == ImpactProposed || e.op == ImpactCreated)
  {
    if e.op == ImpactCreated then e.state.value.(post := e.post) else e.state.value
  }

  ghost function Put(impacts: seq<ChangeImpact>, at: int, cn: Option<ChangeImpact>): seq<ChangeImpact>
    requires 0 <= at < |impacts|
  {
    if cn.Some? then impacts[at := cn.value] else impacts[..at] + impacts[at + 1..]
  }

  ghost function Applied(impacts: seq<ChangeImpact>, at: int, e: ImpactEvent): seq<ChangeImpact>
    requires e.Foldable() && -1 <= at < |impacts|
  {
    if e.op == ImpactProposed || e.op == ImpactCreated then
      if at >= 0 then impacts[at := Declared(e)] else impacts + [Declared(e)]
    else if e.op == ImpactAdopted then AdoptAll(impacts, e.flow, e.stale)
    else if at < 0 then impacts
    else Put(impacts, at, Moved(impacts[at], e))
  }

  method ApplyImpactEventAt(impacts: seq<ChangeImpact>, at: int, e: ImpactEvent) returns (out: seq<ChangeImpact>)
    requires e.Foldable() && -1 <= at < |impacts|
    ensures out == Applied(impacts, at, e)
  {
    out := impacts;
    if e.op == ImpactProposed || e.op == ImpactCreated {
      var cn := e.state.value;
      if e.op == ImpactCreated {
        cn := cn.(post := e.post);
      }
      if at >= 0 {
        out := out[at := cn];
      } else {
        out := out + [cn];
      }
      return;
    }
    if e.op == ImpactAdopted {
      for i := 0 to |out|
        invariant |out| == |impacts|
        invariant forall j :: 0 <= j < i ==> out[j] == Adopted(impacts[j], e.flow, e.stale)
        invariant forall j :: i <= j < |out| ==> out[j] == impacts[j]
      {
        var cn := AdoptImpact(out[i], e.flow, e.stale);
        out := out[i := cn];
      }
      assert out == AdoptAll(impacts, e.flow, e.stale);
      return;
    }
    if at < 0 {
      return;
    }
    if e.op == ImpactWithdrawn {
      return out[..at] + out[at + 1..];
    }
    var cn := out[at];
    match e.op {
      case ImpactTransitioned =>
        if e.flow == "" || e.flow == cn.flow {
          cn := cn.(post := e.post);
          if e.pre.Some? { cn := cn.(pre := e.pre); }
        }
      case ImpactCheckedOut =>
        if e.flow == "" || e.flow == cn.flow {
          cn := cn.(post := e.post);
          if e.pre.Some? { cn := cn.(pre := e.pre); }
        }
      case ImpactReviewed =>
        cn := cn.(reviews := cn.reviews + [e.review.value]);
        if e.review.value.flow == "" { cn := cn.(review := e.review.value.status); }
      case ImpactDiscarded =>
        cn := cn.(reviews := cn.reviews + [e.review.value], review := ReviewRejected);
      case ImpactCommitted =>
        cn := cn.(committed := e.committed);
        if e.effect.Some? { cn := cn.(effect := e.effect.value); }
        if cn.post.None? || cn.post.value.IsDraft() { cn := cn.(post := e.committed); }
      case ImpactRebased =>
        cn := cn.(pre := e.pre, recheck := true);
      case ImpactCancelled =>
        if e.flow == "" || e.flow == cn.flow {
          if e.post.None? && cn.intent == IntentCreated {
            return out[..at] + out[at + 1..];
          }
          cn := cn.(post := None);
          if e.post.Some? { cn := cn.(post := e.post); }
        }
      case _ =>
    }
    if e.op == ImpactUpdated || (e.op == ImpactCancelled && (cn.intent == IntentModified || cn.committed.Some?)) {
      cn := EditedAgain(cn, e);
    }
    out := out[at := cn];
  }

  // ---- a log

  // The first position of an id, -1 when the list holds none (slices.IndexFunc).
  ghost function Position(impacts: seq<ChangeImpact>, id: string): (at: int)
    ensures -1 <= at < |impacts|
    ensures at >= 0 ==> impacts[at].id == id
    ensures forall j :: 0 <= j < (if at < 0 then |impacts| else at) ==> impacts[j].id != id
  {
    if impacts == [] then -1
    else if impacts[0].id == id then 0
    else
      var at := Position(impacts[1..], id);
      assert forall j :: 0 < j < |impacts| ==> impacts[j] == impacts[1..][j - 1];
      if at < 0 then -1 else at + 1
  }

  method IndexOf(impacts: seq<ChangeImpact>, id: string) returns (at: int)
    ensures at == Position(impacts, id)
  {
    for i := 0 to |impacts|
      invariant forall j :: 0 <= j < i ==> impacts[j].id != id
    {
      if impacts[i].id == id { return i; }
    }
    return -1;
  }

  ghost function Step(impacts: seq<ChangeImpact>, e: ImpactEvent): seq<ChangeImpact>
    requires e.Foldable()
  {
    Applied(impacts, Position(impacts, e.impact), e)
  }

  ghost predicate FoldableLog(events: seq<ImpactEvent>) { forall i :: 0 <= i < |events| ==> events[i].Foldable() }

  ghost function Fold(events: seq<ImpactEvent>): seq<ChangeImpact>
    requires FoldableLog(events)
  {
    if events == [] then [] else Step(Fold(events[..|events| - 1]), events[|events| - 1])
  }

  method FoldImpacts(events: seq<ImpactEvent>) returns (out: seq<ChangeImpact>)
    requires FoldableLog(events)
    ensures out == Fold(events)
  {
    out := [];
    for i := 0 to |events|
      invariant out == Fold(events[..i])
    {
      assert events[..i + 1][..i] == events[..i];
      var at := IndexOf(out, events[i].impact);
      out := ApplyImpactEventAt(out, at, events[i]);
    }
    assert events[..|events|] == events;
  }
}
