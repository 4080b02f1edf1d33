// The values of a change (contracts/domain): references, reviews, change impacts, drafts, impact events.
// An optional pointer is an Option, a nil or empty slice or map is the empty one, a time is an integer.
module Domain {
  import opened Prelude

  /** A node version, or the draft of a node (version 0). */
  datatype NodeRef = NodeRef(id: string, version: int) {
    predicate IsZero() { id == "" }

    predicate IsDraft() { id != "" && version == 0 }
  }

  function DraftRef(id: string): NodeRef { NodeRef(id, 0) }

  /** A logical URL; its text leaves percent-encoding out. */
  datatype Url = Url(source: string, typ: string, key: string, version: int) {
    predicate IsZero() { source == "" && typ == "" && key == "" }

    function Logical(): Url { this.(version := 0) }

    // The text of a URL without its version.
    function Text(): string {
      if IsZero() then "" else "lnk:" + source + "/" + typ + "/" + key
    }
  }

  const NoUrl := Url("", "", "", 0)

  datatype NodeIntent = IntentCreated | IntentModified

  datatype NodeReview = ReviewProposed | ReviewAccepted | ReviewRejected

  datatype Review = Review(status: NodeReview, writer: string, comment: string, at: int, flow: string, execution: string,
                           superseded: bool, reviewId: string)

  datatype ChangeImpact = ChangeImpact(
    id: string, key: string, typ: string, intent: NodeIntent, rationale: string,
    pre: Option<NodeRef>, post: Option<NodeRef>, committed: Option<NodeRef>,
    review: NodeReview, reviews: seq<Review>, effect: string, via: string, recheck: bool, producedBy: string,
    derivedFrom: seq<string>, execution: string, items: seq<string>, flow: string, superseded: bool, createdAt: int)

  datatype DraftLink = DraftLink(id: string, typ: string, to: NodeRef, target: Url, props: map<string, Json>) {
    predicate External() { to.IsZero() && !target.IsZero() }
  }

  datatype Draft = Draft(
    change: string, impact: string, flow: string, node: string, key: string, typ: string, state: string, owner: Url,
    props: map<string, Json>, origins: seq<NodeRef>, base: Option<NodeRef>, mergedWith: Option<NodeRef>,
    execution: string, links: seq<DraftLink>, deleted: bool, creator: string, editor: string)

  /** A link a patch adds (all of it), updates (its id and properties) or removes (its id). */
  datatype PatchLink = PatchLink(id: string, typ: string, toId: string, toVersion: int, target: Url, props: map<string, Json>)

  datatype StateMove = StateMove(from: string, to: string)

  /** What an event changes of a draft. A zero owner is no owner named; rebased is the branch of a rebase's merge. */
  datatype Patch = Patch(
    props: map<string, Json>, unset: seq<string>, owner: Url, deleted: Option<bool>, state: Option<StateMove>,
    addLink: Option<PatchLink>, updateLink: Option<PatchLink>, removeLink: Option<PatchLink>,
    addLinks: seq<PatchLink>, updateLinks: seq<PatchLink>, removeLinks: seq<PatchLink>,
    rebased: Option<string>)

  const EmptyPatch := Patch(map[], [], NoUrl, None, None, None, None, None, [], [], [], None)

  datatype ImpactOp = ImpactProposed | ImpactCreated | ImpactCheckedOut | ImpactTransitioned | ImpactUpdated
    | ImpactCancelled | ImpactWithdrawn | ImpactReviewed | ImpactDiscarded | ImpactAdopted | ImpactCommitted
    | ImpactRebased | ImpactRequalified
  {
    predicate WritesPost() { ImpactTransitioned? || ImpactCheckedOut? || ImpactCreated? }

    predicate Batched() { ImpactReviewed? || ImpactCommitted? }
  }

  /** fromBase: the draft copies its base version, but for the links to the drafted nodes. */
  datatype ImpactEvent = ImpactEvent(
    id: string, change: string, seqNo: int, impact: string, op: ImpactOp, flow: string, execution: string, writer: string,
    onBehalf: string, at: int, causation: string, state: Option<ChangeImpact>, post: Option<NodeRef>,
    draft: Option<Draft>, fromBase: Option<seq<NodeRef>>, pre: Option<NodeRef>, committed: Option<NodeRef>,
    effect: Option<string>, commit: string, branch: string, recorded: bool, review: Option<Review>, stale: seq<string>,
    patch: Option<Patch>)
  {
    // The person an event is attributed to: the one its author acted for, else its author.
    function Author(): string { if onBehalf != "" then onBehalf else writer }

    /** The event carries what its operation needs (Validate). */
    predicate Valid() {
      Foldable() &&
      match op
      case ImpactRequalified => pre.Some?
      case ImpactUpdated => post.Some? && patch.Some?
      case _ => true
    }

    /** What the fold reads of the event is there: an edit read back from the log does not say its post again. */
    predicate Foldable() {
      match op
      case ImpactProposed => state.Some? && state.value.id == impact
      case ImpactCreated => state.Some? && state.value.id == impact && post.Some? && (!post.value.IsDraft() || draft.Some?)
      case ImpactTransitioned => impact != "" && post.Some?
      case ImpactCheckedOut => impact != "" && post.Some? && (!post.value.IsDraft() || draft.Some?)
      case ImpactReviewed => impact != "" && review.Some?
      case ImpactDiscarded => impact != "" && review.Some?
      case ImpactAdopted => impact == "" && flow != ""
      case ImpactCommitted => impact != "" && committed.Some?
      case ImpactRebased => impact != "" && pre.Some?
      case _ => impact != ""
    }
  }
}
