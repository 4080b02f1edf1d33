// What an event makes of a draft, field by field, and of the rows of a change (contracts/domain/draft.go).
module DraftLaws {
  import opened Prelude
  import opened Domain
  import opened ImpactFold
  import opened ReviewLaws
  import opened Drafts
  import opened DraftFold
  import DiffApply

  // ---- the links of a patch

  // One link of a patch, or several: the one comes first.
  function AllOf(one: Option<PatchLink>, many: seq<PatchLink>): seq<PatchLink> { (if one.Some? then [one.value] else []) + many }

  // The link a patch adds: its target is the node it names, or a thing of another source when it names none.
  predicate IsAdded(l: DraftLink, a: PatchLink) {
    l.id == a.id && l.typ == a.typ && l.to.id == a.toId && l.to.version == a.toVersion && l.props == a.props &&
    l.target == if a.toId == "" && (a.target.source != "" || a.target.typ != "" || a.target.key != "") then a.target else Url("", "", "", 0)
  }

  // The links there are before the updates and the removals: those of the draft, then the added ones.
  predicate WithAdded(all: seq<DraftLink>, was: seq<DraftLink>, adds: seq<PatchLink>) {
    |all| == |was| + |adds| && (forall i :: 0 <= i < |was| ==> all[i] == was[i]) &&
    forall j :: 0 <= j < |adds| ==> IsAdded(all[|was| + j], adds[j])
  }

  // The last update of an id.
  ghost predicate LastUpdate(us: seq<PatchLink>, id: string, j: nat) {
    j < |us| && us[j].id == id && forall k :: j < k < |us| ==> us[k].id != id
  }

  // A link once it was updated: under the properties of the last update of its id, or as it was.
  ghost predicate IsUpdated(l: DraftLink, was: DraftLink, us: seq<PatchLink>) {
    l == was.(props := l.props) &&
    (forall j: nat :: LastUpdate(us, was.id, j) ==> l.props == us[j].props) &&
    ((forall j :: 0 <= j < |us| ==> us[j].id != was.id) ==> l.props == was.props)
  }

  predicate IsRemoved(rs: seq<PatchLink>, id: string) { exists j :: 0 <= j < |rs| && rs[j].id == id }

  function NotRemoved(rs: seq<PatchLink>): DraftLink -> bool { (l: DraftLink) => !IsRemoved(rs, l.id) }

  // The links a patch leaves: those there are that it does not remove, in order, each updated.
  ghost predicate LinksLeft(out: seq<DraftLink>, all: seq<DraftLink>, us: seq<PatchLink>, rs: seq<PatchLink>) {
    var at := Picked(all, NotRemoved(rs));
    |out| == |at| && forall k :: 0 <= k < |out| ==> at[k] < |all| && IsUpdated(out[k], all[at[k]], us)
  }

  lemma {:induction false} UpdatedSays(l: DraftLink, us: seq<PatchLink>)
    ensures IsUpdated(Updated(l, us), l, us)
  {
    if us != [] {
      var n := |us| - 1;
      UpdatedSays(l, us[..n]);
      if us[n].id == l.id { assert LastUpdate(us, l.id, n); }
      forall j: nat | LastUpdate(us, l.id, j) ensures Updated(l, us).props == us[j].props {
        if j < n { assert LastUpdate(us[..n], l.id, j); }
      }
    }
  }

  lemma {:induction false} SurvivingSays(all: seq<DraftLink>, us: seq<PatchLink>, rs: seq<PatchLink>)
    ensures LinksLeft(Surviving(UpdatedAll(all, us), rs), all, us, rs)
  {
    if all != [] {
      var n := |all| - 1;
      var now := UpdatedAll(all, us);
      SurvivingSays(all[..n], us, rs);
      assert now[..n] == UpdatedAll(all[..n], us);
      UpdatedSays(all[n], us);
      PickedAre(all[..n], NotRemoved(rs));
      assert Names(rs, all[n].id) <==> IsRemoved(rs, all[n].id);
    }
  }

  lemma {:induction false} AddedSays(adds: seq<PatchLink>)
    ensures |LinksAdded(adds)| == |adds| && forall j :: 0 <= j < |adds| ==> IsAdded(LinksAdded(adds)[j], adds[j])
  {
    if adds != [] { AddedSays(adds[..|adds| - 1]); }
  }

  lemma PatchedLinksSay(ls: seq<DraftLink>, p: Patch) returns (all: seq<DraftLink>)
    ensures WithAdded(all, ls, AllOf(p.addLink, p.addLinks))
    ensures LinksLeft(PatchedLinks(ls, LinksOf(p.addLink, p.addLinks), LinksOf(p.updateLink, p.updateLinks), LinksOf(p.removeLink, p.removeLinks)),
                      all, AllOf(p.updateLink, p.updateLinks), AllOf(p.removeLink, p.removeLinks))
  {
    var adds := AllOf(p.addLink, p.addLinks);
    AddedSays(adds);
    all := ls + LinksAdded(adds);
    SurvivingSays(all, AllOf(p.updateLink, p.updateLinks), AllOf(p.removeLink, p.removeLinks));
    assert LinksOf(p.addLink, p.addLinks) == adds;
    assert LinksOf(p.updateLink, p.updateLinks) == AllOf(p.updateLink, p.updateLinks);
    assert LinksOf(p.removeLink, p.removeLinks) == AllOf(p.removeLink, p.removeLinks);
  }

  // ---- the draft an event leaves

  // The links of a draft after a patch.
  ghost predicate LinksPatched(out: seq<DraftLink>, was: seq<DraftLink>, p: Patch) {
    exists all :: WithAdded(all, was, AllOf(p.addLink, p.addLinks)) &&
                  LinksLeft(out, all, AllOf(p.updateLink, p.updateLinks), AllOf(p.removeLink, p.removeLinks))
  }

  // The property under a key after a patch: none when it is unset, else what is set, else what there was.
  function PropAfter(was: map<string, Json>, p: Patch, k: string): Option<Json> {
    if exists i :: 0 <= i < |p.unset| && p.unset[i] == k then None else if k in p.props then Some(p.props[k]) else Lookup(was, k)
  }

  // A draft edited by a patch: nothing under an unset key, what the patch sets, else what there was; the owner, the state
  // and the deletion the patch names; its links; and the rest as it was.
  ghost predicate EditedBy(n: Draft, d: Draft, p: Patch, author: string) {
    (forall k :: Lookup(n.props, k) == PropAfter(d.props, p, k)) &&
    n.owner == (if p.owner.source == "" && p.owner.typ == "" && p.owner.key == "" then d.owner else p.owner) &&
    (match p.state case None => n.state == d.state case Some(move) => n.state == move.to) &&
    (match p.deleted case None => n.deleted == d.deleted case Some(deleted) => n.deleted == deleted) &&
    LinksPatched(n.links, d.links, p) &&
    n.editor == (if author == "" then d.editor else author) &&
    n == d.(props := n.props, owner := n.owner, state := n.state, deleted := n.deleted, links := n.links, editor := n.editor)
  }

  function AuthorOf(e: ImpactEvent): string { if e.onBehalf != "" then e.onBehalf else e.writer }

  // The draft an event brings, on its impact and flow, edited by its author; a creation makes its author the creator.
  predicate Brought(n: Draft, e: ImpactEvent)
    requires e.draft.Some?
  {
    var d := e.draft.value;
    n == d.(change := e.change, impact := e.impact, flow := e.flow,
            creator := if e.op == ImpactCreated && d.creator == "" then AuthorOf(e) else d.creator,
            editor := if AuthorOf(e) == "" then d.editor else AuthorOf(e))
  }

  lemma PatchSays(d: Draft, p: Patch)
    ensures EditedBy(Patched(d, p), d, p, "")
  {
    var all := PatchedLinksSay(d.links, p);
    PropsSay(d.props, p);
    PatchedOnly(d, p);
  }

  lemma PropsSay(was: map<string, Json>, p: Patch)
    ensures forall k :: Lookup((was + p.props) - SetOf(p.unset), k) == PropAfter(was, p, k)
  {
  }

  // What an event of its impact and flow makes of a draft there is, or of none.
  ghost predicate DraftSays(was: Option<Draft>, now: Option<Draft>, e: ImpactEvent) {
    match e.op
    case ImpactCreated => if e.draft.Some? then now.Some? && Brought(now.value, e) else now == was
    case ImpactCheckedOut => if e.draft.Some? then now.Some? && Brought(now.value, e) else now == was
    case ImpactTransitioned =>
      if e.draft.Some? then now.Some? && Brought(now.value, e)
      else if was.None? then now.None?
      else now.Some? && EditedBy(now.value, was.value, if e.patch.Some? then e.patch.value else EmptyPatch, AuthorOf(e))
    case ImpactUpdated =>
      if was.None? then now.None?
      else now.Some? && EditedBy(now.value, was.value, if e.patch.Some? then e.patch.value else EmptyPatch, AuthorOf(e))
    case ImpactCancelled => now.None?
    case _ => now == was
  }

  lemma BringingSays(was: Option<Draft>, e: ImpactEvent)
    requires e.op.WritesPost() && e.draft.Some?
    ensures DraftSays(was, DraftAfter(was, e), e)
  {
  }

  function Signed(d: Draft, author: string): Draft { if author == "" then d else d.(editor := author) }

  lemma EditIs(was: Draft, e: ImpactEvent)
    requires e.op == ImpactUpdated || (e.op == ImpactTransitioned && e.draft.None?)
    ensures DraftAfter(Some(was), e) == Some(Signed(Patched(was, PatchOf(e.patch)), AuthorOf(e)))
  {
  }

  lemma SigningSays(n: Draft, d: Draft, p: Patch, author: string)
    requires EditedBy(n, d, p, "")
    ensures EditedBy(Signed(n, author), d, p, author)
  {
  }

  lemma EditingSays(was: Draft, e: ImpactEvent)
    requires e.op == ImpactUpdated || (e.op == ImpactTransitioned && e.draft.None?)
    ensures var p := if e.patch.Some? then e.patch.value else EmptyPatch;
            var now := DraftAfter(Some(was), e);
            now.Some? && EditedBy(now.value, was, p, AuthorOf(e))
  {
    EditIs(was, e);
    PatchSays(was, PatchOf(e.patch));
    SigningSays(Patched(was, PatchOf(e.patch)), was, PatchOf(e.patch), AuthorOf(e));
  }

  /** What an event of its impact and flow makes of a draft, whatever it is. */
  lemma EventSays(was: Option<Draft>, e: ImpactEvent)
    ensures DraftSays(was, DraftAfter(was, e), e)
  {
    if e.op.WritesPost() && e.draft.Some? {
      BringingSays(was, e);
    } else if was.Some? && (e.op == ImpactUpdated || e.op == ImpactTransitioned) {
      EditingSays(was.value, e);
    }
  }

  // ---- the rows of a log

  // What an event makes of one row of a change, its impact counting after it.
  ghost predicate RowSays(was: Option<Draft>, now: Option<Draft>, impact: string, flow: string, e: ImpactEvent) {
    match e.op
    case ImpactProposed => now == was
    case ImpactReviewed => now == was
    case ImpactDiscarded => now == was
    case ImpactRebased => now == was
    case ImpactRequalified => now == was
    case ImpactWithdrawn => if e.impact == impact then now.None? else now == was
    case ImpactCommitted => if e.impact == impact then now.None? else now == was
    case ImpactAdopted => if e.flow == flow then now.None? else now == was
    case _ => if e.impact == impact && e.flow == flow then DraftSays(was, now, e) else now == was
  }

  lemma NextRowSays(was: Option<Draft>, impact: string, flow: string, e: ImpactEvent)
    requires e.impact == impact && e.flow == flow && EditsDraft(e.op) ==> DraftSays(was, DraftAfter(was, e), e)
    ensures RowSays(was, NextRow(was, impact, flow, e, true), impact, flow, e)
  {
  }

  lemma RowIsNext(events: seq<ImpactEvent>, e: ImpactEvent, impact: string, flow: string)
    requires FoldableLog(events) && e.Foldable()
    ensures FoldableLog(events + [e])
    ensures Row(DraftsOf(events + [e]), impact, flow) ==
            NextRow(Row(DraftsOf(events), impact, flow), impact, flow, e, Live(Fold(events + [e]), impact))
  {
    var after := events + [e];
    assert after[..|after| - 1] == events;
    RowsAreUnique(events);
    DraftStepIsPointwise(DraftsOf(events), e, Fold(after), impact, flow);
  }

  /** The row of an impact and a flow after an event, over any log: none once the impact is gone or replaced. */
  lemma RowAfter(events: seq<ImpactEvent>, e: ImpactEvent, impact: string, flow: string)
    requires FoldableLog(events) && e.Foldable()
    ensures FoldableLog(events + [e])
    ensures var was, now := Row(DraftsOf(events), impact, flow), Row(DraftsOf(events + [e]), impact, flow);
            var cn := Find(Fold(events + [e]), impact);
            if cn.Some? && !cn.value.superseded then RowSays(was, now, impact, flow, e) else now.None?
  {
    var was := Row(DraftsOf(events), impact, flow);
    RowIsNext(events, e, impact, flow);
    EventSays(was, e);
    NextRowSays(was, impact, flow, e);
  }

  /** What a process on a flow sees of one flow's draft after an event: a commit or a withdrawal ends it, whatever the run. */
  lemma SeenAfter(events: seq<ImpactEvent>, e: ImpactEvent, impact: string, order: seq<string>, stale: set<string>, flow: string)
    requires flow in order
    ensures var was, now := SeenRow(events, impact, order, stale, flow), SeenRow(events + [e], impact, order, stale, flow);
            if e.impact != impact || e.flow !in order then now == was
            else if e.op == ImpactWithdrawn || e.op == ImpactCommitted then now.None?
            else if e.execution in stale || e.flow != flow then now == was
            else DraftSays(was, now, e)
  {
    assert (events + [e])[..|events|] == events;
    EventSays(SeenRow(events, impact, order, stale, flow), e);
  }

  // ---- the event of a diff

  // The first draft made into the second by the patch between them, links under the exact condition of DiffThenApply.
  ghost predicate BecomesTarget(now: Draft, from: Draft, to: Draft, author: string) {
    now.props == to.props && now.state == to.state && now.deleted == to.deleted &&
    (now.owner == to.owner <==> to.owner == from.owner || !to.owner.IsZero()) &&
    (multiset(now.links) ==
       multiset(DiffApply.Kept(from.links, to.links)) + multiset(DiffApply.Reworked(from.links, to.links)) + multiset(LinkAdds(from.links, to.links))
     <==> DiffApply.AddsStand(from.links, to.links)) &&
    (DiffApply.AddsStand(from.links, to.links) ==> DiffApply.Bag(now.links) == DiffApply.Bag(to.links)) &&
    now == from.(props := to.props, state := to.state, deleted := to.deleted, owner := now.owner, links := now.links,
                 editor := if author == "" then from.editor else author)
  }

  /**
   * An updated event that carries the patch between two drafts takes the row of its impact and flow from the first to the
   * second: properties, state and deletion, the owner unless the second clears it, and the links under the exact condition.
   */
  lemma DiffEventTakesTheRow(events: seq<ImpactEvent>, e: ImpactEvent, from: Draft, to: Draft)
    requires FoldableLog(events) && e.Foldable() && e.op == ImpactUpdated && e.patch.Some? && e.patch == Diff(from, to)
    requires DiffApply.DistinctIds(from.links) && Row(DraftsOf(events), e.impact, e.flow) == Some(from) && Live(Fold(events + [e]), e.impact)
    ensures var now := Row(DraftsOf(events + [e]), e.impact, e.flow);
            now.Some? &&
            BecomesTarget(now.value, from, to, AuthorOf(e))
  {
    RowIsNext(events, e, e.impact, e.flow);
    DiffEdits(from, to, e);
  }

  lemma DiffEdits(from: Draft, to: Draft, e: ImpactEvent)
    requires e.op == ImpactUpdated && e.patch.Some? && e.patch == Diff(from, to) && DiffApply.DistinctIds(from.links)
    ensures DraftAfter(Some(from), e).Some? && BecomesTarget(DraftAfter(Some(from), e).value, from, to, AuthorOf(e))
  {
    EditIs(from, e);
    DiffApply.DiffThenApply(from, to);
    PatchedOnly(from, PatchBetween(from, to));
    TargetSigned(Patched(from, PatchBetween(from, to)), from, to, AuthorOf(e));
  }

  lemma PatchedOnly(d: Draft, p: Patch)
    ensures var n := Patched(d, p); n == d.(props := n.props, owner := n.owner, state := n.state, deleted := n.deleted, links := n.links)
  {
  }

  lemma TargetSigned(n: Draft, from: Draft, to: Draft, author: string)
    requires BecomesTarget(n, from, to, "")
    ensures BecomesTarget(Signed(n, author), from, to, author)
  {
  }

  // ---- what a patch says, and no more

  // The properties to set, each that differs, and to unset, each that went, in order.
  ghost predicate KeysSay(from: map<string, Json>, to: map<string, Json>, props: map<string, Json>, unset: seq<string>) {
    (forall k :: Lookup(props, k) == if k in to && (k !in from || from[k] != to[k]) then Some(to[k]) else None) &&
    (forall k :: k in unset <==> k in from && k !in to) &&
    forall i, j :: 0 <= i < j < |unset| ==> Leq(unset[i], unset[j]) && unset[i] != unset[j]
  }

  /** A patch sets the properties that differ and unsets those that went, in order, and says what else changed. */
  ghost predicate FieldsDiffer(from: Draft, to: Draft, p: Patch) {
    KeysSay(from.props, to.props, p.props, p.unset) &&
    p.owner == (if to.owner != from.owner then to.owner else NoUrl) &&
    p.state == (if to.state != from.state then Some(StateMove(from.state, to.state)) else None) &&
    p.deleted == (if to.deleted != from.deleted then Some(to.deleted) else None)
  }

  // Two links are of one type and of one thing.
  predicate OneLink(a: DraftLink, b: DraftLink) { a.typ == b.typ && a.to == b.to && a.target == b.target }

  /** No link is removed that one added replaces, and none is changed or removed that stands as it is. */
  ghost predicate Sparing(from: seq<DraftLink>, to: seq<DraftLink>) {
    (forall x, l :: x in LinkAdds(from, to) && l in LinkRemoves(from, to) ==> !OneLink(x, l)) &&
    (forall x, l :: x in LinkAdds(from, to) && l in Left(from, to) ==> !(OneLink(x, l) && x.props == l.props)) &&
    forall l :: l in LinkRemoves(from, to) ==> l in Left(from, to)
  }

  lemma PatchFieldsDiffer(from: Draft, to: Draft)
    ensures FieldsDiffer(from, to, PatchBetween(from, to))
  {
    var p := PatchBetween(from, to);
    KeysDiffer(from.props, to.props, p.props, p.unset);
    FieldsDifferIn(from, to, p);
  }

  lemma KeysDiffer(from: map<string, Json>, to: map<string, Json>, props: map<string, Json>, unset: seq<string>)
    requires props == PropsDiff(from, to) && unset == SortedKeys(from.Keys - to.Keys)
    ensures KeysSay(from, to, props, unset)
  {
    SortedAscend(from.Keys - to.Keys);
    PropsDiffer(from, to);
  }

  lemma FieldsDifferIn(from: Draft, to: Draft, p: Patch)
    requires KeysSay(from.props, to.props, p.props, p.unset) && p.owner == (if to.owner != from.owner then to.owner else NoUrl)
    requires p.state == (if to.state != from.state then Some(StateMove(from.state, to.state)) else None)
    requires p.deleted == (if to.deleted != from.deleted then Some(to.deleted) else None)
    ensures FieldsDiffer(from, to, p)
  {
  }

  lemma PropsDiffer(from: map<string, Json>, to: map<string, Json>)
    ensures forall k :: Lookup(PropsDiff(from, to), k) == if k in to && (k !in from || from[k] != to[k]) then Some(to[k]) else None
    ensures forall k :: k in SortedKeys(from.Keys - to.Keys) <==> k in from && k !in to
  {
  }

  lemma {:induction false} UnmatchedHasNone(ls: seq<DraftLink>, to: seq<DraftLink>, before: seq<int>, same: bool, l: DraftLink, j: nat)
    requires l in Unmatched(ls, Matches(ls, to, before, same)) && j < |to| && j !in before + Matches(ls, to, before, same)
    ensures !Alike(to[j], l, same) && l in ls
  {
    var n := |ls| - 1;
    var m := Matches(ls[..n], to, before, same);
    assert Matches(ls, to, before, same)[..n] == m;
    LastSplits(ls);
    if l in Unmatched(ls[..n], m) {
      UnmatchedHasNone(ls[..n], to, before, same, l, j);
    }
  }

  lemma {:induction false} FreeIsAt(to: seq<DraftLink>, taken: seq<int>, x: DraftLink) returns (j: nat)
    requires x in Free(to, taken)
    ensures j < |to| && to[j] == x && j !in taken
  {
    var n := |to| - 1;
    if x in Free(to[..n], taken) { j := FreeIsAt(to[..n], taken, x); } else { j := n; }
  }

  lemma {:induction false} UnmatchedWithin(ls: seq<DraftLink>, m: seq<int>, l: DraftLink)
    requires |m| == |ls| && l in Unmatched(ls, m)
    ensures l in ls
  {
    var n := |ls| - 1;
    LastSplits(ls);
    if l in Unmatched(ls[..n], m[..n]) { UnmatchedWithin(ls[..n], m[..n], l); }
  }

  lemma DiffIsSparing(from: seq<DraftLink>, to: seq<DraftLink>)
    ensures Sparing(from, to)
  {
    var left, exact, loose := Left(from, to), Exact(from, to), Loose(from, to);
    forall x, l | x in LinkAdds(from, to) && l in LinkRemoves(from, to) ensures !OneLink(x, l) {
      var j := FreeIsAt(to, exact + loose, x);
      UnmatchedHasNone(left, to, exact, false, l, j);
    }
    forall x, l | x in LinkAdds(from, to) && l in Left(from, to) ensures !(OneLink(x, l) && x.props == l.props) {
      var j := FreeIsAt(to, exact + loose, x);
      UnmatchedHasNone(from, to, [], true, l, j);
    }
    forall l | l in LinkRemoves(from, to) ensures l in left { UnmatchedWithin(left, loose, l); }
  }

  /** The patch between two drafts says what differs, field by field, and spares the links that stand. */
  lemma PatchSaysTheDifference(from: Draft, to: Draft)
    ensures FieldsDiffer(from, to, PatchBetween(from, to)) && Sparing(from.links, to.links)
  {
    PatchFieldsDiffer(from, to);
    DiffIsSparing(from.links, to.links);
  }
}
