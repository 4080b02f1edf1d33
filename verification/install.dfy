// What the adoption of a branch installs on main (graph/graph/flownodes.go): the drafts the branch holds, and main's own
// without what the runs the branch replaces wrote of them.
module Installs {
  import opened Prelude
  import opened Domain
  import opened ImpactFold
  import opened ReviewLaws
  import opened Drafts
  import opened DraftFold
  import Adoption

  // ---- what is asked of the branch

  function NodeOf(cn: ChangeImpact): string {
    if cn.post.Some? then cn.post.value.id else if cn.pre.Some? then cn.pre.value.id else ""
  }

  // Whether the last review of a flow accepts, as it was known before.
  ghost function AcceptedAfter(reviews: seq<Review>, flow: string, before: bool): bool {
    if reviews == [] then before
    else
      var r := reviews[|reviews| - 1];
      if CountsOn(r, flow) then r.status == ReviewAccepted else AcceptedAfter(reviews[..|reviews| - 1], flow, before)
  }

  // Whether the last review of a flow accepts a node.
  ghost function AcceptedOn(impacts: seq<ChangeImpact>, node: string, flow: string): bool {
    if impacts == [] then false
    else
      var n := |impacts| - 1;
      var before := AcceptedOn(impacts[..n], node, flow);
      if NodeOf(impacts[n]) == node then AcceptedAfter(impacts[n].reviews, flow, before) else before
  }

  // ---- acceptance, by positions

  predicate Names(cn: ChangeImpact, node: string) {
    if cn.post.Some? then cn.post.value.id == node else if cn.pre.Some? then cn.pre.value.id == node else node == ""
  }

  predicate OfFlow(r: Review, flow: string) { r.flow == flow && !r.superseded }

  // The last review made on a flow, among those of an impact.
  predicate LastIn(reviews: seq<Review>, flow: string, j: nat) {
    j < |reviews| && OfFlow(reviews[j], flow) && forall k :: j < k < |reviews| ==> !OfFlow(reviews[k], flow)
  }

  predicate NoneIn(reviews: seq<Review>, flow: string) { forall k :: 0 <= k < |reviews| ==> !OfFlow(reviews[k], flow) }

  // The last review made on a flow of a node: that of an impact of it, none being on a later impact of it.
  predicate LastAt(impacts: seq<ChangeImpact>, node: string, flow: string, i: nat, j: nat) {
    i < |impacts| && Names(impacts[i], node) && LastIn(impacts[i].reviews, flow, j) &&
    forall m :: i < m < |impacts| && Names(impacts[m], node) ==> NoneIn(impacts[m].reviews, flow)
  }

  /** The last review made on a flow of a node accepts it. */
  ghost predicate LastAccepts(impacts: seq<ChangeImpact>, node: string, flow: string) {
    exists i: nat, j: nat :: LastAt(impacts, node, flow, i, j) && impacts[i].reviews[j].status == ReviewAccepted
  }

  lemma {:induction false} AcceptedByLast(reviews: seq<Review>, flow: string, before: bool, j: nat)
    requires LastIn(reviews, flow, j)
    ensures AcceptedAfter(reviews, flow, before) <==> reviews[j].status == ReviewAccepted
  {
    if j < |reviews| - 1 { AcceptedByLast(reviews[..|reviews| - 1], flow, before, j); }
  }

  lemma {:induction false} AcceptedByNone(reviews: seq<Review>, flow: string, before: bool)
    requires NoneIn(reviews, flow)
    ensures AcceptedAfter(reviews, flow, before) == before
  {
    if reviews != [] { AcceptedByNone(reviews[..|reviews| - 1], flow, before); }
  }

  lemma {:induction false} LastOrNone(reviews: seq<Review>, flow: string)
    ensures NoneIn(reviews, flow) || exists j: nat :: LastIn(reviews, flow, j)
  {
    if reviews != [] {
      var n := |reviews| - 1;
      if OfFlow(reviews[n], flow) {
        assert LastIn(reviews, flow, n);
      } else {
        LastOrNone(reviews[..n], flow);
        if j: nat :| LastIn(reviews[..n], flow, j) { assert LastIn(reviews, flow, j); }
      }
    }
  }

  // The last impact says it when it has a review of the flow.
  lemma LastImpactSays(impacts: seq<ChangeImpact>, node: string, flow: string, j: nat)
    requires impacts != [] && Names(impacts[|impacts| - 1], node) && LastIn(impacts[|impacts| - 1].reviews, flow, j)
    ensures LastAccepts(impacts, node, flow) <==> impacts[|impacts| - 1].reviews[j].status == ReviewAccepted
  {
    var n := |impacts| - 1;
    assert LastAt(impacts, node, flow, n, j);
    if i: nat, k: nat :| LastAt(impacts, node, flow, i, k) && impacts[i].reviews[k].status == ReviewAccepted {
      assert !NoneIn(impacts[n].reviews, flow);
      assert i == n && k == j;
    }
  }

  lemma LastImpactIsSilent(impacts: seq<ChangeImpact>, node: string, flow: string)
    requires impacts != [] && (Names(impacts[|impacts| - 1], node) ==> NoneIn(impacts[|impacts| - 1].reviews, flow))
    ensures LastAccepts(impacts, node, flow) <==> LastAccepts(impacts[..|impacts| - 1], node, flow)
  {
    var rest := impacts[..|impacts| - 1];
    if i: nat, k: nat :| LastAt(impacts, node, flow, i, k) && impacts[i].reviews[k].status == ReviewAccepted {
      LastAtBefore(impacts, node, flow, i, k);
    }
    if i: nat, k: nat :| LastAt(rest, node, flow, i, k) && rest[i].reviews[k].status == ReviewAccepted {
      LastAtStill(impacts, node, flow, i, k);
    }
  }

  lemma LastAtBefore(impacts: seq<ChangeImpact>, node: string, flow: string, i: nat, j: nat)
    requires impacts != [] && (Names(impacts[|impacts| - 1], node) ==> NoneIn(impacts[|impacts| - 1].reviews, flow))
    requires LastAt(impacts, node, flow, i, j)
    ensures i < |impacts| - 1 && LastAt(impacts[..|impacts| - 1], node, flow, i, j)
  {
    assert !NoneIn(impacts[i].reviews, flow);
  }

  lemma LastAtStill(impacts: seq<ChangeImpact>, node: string, flow: string, i: nat, j: nat)
    requires impacts != [] && (Names(impacts[|impacts| - 1], node) ==> NoneIn(impacts[|impacts| - 1].reviews, flow))
    requires LastAt(impacts[..|impacts| - 1], node, flow, i, j)
    ensures i < |impacts| - 1 && LastAt(impacts, node, flow, i, j)
  {
    var rest := impacts[..|impacts| - 1];
    forall m | i < m < |impacts| && Names(impacts[m], node) ensures NoneIn(impacts[m].reviews, flow) {
      if m < |rest| { assert rest[m] == impacts[m]; }
    }
  }

  lemma {:induction false} AcceptedIsLast(impacts: seq<ChangeImpact>, node: string, flow: string)
    ensures AcceptedOn(impacts, node, flow) <==> LastAccepts(impacts, node, flow)
  {
    if impacts != [] {
      var n := |impacts| - 1;
      var cn, before := impacts[n], AcceptedOn(impacts[..n], node, flow);
      AcceptedIsLast(impacts[..n], node, flow);
      LastOrNone(cn.reviews, flow);
      if Names(cn, node) && !NoneIn(cn.reviews, flow) {
        var j: nat :| LastIn(cn.reviews, flow, j);
        AcceptedByLast(cn.reviews, flow, before, j);
        LastImpactSays(impacts, node, flow, j);
      } else {
        if Names(cn, node) { AcceptedByNone(cn.reviews, flow, before); }
        LastImpactIsSilent(impacts, node, flow);
      }
    }
  }

  method AcceptedOnFlow(impacts: seq<ChangeImpact>, node: string, flow: string) returns (accepted: bool)
    ensures accepted == AcceptedOn(impacts, node, flow)
  {
    accepted := false;
    for i := 0 to |impacts|
      invariant accepted == AcceptedOn(impacts[..i], node, flow)
    {
      PrefixGrows(impacts, i);
      if NodeOf(impacts[i]) == node { accepted := AcceptedIn(impacts[i].reviews, flow, accepted); }
    }
    WholePrefix(impacts);
  }

  method AcceptedIn(reviews: seq<Review>, flow: string, before: bool) returns (accepted: bool)
    ensures accepted == AcceptedAfter(reviews, flow, before)
  {
    accepted := before;
    for i := 0 to |reviews|
      invariant accepted == AcceptedAfter(reviews[..i], flow, before)
    {
      PrefixGrows(reviews, i);
      var r := reviews[i];
      if r.flow == flow && !r.superseded { accepted := r.status == ReviewAccepted; }
    }
    WholePrefix(reviews);
  }

  predicate StartsDraft(e: ImpactEvent) { e.draft.Some? && e.op.WritesPost() }

  // Where the flow first took the draft of an impact, 0 when it did not.
  function ForkedAt(events: seq<ImpactEvent>, id: string, flow: string): int {
    if events == [] then 0
    else
      var n := |events| - 1;
      var before := ForkedAt(events[..n], id, flow);
      if events[n].impact == id && events[n].flow == flow && StartsDraft(events[n]) && before == 0 then events[n].seqNo else before
  }

  // A run that stands changed main's draft of an impact after the flow took its own.
  predicate MovedOn(events: seq<ImpactEvent>, id: string, flow: string, stale: set<string>) {
    events != [] &&
    var n := |events| - 1;
    var before := ForkedAt(events[..n], id, flow);
    MovedOn(events[..n], id, flow, stale) ||
    (events[n].impact == id && !(events[n].flow == flow && StartsDraft(events[n]) && before == 0) &&
     before > 0 && events[n].flow == "" && events[n].seqNo > before && EditsDraft(events[n].op) &&
     !Adoption.Stale(events[n].execution, stale))
  }

  // ---- moved on, by positions

  // The event takes the draft of an impact on a flow, and is numbered.
  predicate TakesUp(e: ImpactEvent, id: string, flow: string) {
    e.impact == id && e.flow == flow && e.draft.Some? && e.seqNo != 0 &&
    (e.op == ImpactCreated || e.op == ImpactCheckedOut || e.op == ImpactTransitioned)
  }

  // The event changes main's draft of an impact, by no run of some.
  predicate ChangesMain(e: ImpactEvent, id: string, stale: set<string>) {
    e.impact == id && e.flow == "" && (e.execution == "" || e.execution !in stale) &&
    (e.op == ImpactCreated || e.op == ImpactCheckedOut || e.op == ImpactTransitioned || e.op == ImpactUpdated || e.op == ImpactCancelled)
  }

  // Where the flow first took the draft of an impact.
  predicate FirstTaking(events: seq<ImpactEvent>, id: string, flow: string, p: nat) {
    p < |events| && TakesUp(events[p], id, flow) && forall m :: 0 <= m < p ==> !TakesUp(events[m], id, flow)
  }

  predicate ChangedAt(events: seq<ImpactEvent>, id: string, flow: string, stale: set<string>, p: nat, q: nat) {
    FirstTaking(events, id, flow, p) && p < q < |events| && ChangesMain(events[q], id, stale) && 0 < events[p].seqNo < events[q].seqNo
  }

  /** Main's draft of an impact was changed, by a run that stands, after the flow first took its own. */
  ghost predicate ChangedSince(events: seq<ImpactEvent>, id: string, flow: string, stale: set<string>) {
    exists p: nat, q: nat :: ChangedAt(events, id, flow, stale, p, q)
  }

  lemma {:induction false} ForkIsFirst(events: seq<ImpactEvent>, id: string, flow: string)
    ensures if ForkedAt(events, id, flow) == 0 then forall m :: 0 <= m < |events| ==> !TakesUp(events[m], id, flow)
            else exists p: nat :: FirstTaking(events, id, flow, p) && events[p].seqNo == ForkedAt(events, id, flow)
  {
    if events != [] {
      var n := |events| - 1;
      ForkIsFirst(events[..n], id, flow);
      if ForkedAt(events[..n], id, flow) != 0 {
        var p: nat :| FirstTaking(events[..n], id, flow, p) && events[..n][p].seqNo == ForkedAt(events[..n], id, flow);
        assert FirstTaking(events, id, flow, p);
      } else if TakesUp(events[n], id, flow) {
        assert FirstTaking(events, id, flow, n);
      }
    }
  }

  ghost predicate ChangedTo(events: seq<ImpactEvent>, id: string, flow: string, stale: set<string>, q: nat) {
    exists p: nat :: ChangedAt(events, id, flow, stale, p, q)
  }

  lemma ChangedSnoc(events: seq<ImpactEvent>, id: string, flow: string, stale: set<string>)
    requires events != []
    ensures ChangedSince(events, id, flow, stale) <==>
            ChangedSince(events[..|events| - 1], id, flow, stale) || ChangedTo(events, id, flow, stale, |events| - 1)
  {
    var n := |events| - 1;
    var rest := events[..n];
    if p: nat, q: nat :| ChangedAt(events, id, flow, stale, p, q) && q < n { assert ChangedAt(rest, id, flow, stale, p, q); }
    if p: nat, q: nat :| ChangedAt(rest, id, flow, stale, p, q) { assert ChangedAt(events, id, flow, stale, p, q); }
  }

  lemma ChangedByLast(events: seq<ImpactEvent>, id: string, flow: string, stale: set<string>)
    requires events != []
    ensures var n := |events| - 1;
            ChangedTo(events, id, flow, stale, n) <==>
            ChangesMain(events[n], id, stale) && 0 < ForkedAt(events[..n], id, flow) < events[n].seqNo
  {
    var n := |events| - 1;
    var rest := events[..n];
    ForkIsFirst(rest, id, flow);
    if p: nat :| ChangedAt(events, id, flow, stale, p, n) {
      assert FirstTaking(rest, id, flow, p) && TakesUp(rest[p], id, flow);
    }
    if ForkedAt(rest, id, flow) != 0 {
      var p: nat :| FirstTaking(rest, id, flow, p) && rest[p].seqNo == ForkedAt(rest, id, flow);
      assert FirstTaking(events, id, flow, p);
      if ChangesMain(events[n], id, stale) && 0 < rest[p].seqNo < events[n].seqNo { assert ChangedAt(events, id, flow, stale, p, n); }
    }
  }

  lemma {:induction false} MovedOnIsChanged(events: seq<ImpactEvent>, id: string, flow: string, stale: set<string>)
    ensures MovedOn(events, id, flow, stale) <==> ChangedSince(events, id, flow, stale)
  {
    if events != [] {
      MovedOnIsChanged(events[..|events| - 1], id, flow, stale);
      ChangedSnoc(events, id, flow, stale);
      ChangedByLast(events, id, flow, stale);
    }
  }

  method MainMovedOn(events: seq<ImpactEvent>, id: string, flow: string, stale: set<string>) returns (moved: bool)
    ensures moved == MovedOn(events, id, flow, stale)
  {
    var forked := 0;
    moved := false;
    for i := 0 to |events|
      invariant moved == MovedOn(events[..i], id, flow, stale)
      invariant !moved ==> forked == ForkedAt(events[..i], id, flow)
    {
      PrefixGrows(events, i);
      var e := events[i];
      if moved || e.impact != id { continue; }
      if e.flow == flow && StartsDraft(e) && forked == 0 {
        forked := e.seqNo;
      } else if forked > 0 && e.flow == "" && e.seqNo > forked && EditsDraft(e.op) && !Adoption.Stale(e.execution, stale) {
        moved := true;
      }
    }
    WholePrefix(events);
  }

  // ---- what is installed

  // The runs a branch replaces: an event of no run is of none of them.
  function Runs(stale: set<string>): set<string> { stale - {""} }

  // What a draft holds: not its flow, nor its run, nor the ids of its links.
  function Held(d: Draft): Draft {
    d.(flow := "", execution := "", links := seq(|d.links|, i requires 0 <= i < |d.links| => d.links[i].(id := "")))
  }

  // A draft installed on main; the patch, which names the flow, changes nothing of a draft that comes with it.
  function DraftInstall(change: string, id: string, d: Draft, writer: string): ImpactEvent {
    ImpactEvent("", change, 0, id, ImpactTransitioned, "", d.execution, writer, "", 0, "", None, Some(DraftRef(d.node)), Some(d), None,
                None, None, None, "", "", false, None, [], Some(EmptyPatch))
  }

  function CancelInstall(change: string, id: string, writer: string): ImpactEvent {
    ImpactEvent("", change, 0, id, ImpactCancelled, "", "", writer, "", 0, "", None, None, None, None, None, None, None, "", "", false,
                None, [], None)
  }

  // An adoption: of a flow, in the place of runs, in a change and by someone.
  datatype Request = Request(change: string, flow: string, stale: seq<string>, writer: string)
  {
    function Stale(): set<string> { Adoption.AsSet(stale) }
  }

  // The draft of main, without what the replaced runs wrote.
  ghost function Kept(events: seq<ImpactEvent>, id: string, r: Request): Option<Draft> {
    SeenDraft(events, id, [], Runs(r.Stale()))
  }

  // The drafts of an impact an adoption looks at: the flow's, main's, and what main's is without the replaced runs.
  datatype Sides = Sides(own: Option<Draft>, main: Option<Draft>, kept: Option<Draft>)
  {
    predicate TakenBack() { own.None? && main.Some? && kept.None? }

    predicate Standing() { own.Some? || (main.Some? && kept.Some?) }
  }

  ghost function SidesIn(events: seq<ImpactEvent>, drafts: seq<Draft>, id: string, r: Request): Sides {
    Sides(Row(drafts, id, r.flow), Row(drafts, id, ""), Kept(events, id, r))
  }

  // What main's draft of an impact becomes: one installed in its place, or nothing of it.
  function Chosen(cn: ChangeImpact, s: Sides, r: Request): Option<ImpactEvent> {
    if s.own.Some? then Some(DraftInstall(r.change, cn.id, s.own.value, r.writer))
    else if s.main.None? || (cn.flow == "" && !cn.superseded && Adoption.Stale(cn.execution, r.Stale())) then None
    else if s.kept.None? then Some(CancelInstall(r.change, cn.id, r.writer))
    else if Held(s.kept.value) != Held(s.main.value) then Some(DraftInstall(r.change, cn.id, s.kept.value, r.writer))
    else None
  }

  ghost function InstallOf(events: seq<ImpactEvent>, drafts: seq<Draft>, cn: ChangeImpact, r: Request): Option<ImpactEvent> {
    Chosen(cn, SidesIn(events, drafts, cn.id, r), r)
  }

  // A draft of the branch it did not accept, or that main changed since.
  ghost predicate Refuses(events: seq<ImpactEvent>, impacts: seq<ChangeImpact>, drafts: seq<Draft>, cn: ChangeImpact, r: Request) {
    Row(drafts, cn.id, r.flow).Some? && (!AcceptedOn(impacts, NodeOf(cn), r.flow) || MovedOn(events, cn.id, r.flow, r.Stale()))
  }

  ghost function InstallsOf(events: seq<ImpactEvent>, drafts: seq<Draft>, impacts: seq<ChangeImpact>,
                            r: Request): seq<ImpactEvent> {
    if impacts == [] then []
    else
      var n := |impacts| - 1;
      var before, install := InstallsOf(events, drafts, impacts[..n], r), InstallOf(events, drafts, impacts[n], r);
      if install.Some? then before + [install.value] else before
  }

  method RowOf(drafts: seq<Draft>, impact: string, flow: string) returns (d: Option<Draft>)
    ensures d == Row(drafts, impact, flow)
  {
    var at := FindRow(drafts, impact, flow);
    d := if at >= 0 then Some(drafts[at]) else None;
  }

  method InstallFor(events: seq<ImpactEvent>, drafts: seq<Draft>, cn: ChangeImpact,
                    r: Request) returns (install: Option<ImpactEvent>)
    ensures install == InstallOf(events, drafts, cn, r)
  {
    var fd := RowOf(drafts, cn.id, r.flow);
    if fd.Some? { return Some(DraftInstall(r.change, cn.id, fd.value, r.writer)); }
    var md := RowOf(drafts, cn.id, "");
    if md.None? || (cn.flow == "" && !cn.superseded && Adoption.Stale(cn.execution, r.Stale())) { return None; }
    var kept := DraftSeenBy(events, cn.id, [], Runs(r.Stale()));
    if kept.None? { return Some(CancelInstall(r.change, cn.id, r.writer)); }
    if Held(kept.value) != Held(md.value) { return Some(DraftInstall(r.change, cn.id, kept.value, r.writer)); }
    return None;
  }

  method IsRefused(events: seq<ImpactEvent>, impacts: seq<ChangeImpact>, drafts: seq<Draft>, cn: ChangeImpact, r: Request)
    returns (refused: bool)
    ensures refused == Refuses(events, impacts, drafts, cn, r)
  {
    var fd := RowOf(drafts, cn.id, r.flow);
    if fd.None? { return false; }
    var accepted := AcceptedOnFlow(impacts, NodeOf(cn), r.flow);
    if !accepted { return true; }
    refused := MainMovedOn(events, cn.id, r.flow, r.Stale());
  }

  ghost predicate RefusesAny(events: seq<ImpactEvent>, impacts: seq<ChangeImpact>, drafts: seq<Draft>, n: nat, r: Request)
    requires n <= |impacts|
  {
    exists k :: 0 <= k < n && Refuses(events, impacts, drafts, impacts[k], r)
  }

  lemma OneMayRefuse(events: seq<ImpactEvent>, impacts: seq<ChangeImpact>, drafts: seq<Draft>, i: nat, r: Request)
    requires i < |impacts|
    ensures RefusesAny(events, impacts, drafts, i + 1, r) <==>
            RefusesAny(events, impacts, drafts, i, r) || Refuses(events, impacts, drafts, impacts[i], r)
    ensures RefusesAny(events, impacts, drafts, i + 1, r) ==> RefusesAny(events, impacts, drafts, |impacts|, r)
  {
  }

  /** The draft the flow holds of an impact, if it holds one, was accepted on it last, and main's was not changed since. */
  ghost predicate MayInstall(events: seq<ImpactEvent>, impacts: seq<ChangeImpact>, drafts: seq<Draft>, cn: ChangeImpact, r: Request) {
    (exists d :: d in drafts && d.impact == cn.id && d.flow == r.flow) ==>
      LastAccepts(impacts, NodeOf(cn), r.flow) && !ChangedSince(events, cn.id, r.flow, r.Stale())
  }

  lemma RefusalIs(events: seq<ImpactEvent>, impacts: seq<ChangeImpact>, drafts: seq<Draft>, cn: ChangeImpact, r: Request)
    ensures Refuses(events, impacts, drafts, cn, r) <==> !MayInstall(events, impacts, drafts, cn, r)
  {
    AcceptedIsLast(impacts, NodeOf(cn), r.flow);
    MovedOnIsChanged(events, cn.id, r.flow, r.Stale());
    RowIsThere(drafts, cn.id, r.flow);
  }

  lemma RowIsThere(drafts: seq<Draft>, impact: string, flow: string)
    ensures Row(drafts, impact, flow).Some? <==> exists d :: d in drafts && d.impact == impact && d.flow == flow
  {
    var at := RowAt(drafts, impact, flow);
    if at >= 0 { assert drafts[at] in drafts; }
  }

  lemma NoneRefuses(events: seq<ImpactEvent>, impacts: seq<ChangeImpact>, drafts: seq<Draft>, r: Request)
    ensures !RefusesAny(events, impacts, drafts, |impacts|, r) <==> forall cn :: cn in impacts ==> MayInstall(events, impacts, drafts, cn, r)
  {
    forall k | 0 <= k < |impacts|
      ensures impacts[k] in impacts && (Refuses(events, impacts, drafts, impacts[k], r) <==> !MayInstall(events, impacts, drafts, impacts[k], r))
    {
      RefusalIs(events, impacts, drafts, impacts[k], r);
    }
  }

  /** What the adoption of a flow installs on main, impact by impact; None: the adoption is refused. */
  method AdoptNodes(events: seq<ImpactEvent>, drafts: seq<Draft>, impacts: seq<ChangeImpact>, r: Request)
    returns (installs: Option<seq<ImpactEvent>>)
    ensures installs.Some? <==> forall cn :: cn in impacts ==> MayInstall(events, impacts, drafts, cn, r)
    ensures installs.Some? ==> installs.value == InstallsOf(events, drafts, impacts, r)
  {
    var out: seq<ImpactEvent> := [];
    for i := 0 to |impacts|
      invariant out == InstallsOf(events, drafts, impacts[..i], r)
      invariant !RefusesAny(events, impacts, drafts, i, r)
    {
      PrefixGrows(impacts, i);
      var refused := IsRefused(events, impacts, drafts, impacts[i], r);
      OneMayRefuse(events, impacts, drafts, i, r);
      if refused {
        NoneRefuses(events, impacts, drafts, r);
        return None;
      }
      var install := InstallFor(events, drafts, impacts[i], r);
      if install.Some? { out := out + [install.value]; }
    }
    WholePrefix(impacts);
    NoneRefuses(events, impacts, drafts, r);
    installs := Some(out);
  }

  // ---- what is recorded

  ghost predicate Installable(installs: seq<ImpactEvent>) { forall e :: e in installs ==> e.Foldable() }

  // The log once the installs were recorded, those of impacts that are gone or replaced left out.
  ghost function AfterInstalls(log: seq<ImpactEvent>, installs: seq<ImpactEvent>): (out: seq<ImpactEvent>)
    requires FoldableLog(log) && Installable(installs)
    ensures FoldableLog(out)
  {
    if installs == [] then log
    else
      var n := |installs| - 1;
      var before := AfterInstalls(log, installs[..n]);
      if Live(Fold(before), installs[n].impact) then before + [installs[n]] else before
  }

  function AdoptedEvent(r: Request): ImpactEvent {
    ImpactEvent("", r.change, 0, "", ImpactAdopted, r.flow, "", r.writer, "", 0, "", None, None, None, None, None, None, None, "", "",
                false, None, r.stale, None)
  }

  /** The log of an adoption: the event of the flow, then the installs. */
  method AdoptChangeImpacts(events: seq<ImpactEvent>, installs: seq<ImpactEvent>, r: Request) returns (log: seq<ImpactEvent>)
    requires FoldableLog(events) && Installable(installs) && r.flow != ""
    ensures FoldableLog(events + [AdoptedEvent(r)]) && log == AfterInstalls(events + [AdoptedEvent(r)], installs)
  {
    log := events + [AdoptedEvent(r)];
    ghost var adopted := log;
    for i := 0 to |installs|
      invariant FoldableLog(adopted) && FoldableLog(log) && log == AfterInstalls(adopted, installs[..i])
    {
      PrefixGrows(installs, i);
      var impacts := FoldImpacts(log);
      var live := IsLive(impacts, installs[i].impact);
      if live { log := log + [installs[i]]; }
    }
    WholePrefix(installs);
  }

  // ---- one impact in an adoption

  // The install of an impact: the events of main, each of another impact.
  ghost predicate MainInstalls(installs: seq<ImpactEvent>) {
    (forall e :: e in installs ==> e.Foldable() && e.flow == "" && (e.op == ImpactTransitioned || e.op == ImpactCancelled)) &&
    forall i, j :: 0 <= i < j < |installs| ==> installs[i].impact != installs[j].impact
  }

  ghost function InstallIn(installs: seq<ImpactEvent>, id: string): (e: Option<ImpactEvent>)
    ensures e.Some? ==> e.value in installs && e.value.impact == id
  {
    if installs == [] then None
    else
      var last := installs[|installs| - 1];
      if last.impact == id then Some(last) else InstallIn(installs[..|installs| - 1], id)
  }

  lemma {:induction false} InstallInHas(installs: seq<ImpactEvent>, id: string)
    ensures InstallIn(installs, id).Some? <==> exists e :: e in installs && e.impact == id
  {
    if installs != [] {
      InstallInHas(installs[..|installs| - 1], id);
      LastSplits(installs);
    }
  }

  lemma InstallIsFoldable(events: seq<ImpactEvent>, drafts: seq<Draft>, cn: ChangeImpact, r: Request)
    requires cn.id != "" && InstallOf(events, drafts, cn, r).Some?
    ensures var e := InstallOf(events, drafts, cn, r).value;
            e.Foldable() && e.flow == "" && (e.op == ImpactTransitioned || e.op == ImpactCancelled) && e.impact == cn.id
  {
  }

  ghost predicate Named(impacts: seq<ChangeImpact>) { forall cn :: cn in impacts ==> cn.id != "" }

  lemma OneMoreInstall(installs: seq<ImpactEvent>, e: ImpactEvent)
    requires MainInstalls(installs) && InstallIn(installs, e.impact).None?
    requires e.Foldable() && e.flow == "" && (e.op == ImpactTransitioned || e.op == ImpactCancelled)
    ensures MainInstalls(installs + [e])
  {
    InstallInHas(installs, e.impact);
    assert forall k :: 0 <= k < |installs| ==> installs[k] in installs;
  }

  // The install of each impact is its own.
  lemma {:induction false} InstallsAre(events: seq<ImpactEvent>, drafts: seq<Draft>, impacts: seq<ChangeImpact>, r: Request,
                                       id: string)
    requires UniqueIds(impacts) && Named(impacts)
    ensures MainInstalls(InstallsOf(events, drafts, impacts, r))
    ensures InstallIn(InstallsOf(events, drafts, impacts, r), id) ==
            if Find(impacts, id).None? then None else InstallOf(events, drafts, Find(impacts, id).value, r)
  {
    if impacts != [] {
      var n := |impacts| - 1;
      var cn, before := impacts[n], InstallsOf(events, drafts, impacts[..n], r);
      LastSplits(impacts);
      FindLast(impacts, id);
      FindLast(impacts, cn.id);
      InstallsAre(events, drafts, impacts[..n], r, id);
      InstallsAre(events, drafts, impacts[..n], r, cn.id);
      var install := InstallOf(events, drafts, cn, r);
      if install.Some? {
        InstallIsFoldable(events, drafts, cn, r);
        OneMoreInstall(before, install.value);
        assert (before + [install.value])[..|before|] == before;
      }
    }
  }

  lemma FindLast(impacts: seq<ChangeImpact>, id: string)
    requires UniqueIds(impacts) && impacts != []
    ensures var n := |impacts| - 1;
            UniqueIds(impacts[..n]) && Find(impacts[..n], impacts[n].id).None? &&
            Find(impacts, id) == if impacts[n].id == id then Some(impacts[n]) else Find(impacts[..n], id)
  {
    var n := |impacts| - 1;
    FoundNowhere(impacts[..n], impacts[n].id);
    var i := Position(impacts, id);
    if impacts[n].id == id {
      FoundAt(impacts, id, n);
    } else if i >= 0 {
      FoundAt(impacts[..n], id, i);
    } else {
      FoundNowhere(impacts[..n], id);
    }
  }

  // What main has of an impact: the impact and the row of its draft.
  ghost predicate MainHas(log: seq<ImpactEvent>, id: string, cn: Option<ChangeImpact>, row: Option<Draft>) {
    FoldableLog(log) && Find(Fold(log), id) == cn && Row(DraftsOf(log), id, "") == row
  }

  lemma EventLands(log: seq<ImpactEvent>, e: ImpactEvent, id: string)
    requires FoldableLog(log) && e.Foldable()
    ensures var next := Next(Find(Fold(log), id), id, e);
            MainHas(log + [e], id, next, NextRow(Row(DraftsOf(log), id, ""), id, "", e, next.Some? && !next.value.superseded))
  {
    var after := log + [e];
    assert after[..|after| - 1] == log;
    FoldGrows(after, id);
    RowsAreUnique(log);
    DraftStepIsPointwise(DraftsOf(log), e, Fold(after), id, "");
  }

  // What main has of an impact once its install, if it has one, is there.
  ghost predicate Landed(log: seq<ImpactEvent>, id: string, cn: ChangeImpact, row: Option<Draft>, e: Option<ImpactEvent>)
    requires e.Some? ==> e.value.Foldable()
  {
    if e.None? then MainHas(log, id, Some(cn), row)
    else
      var next := Next(Some(cn), id, e.value);
      MainHas(log, id, next, NextRow(row, id, "", e.value, next.Some? && !next.value.superseded))
  }

  // An event of main about another impact.
  lemma OtherLands(log: seq<ImpactEvent>, e: ImpactEvent, id: string, cn: ChangeImpact, row: Option<Draft>,
                   own: Option<ImpactEvent>)
    requires FoldableLog(log) && e.Foldable() && e.impact != id && (e.op == ImpactTransitioned || e.op == ImpactCancelled)
    requires own.Some? ==> own.value.Foldable() && own.value.impact == id && own.value.op != ImpactAdopted
    requires !cn.superseded && Landed(log, id, cn, row, own)
    ensures Landed(log + [e], id, cn, row, own)
  {
    EventLands(log, e, id);
  }

  // One more install, recorded when its impact counts.
  lemma OneLands(before: seq<ImpactEvent>, e: ImpactEvent, id: string, cn: ChangeImpact, row: Option<Draft>,
                 own: Option<ImpactEvent>)
    requires FoldableLog(before) && e.Foldable() && (e.op == ImpactTransitioned || e.op == ImpactCancelled)
    requires own.Some? ==> e.impact != id && own.value.Foldable() && own.value.impact == id && own.value.op != ImpactAdopted
    requires !cn.superseded && Landed(before, id, cn, row, own)
    ensures var after := if Live(Fold(before), e.impact) then before + [e] else before;
            Landed(after, id, cn, row, if e.impact == id then Some(e) else own)
  {
    if e.impact == id {
      EventLands(before, e, id);
    } else if Live(Fold(before), e.impact) {
      OtherLands(before, e, id, cn, row, own);
    }
  }

  /** The installs reach an impact that counts by its own alone. */
  lemma {:induction false} InstallsLand(log: seq<ImpactEvent>, installs: seq<ImpactEvent>, id: string, cn: ChangeImpact,
                                        row: Option<Draft>)
    requires FoldableLog(log) && MainInstalls(installs) && !cn.superseded && MainHas(log, id, Some(cn), row)
    ensures Installable(installs) && Landed(AfterInstalls(log, installs), id, cn, row, InstallIn(installs, id))
  {
    if installs != [] {
      var n := |installs| - 1;
      LastSplits(installs);
      InstallsLand(log, installs[..n], id, cn, row);
      OnceEach(installs);
      OneLands(AfterInstalls(log, installs[..n]), installs[n], id, cn, row, InstallIn(installs[..n], id));
    }
  }

  lemma OnceEach(installs: seq<ImpactEvent>)
    requires MainInstalls(installs) && installs != []
    ensures InstallIn(installs[..|installs| - 1], installs[|installs| - 1].impact).None?
  {
    InstallInHas(installs[..|installs| - 1], installs[|installs| - 1].impact);
  }

  /** An impact that the adoption replaced, or that is gone, receives no install. */
  lemma {:induction false} DeadReceivesNothing(log: seq<ImpactEvent>, installs: seq<ImpactEvent>, id: string)
    requires FoldableLog(log) && MainInstalls(installs) && !Live(Fold(log), id)
    ensures Installable(installs) && Find(Fold(AfterInstalls(log, installs)), id) == Find(Fold(log), id)
  {
    if installs != [] {
      var n := |installs| - 1;
      LastSplits(installs);
      DeadReceivesNothing(log, installs[..n], id);
      var before := AfterInstalls(log, installs[..n]);
      if Live(Fold(before), installs[n].impact) { EventLands(before, installs[n], id); }
    }
  }

  // ---- the work on an impact

  predicate OfEither(f: string, flow: string) { f == "" || f == flow }

  // The event brings the draft of a node, and posts it.
  predicate Takes(e: ImpactEvent, node: string) {
    e.post == Some(DraftRef(node)) && e.draft.Some? && e.draft.value.node == node
  }

  // An event of an impact of main or of a flow, as the graph writes it while the change is worked on: what brings a draft
  // posts it, a transition keeps the draft there is, and a cancelled checkout falls back to a draft or to none.
  ghost predicate Works(was: Option<ChangeImpact>, row: Option<Draft>, e: ImpactEvent, node: string, flow: string)
    requires e.Foldable()
  {
    (was.Some? && was.value.flow == flow && EditsDraft(e.op) ==> e.flow != "") &&
    match e.op
    case ImpactProposed => was.None? && OfEither(e.flow, flow) && e.state.value.flow == e.flow && e.state.value.post.None?
    case ImpactCreated => was.None? && OfEither(e.flow, flow) && e.state.value.flow == e.flow && Takes(e, node)
    case ImpactCheckedOut => OfEither(e.flow, flow) ==> Takes(e, node)
    case ImpactTransitioned => OfEither(e.flow, flow) ==>
      Takes(e, node) || (e.post == Some(DraftRef(node)) && e.draft.None? && row.Some?)
    case ImpactCancelled => OfEither(e.flow, flow) ==>
      e.post.None? || (e.post == Some(DraftRef(node)) && was.Some? && e.flow != was.value.flow)
    case ImpactCommitted => false
    case _ => true
  }

  ghost predicate WorkedOn(events: seq<ImpactEvent>, id: string, node: string, flow: string)
    requires FoldableLog(events)
  {
    forall i :: 0 <= i < |events| ==> WorksAt(events, i, id, node, flow)
  }

  ghost predicate WorksAt(events: seq<ImpactEvent>, i: nat, id: string, node: string, flow: string)
    requires FoldableLog(events) && i < |events|
  {
    var e, before := events[i], events[..i];
    (e.op == ImpactAdopted ==> e.flow != flow) &&
    (e.impact == id ==> Works(Find(Fold(before), id), Row(DraftsOf(before), id, e.flow), e, node, flow))
  }

  // An impact and its drafts say the same: it posts the draft of its own flow, and main has none of a branch's impact.
  ghost predicate InStep(cn: Option<ChangeImpact>, main: Option<Draft>, own: Option<Draft>, node: string, flow: string) {
    (main.Some? ==> main.value.node == node) && (own.Some? ==> own.value.node == node) &&
    if cn.None? then main.None? && own.None?
    else
      OfEither(cn.value.flow, flow) && (cn.value.flow == flow ==> main.None?) &&
      cn.value.post == if (if cn.value.flow == "" then main else own).Some? then Some(DraftRef(node)) else None
  }

  lemma PatchKeepsNode(d: Option<Draft>, e: ImpactEvent)
    ensures DraftAfter(d, e).Some? ==>
              DraftAfter(d, e).value.node == if e.op.WritesPost() && e.draft.Some? then e.draft.value.node else d.value.node
  {
  }

  // What is asked of an event for an impact and its drafts to stay in step.
  ghost predicate StepsWith(cn: Option<ChangeImpact>, main: Option<Draft>, own: Option<Draft>, id: string, e: ImpactEvent,
                            node: string,
                            flow: string)
    requires e.Foldable()
  {
    flow != "" && InStep(cn, main, own, node, flow) && (e.op == ImpactAdopted ==> e.flow != flow) &&
    (e.impact == id ==>
      e.op != ImpactCommitted && Next(cn, id, e).Some? &&
      (if OfEither(e.flow, flow) then Works(cn, if e.flow == "" then main else own, e, node, flow)
       else e.op != ImpactProposed && e.op != ImpactCreated))
  }

  ghost predicate StaysInStep(cn: Option<ChangeImpact>, main: Option<Draft>, own: Option<Draft>, id: string, e: ImpactEvent,
                              node: string,
                              flow: string)
    requires e.Foldable()
  {
    var live := cn.Some? || e.impact == id;
    InStep(Next(cn, id, e), NextRow(main, id, "", e, live), NextRow(own, id, flow, e, live), node, flow)
  }

  lemma OtherStays(cn: Option<ChangeImpact>, main: Option<Draft>, own: Option<Draft>, id: string, e: ImpactEvent, node: string,
                   flow: string)
    requires e.Foldable() && StepsWith(cn, main, own, id, e, node, flow)
    requires e.impact != id || !EditsDraft(e.op)
    ensures StaysInStep(cn, main, own, id, e, node, flow)
  {
  }

  lemma CancelStays(cn: Option<ChangeImpact>, main: Option<Draft>, own: Option<Draft>, id: string, e: ImpactEvent,
                    node: string, flow: string)
    requires e.Foldable() && StepsWith(cn, main, own, id, e, node, flow)
    requires e.impact == id && (e.op == ImpactCancelled || e.op == ImpactUpdated)
    ensures StaysInStep(cn, main, own, id, e, node, flow)
  {
    PatchKeepsNode(main, e);
    PatchKeepsNode(own, e);
    if cn.Some? { EditedPost(cn.value, e); }
  }

  lemma WriteStays(cn: Option<ChangeImpact>, main: Option<Draft>, own: Option<Draft>, id: string, e: ImpactEvent, node: string,
                   flow: string)
    requires e.Foldable() && StepsWith(cn, main, own, id, e, node, flow)
    requires e.impact == id && e.op.WritesPost()
    ensures StaysInStep(cn, main, own, id, e, node, flow)
  {
    if e.op == ImpactCreated { CreationStays(cn, main, own, id, e, node, flow); } else { MoveStays(cn, main, own, id, e, node, flow); }
  }

  lemma CreationStays(cn: Option<ChangeImpact>, main: Option<Draft>, own: Option<Draft>, id: string, e: ImpactEvent,
                      node: string, flow: string)
    requires e.Foldable() && StepsWith(cn, main, own, id, e, node, flow) && e.impact == id && e.op == ImpactCreated
    ensures StaysInStep(cn, main, own, id, e, node, flow)
  {
    PatchKeepsNode(main, e);
    PatchKeepsNode(own, e);
  }

  lemma MoveStays(cn: Option<ChangeImpact>, main: Option<Draft>, own: Option<Draft>, id: string, e: ImpactEvent, node: string,
                  flow: string)
    requires e.Foldable() && StepsWith(cn, main, own, id, e, node, flow)
    requires e.impact == id && (e.op == ImpactCheckedOut || e.op == ImpactTransitioned)
    ensures StaysInStep(cn, main, own, id, e, node, flow)
  {
    if e.flow == "" {
      MainMoveStays(cn, main, own, id, e, node, flow);
    } else if e.flow == flow {
      OwnMoveStays(cn, main, own, id, e, node, flow);
    } else {
      OtherMoveStays(cn, main, own, id, e, node, flow);
    }
  }

  lemma MainMoveStays(cn: Option<ChangeImpact>, main: Option<Draft>, own: Option<Draft>, id: string, e: ImpactEvent,
                      node: string, flow: string)
    requires e.Foldable() && StepsWith(cn, main, own, id, e, node, flow)
    requires e.impact == id && (e.op == ImpactCheckedOut || e.op == ImpactTransitioned) && e.flow == ""
    ensures StaysInStep(cn, main, own, id, e, node, flow)
  {
    PatchKeepsNode(main, e);
  }

  lemma OwnMoveStays(cn: Option<ChangeImpact>, main: Option<Draft>, own: Option<Draft>, id: string, e: ImpactEvent,
                     node: string, flow: string)
    requires e.Foldable() && StepsWith(cn, main, own, id, e, node, flow)
    requires e.impact == id && (e.op == ImpactCheckedOut || e.op == ImpactTransitioned) && e.flow == flow
    ensures StaysInStep(cn, main, own, id, e, node, flow)
  {
    PatchKeepsNode(own, e);
  }

  lemma OtherMoveStays(cn: Option<ChangeImpact>, main: Option<Draft>, own: Option<Draft>, id: string, e: ImpactEvent,
                       node: string, flow: string)
    requires e.Foldable() && StepsWith(cn, main, own, id, e, node, flow)
    requires e.impact == id && (e.op == ImpactCheckedOut || e.op == ImpactTransitioned) && !OfEither(e.flow, flow)
    ensures StaysInStep(cn, main, own, id, e, node, flow)
  {
  }

  lemma WorkStep(cn: Option<ChangeImpact>, main: Option<Draft>, own: Option<Draft>, id: string, e: ImpactEvent, node: string,
                 flow: string)
    requires e.Foldable() && StepsWith(cn, main, own, id, e, node, flow)
    ensures StaysInStep(cn, main, own, id, e, node, flow)
  {
    if e.impact != id || !EditsDraft(e.op) {
      OtherStays(cn, main, own, id, e, node, flow);
    } else if e.op.WritesPost() {
      WriteStays(cn, main, own, id, e, node, flow);
    } else {
      CancelStays(cn, main, own, id, e, node, flow);
    }
  }

  // ---- over a log

  ghost predicate RowsInStep(events: seq<ImpactEvent>, id: string, node: string, flow: string)
    requires FoldableLog(events)
  {
    InStep(Find(Fold(events), id), Row(DraftsOf(events), id, ""), Row(DraftsOf(events), id, flow), node, flow)
  }

  lemma WorkedBefore(events: seq<ImpactEvent>, id: string, node: string, flow: string)
    requires FoldableLog(events) && WorkedOn(events, id, node, flow) && events != []
    ensures WorkedOn(events[..|events| - 1], id, node, flow) && WorksAt(events, |events| - 1, id, node, flow)
  {
    var n := |events| - 1;
    forall i: nat | i < n ensures WorksAt(events[..n], i, id, node, flow) {
      PrefixOfPrefix(events, n, i);
      assert WorksAt(events, i, id, node, flow);
    }
  }

  // An event of a log moves the rows of an impact as it moves them alone.
  lemma RowMoves(events: seq<ImpactEvent>, id: string, flow: string)
    requires FoldableLog(events) && events != []
    ensures var n := |events| - 1;
            Row(DraftsOf(events), id, flow) ==
            NextRow(Row(DraftsOf(events[..n]), id, flow), id, flow, events[n], Live(Fold(events), id))
  {
    var n := |events| - 1;
    RowsAreUnique(events[..n]);
    DraftStepIsPointwise(DraftsOf(events[..n]), events[n], Fold(events), id, flow);
  }

  lemma DeclaredByItsEvent(events: seq<ImpactEvent>, id: string, first: nat)
    requires FoldableLog(events) && LivesSince(events, id, first) && events != []
    ensures var n := |events| - 1;
            LivesSince(events[..n], id, first) && (events[n].impact == id ==> Live(Fold(events), id)) &&
            (Live(Fold(events), id) <==> Find(Fold(events[..n]), id).Some? || events[n].impact == id)
  {
    var n := |events| - 1;
    LivesBefore(events, id, first);
    FoldGrows(events, id);
    WholePrefix(events);
    if first > n {
      UndeclaredBefore(events[..n], id);
    } else if first < n {
      assert LiveAt(events, n, id);
    }
  }

  lemma EventInStep(events: seq<ImpactEvent>, id: string, node: string, flow: string)
    requires FoldableLog(events) && events != [] && flow != "" && WorksAt(events, |events| - 1, id, node, flow)
    requires RowsInStep(events[..|events| - 1], id, node, flow)
    requires var n := |events| - 1;
             (events[n].impact == id ==> Live(Fold(events), id)) &&
             (Live(Fold(events), id) <==> Find(Fold(events[..n]), id).Some? || events[n].impact == id)
    ensures RowsInStep(events, id, node, flow)
  {
    var n := |events| - 1;
    var drafts, cn, e := DraftsOf(events[..n]), Find(Fold(events[..n]), id), events[n];
    FoldGrows(events, id);
    RowMoves(events, id, "");
    RowMoves(events, id, flow);
    WorkStep(cn, Row(drafts, id, ""), Row(drafts, id, flow), id, e, node, flow);
  }

  /** An impact worked on stays in step with its drafts. */
  lemma {:induction false} WorkStaysInStep(events: seq<ImpactEvent>, id: string, first: nat, node: string, flow: string)
    requires FoldableLog(events) && LivesSince(events, id, first) && WorkedOn(events, id, node, flow) && flow != ""
    ensures RowsInStep(events, id, node, flow)
  {
    if events != [] {
      WorkedBefore(events, id, node, flow);
      DeclaredByItsEvent(events, id, first);
      WorkStaysInStep(events[..|events| - 1], id, first, node, flow);
      EventInStep(events, id, node, flow);
    }
  }

  // ---- what the branch sees

  // No run of the flow is among those it replaces.
  ghost predicate OwnRunsStand(events: seq<ImpactEvent>, id: string, r: Request) {
    forall e :: e in events && e.impact == id && e.flow == r.flow ==> !Adoption.Stale(e.execution, r.Stale())
  }

  predicate RefOrNone(post: Option<NodeRef>, node: string) { post.None? || post == Some(DraftRef(node)) }

  lemma {:induction false} PostsName(events: seq<ImpactEvent>, id: string, node: string, flow: string, g: string,
                                     stale: set<string>)
    requires FoldableLog(events) && WorkedOn(events, id, node, flow) && OfEither(g, flow)
    ensures RefOrNone(Adoption.PostOn(events, id, g, stale), node)
  {
    if events != [] {
      WorkedBefore(events, id, node, flow);
      PostsName(events[..|events| - 1], id, node, flow, g, stale);
    }
  }

  // A draft of the flow is posted on it.
  lemma OwnPostStep(events: seq<ImpactEvent>, id: string, node: string, r: Request, was: Option<Draft>,
                    cn: Option<ChangeImpact>, live: bool)
    requires events != [] && OwnRunsStand(events, id, r)
    requires var e := events[|events| - 1];
             e.Foldable() && (e.impact == id && e.flow == r.flow ==> Works(cn, was, e, node, r.flow))
    requires was.Some? ==> Adoption.PostOn(events[..|events| - 1], id, r.flow, r.Stale()).Some?
    ensures NextRow(was, id, r.flow, events[|events| - 1], live).Some? ==> Adoption.PostOn(events, id, r.flow, r.Stale()).Some?
  {
    assert events[|events| - 1] in events;
  }

  lemma {:induction false} OwnPosted(events: seq<ImpactEvent>, id: string, node: string, r: Request)
    requires FoldableLog(events) && WorkedOn(events, id, node, r.flow) && OwnRunsStand(events, id, r)
    ensures Row(DraftsOf(events), id, r.flow).Some? ==> Adoption.PostOn(events, id, r.flow, r.Stale()).Some?
  {
    if events != [] {
      WorkedBefore(events, id, node, r.flow);
      var n := |events| - 1;
      OwnPosted(events[..n], id, node, r);
      RowMoves(events, id, r.flow);
      OwnPostStep(events, id, node, r, Row(DraftsOf(events[..n]), id, r.flow), Find(Fold(events[..n]), id), Live(Fold(events), id));
    }
  }

  lemma {:induction false} SeenNames(events: seq<ImpactEvent>, id: string, node: string, flow: string, order: seq<string>,
                                     stale: set<string>, g: string)
    requires FoldableLog(events) && WorkedOn(events, id, node, flow) && OfEither(g, flow)
    ensures var d := SeenRow(events, id, order, stale, g); d.Some? ==> d.value.node == node
  {
    if events != [] {
      var n := |events| - 1;
      WorkedBefore(events, id, node, flow);
      SeenNames(events[..n], id, node, flow, order, stale, g);
      PatchKeepsNode(SeenRow(events[..n], id, order, stale, g), events[n]);
    }
  }

  // While the impact counts, none of its events ends its drafts.
  lemma EndsNothing(events: seq<ImpactEvent>, id: string, node: string, flow: string)
    requires FoldableLog(events) && events != [] && WorksAt(events, |events| - 1, id, node, flow)
    requires events[|events| - 1].impact == id ==> Live(Fold(events), id)
    ensures events[|events| - 1].impact == id ==> !EndsDrafts(events[|events| - 1].op)
  {
    if events[|events| - 1].impact == id {
      CommitsNothing(events, id, node, flow);
      LiveIsNotWithdrawn(events, id);
    }
  }

  lemma CommitsNothing(events: seq<ImpactEvent>, id: string, node: string, flow: string)
    requires FoldableLog(events) && events != [] && WorksAt(events, |events| - 1, id, node, flow)
    ensures events[|events| - 1].impact == id ==> events[|events| - 1].op != ImpactCommitted
  {
  }

  lemma OwnSeenStep(events: seq<ImpactEvent>, id: string, r: Request, was: Option<Draft>, live: bool)
    requires events != [] && OwnRunsStand(events, id, r)
    requires var e := events[|events| - 1];
             (e.op == ImpactAdopted ==> e.flow != r.flow) && (e.impact == id ==> live && !EndsDrafts(e.op)) && (!live ==> was.None?)
    requires SeenRow(events[..|events| - 1], id, [r.flow, ""], Runs(r.Stale()), r.flow) == was
    ensures SeenRow(events, id, [r.flow, ""], Runs(r.Stale()), r.flow) == NextRow(was, id, r.flow, events[|events| - 1], live)
  {
    var e := events[|events| - 1];
    assert e in events;
    SeenSnoc(events, id, [r.flow, ""], Runs(r.Stale()), r.flow);
    if live { SeesAlike(was, id, r.flow, Runs(r.Stale()), e); }
  }

  ghost function SeenAfter(was: Option<Draft>, id: string, order: seq<string>, stale: set<string>, flow: string,
                           e: ImpactEvent): Option<Draft> {
    if !Counts(e, id, order, stale) then was
    else if EndsDrafts(e.op) then None
    else if EditsDraft(e.op) && e.flow == flow then DraftAfter(was, e)
    else was
  }

  lemma SeenSnoc(events: seq<ImpactEvent>, id: string, order: seq<string>, stale: set<string>, flow: string)
    requires events != []
    ensures SeenRow(events, id, order, stale, flow) ==
            SeenAfter(SeenRow(events[..|events| - 1], id, order, stale, flow), id, order, stale, flow, events[|events| - 1])
  {
  }

  lemma SeesAlike(was: Option<Draft>, id: string, flow: string, stale: set<string>, e: ImpactEvent)
    requires e.impact == id ==> !EndsDrafts(e.op) && (e.flow == flow ==> e.execution !in stale)
    requires e.op == ImpactAdopted ==> e.flow != flow
    ensures NextRow(was, id, flow, e, true) == SeenAfter(was, id, [flow, ""], stale, flow, e)
  {
  }

  // No run of the flow standing aside, the flow sees the draft it holds.
  lemma {:induction false} OwnSeen(events: seq<ImpactEvent>, id: string, first: nat, node: string, r: Request)
    requires FoldableLog(events) && LivesSince(events, id, first) && WorkedOn(events, id, node, r.flow) && r.flow != ""
    requires OwnRunsStand(events, id, r)
    ensures SeenRow(events, id, [r.flow, ""], Runs(r.Stale()), r.flow) == Row(DraftsOf(events), id, r.flow)
  {
    if events != [] {
      WorkedBefore(events, id, node, r.flow);
      DeclaredByItsEvent(events, id, first);
      OwnSeen(events[..|events| - 1], id, first, node, r);
      WorkStaysInStep(events[..|events| - 1], id, first, node, r.flow);
      EndsNothing(events, id, node, r.flow);
      RowMoves(events, id, r.flow);
      OwnSeenStep(events, id, r, Row(DraftsOf(events[..|events| - 1]), id, r.flow), Live(Fold(events), id));
    }
  }

  // What the flow sees of main's draft is what main's own events left of it.
  lemma {:induction false} KeptSeen(events: seq<ImpactEvent>, id: string, first: nat, node: string, flow: string,
                                    stale: set<string>)
    requires FoldableLog(events) && LivesSince(events, id, first) && WorkedOn(events, id, node, flow)
    ensures SeenRow(events, id, [flow, ""], stale, "") == SeenRow(events, id, [""], stale, "")
  {
    if events != [] {
      var n := |events| - 1;
      WorkedBefore(events, id, node, flow);
      DeclaredByItsEvent(events, id, first);
      KeptSeen(events[..n], id, first, node, flow, stale);
      EndsNothing(events, id, node, flow);
      KeptSeenStep(events, id, flow, stale);
    }
  }

  lemma KeptSeenStep(events: seq<ImpactEvent>, id: string, flow: string, stale: set<string>)
    requires events != [] && (events[|events| - 1].impact == id ==> !EndsDrafts(events[|events| - 1].op))
    requires SeenRow(events[..|events| - 1], id, [flow, ""], stale, "") == SeenRow(events[..|events| - 1], id, [""], stale, "")
    ensures SeenRow(events, id, [flow, ""], stale, "") == SeenRow(events, id, [""], stale, "")
  {
    SeenSnoc(events, id, [flow, ""], stale, "");
    SeenSnoc(events, id, [""], stale, "");
    MainSeesAlike(SeenRow(events[..|events| - 1], id, [""], stale, ""), id, flow, stale, events[|events| - 1]);
  }

  lemma MainSeesAlike(was: Option<Draft>, id: string, flow: string, stale: set<string>, e: ImpactEvent)
    requires e.impact == id ==> !EndsDrafts(e.op)
    ensures SeenAfter(was, id, [flow, ""], stale, "", e) == SeenAfter(was, id, [""], stale, "", e)
  {
  }

  lemma SeenIsOwnOrKept(events: seq<ImpactEvent>, id: string, first: nat, node: string, r: Request)
    requires FoldableLog(events) && LivesSince(events, id, first) && WorkedOn(events, id, node, r.flow) && r.flow != ""
    requires OwnRunsStand(events, id, r)
    ensures var own := Row(DraftsOf(events), id, r.flow);
            SeenDraft(events, id, [r.flow], Runs(r.Stale())) == if own.Some? then own else Kept(events, id, r)
  {
    OwnSeen(events, id, first, node, r);
    KeptSeen(events, id, first, node, r.flow, Runs(r.Stale()));
    assert [r.flow] + [""] == [r.flow, ""] && [] + [""] == [""];
    SeenOfTwo(events, id, Runs(r.Stale()), r.flow);
    SeenOfOne(events, id, Runs(r.Stale()));
  }

  lemma SeenOfOne(events: seq<ImpactEvent>, id: string, stale: set<string>)
    ensures FirstSeen(events, id, [""], stale, 0) == SeenRow(events, id, [""], stale, "")
  {
  }

  lemma SeenOfTwo(events: seq<ImpactEvent>, id: string, stale: set<string>, flow: string)
    ensures FirstSeen(events, id, [flow, ""], stale, 0) ==
            if SeenRow(events, id, [flow, ""], stale, flow).Some? then SeenRow(events, id, [flow, ""], stale, flow)
            else SeenRow(events, id, [flow, ""], stale, "")
  {
    assert FirstSeen(events, id, [flow, ""], stale, 2) == None;
    assert FirstSeen(events, id, [flow, ""], stale, 1) == SeenRow(events, id, [flow, ""], stale, "");
  }

  lemma PostOfTwo(events: seq<ImpactEvent>, id: string, flow: string, stale: set<string>)
    ensures Adoption.PostSeen(events, id, [flow], stale) ==
            if Adoption.PostOn(events, id, flow, stale).Some? then Adoption.PostOn(events, id, flow, stale)
            else Adoption.PostOn(events, id, "", stale)
  {
    var order := [flow] + [""];
    assert order[0] == flow && order[1..] == [""];
    assert [""][1..] == [] && Adoption.PostAlong(events, id, [], stale) == None;
    assert Adoption.PostAlong(events, id, [""], stale) == Adoption.PostOn(events, id, "", stale);
  }

  // ---- the adoption of an impact

  ghost function AfterAdoption(events: seq<ImpactEvent>, r: Request): (log: seq<ImpactEvent>)
    requires FoldableLog(events) && Named(Fold(events)) && r.flow != ""
    ensures FoldableLog(log)
  {
    var installs := InstallsOf(events, DraftsOf(events), Fold(events), r);
    FoldHasUniqueIds(events);
    InstallsAre(events, DraftsOf(events), Fold(events), r, "");
    AfterInstalls(events + [AdoptedEvent(r)], installs)
  }

  // The impact is one the flow sees.
  ghost predicate SeenImpact(events: seq<ImpactEvent>, id: string, r: Request)
    requires FoldableLog(events)
  {
    var cn := Find(Fold(events), id);
    cn.Some? && !Adoption.Hidden(cn.value, [r.flow], r.Stale())
  }

  lemma AdoptionLands(events: seq<ImpactEvent>, id: string, r: Request)
    requires FoldableLog(events) && r.flow != "" && SeenImpact(events, id, r) && Live(Fold(events), id)
    ensures FoldableLog(events + [AdoptedEvent(r)])
    ensures var cn := Adopted(Find(Fold(events), id).value, r.flow, r.stale);
            !cn.superseded && MainHas(events + [AdoptedEvent(r)], id, Some(cn), Row(DraftsOf(events), id, ""))
  {
    EventLands(events, AdoptedEvent(r), id);
  }

  /** After an adoption, an impact the flow saw is as the adopted event leaves it, and its install, if it has one, after that. */
  lemma AdoptionOfOne(events: seq<ImpactEvent>, id: string, r: Request)
    requires FoldableLog(events) && Named(Fold(events)) && r.flow != "" && SeenImpact(events, id, r)
    ensures var cn, install := Find(Fold(events), id).value, InstallOf(events, DraftsOf(events), Find(Fold(events), id).value, r);
            (install.Some? ==> install.value.Foldable()) &&
            Landed(AfterAdoption(events, r), id, Adopted(cn, r.flow, r.stale), Row(DraftsOf(events), id, ""), install)
  {
    var cn, installs := Find(Fold(events), id).value, InstallsOf(events, DraftsOf(events), Fold(events), r);
    AdoptionLands(events, id, r);
    FoldHasUniqueIds(events);
    InstallsAre(events, DraftsOf(events), Fold(events), r, id);
    InstallsLand(events + [AdoptedEvent(r)], installs, id, Adopted(cn, r.flow, r.stale), Row(DraftsOf(events), id, ""));
  }

  // ---- what main ends with

  // An impact the flow sees, worked on as the graph writes it, by no run of the flow that the flow replaces.
  ghost predicate Adoptable(events: seq<ImpactEvent>, id: string, first: nat, node: string, r: Request) {
    FoldableLog(events) && LivesSince(events, id, first) && WorkedOn(events, id, node, r.flow) && OwnRunsStand(events, id, r) &&
    Named(Fold(events)) && r.flow != "" && SeenImpact(events, id, r)
  }

  ghost function SidesOf(events: seq<ImpactEvent>, id: string, r: Request): Sides
    requires FoldableLog(events)
  {
    SidesIn(events, DraftsOf(events), id, r)
  }

  // The install of an impact, by what the adoption finds of its drafts.
  predicate Fits(install: Option<ImpactEvent>, s: Sides, id: string, node: string) {
    (install.Some? ==> install.value.impact == id && install.value.flow == "" && install.value.Foldable()) &&
    if s.TakenBack() then install.Some? && install.value.op == ImpactCancelled && install.value.post.None?
    else
      (install.Some? ==>
        s.Standing() && install.value.op == ImpactTransitioned && Takes(install.value, node) && install.value.pre.None?) &&
      (install.None? && s.Standing() ==> s.own.None?)
  }

  predicate OfNode(d: Option<Draft>, node: string) { d.Some? ==> d.value.node == node }

  lemma InstallFits(cn: ChangeImpact, s: Sides, r: Request, node: string)
    requires cn.id != "" && !Adoption.Hidden(cn, [r.flow], r.Stale())
    requires OfNode(s.own, node) && OfNode(s.main, node) && OfNode(s.kept, node)
    ensures Fits(Chosen(cn, s, r), s, cn.id, node)
  {
  }

  lemma KeptNames(events: seq<ImpactEvent>, id: string, node: string, r: Request)
    requires FoldableLog(events) && WorkedOn(events, id, node, r.flow)
    ensures Kept(events, id, r).Some? ==> Kept(events, id, r).value.node == node
  {
    SeenNames(events, id, node, r.flow, [""], Runs(r.Stale()), "");
    assert [] + [""] == [""];
    SeenOfOne(events, id, Runs(r.Stale()));
  }

  // An impact of main once its install is there.
  ghost predicate Ends(now: Option<ChangeImpact>, cn: ChangeImpact, s: Sides, node: string) {
    (now.None? <==> s.TakenBack() && cn.intent == IntentCreated) &&
    (now.Some? ==> now.value.post == if s.Standing() then Some(DraftRef(node)) else None) &&
    (now.Some? && s.TakenBack() ==> now.value.review == ReviewProposed) &&
    (now.Some? && !s.TakenBack() ==> now.value == cn.(post := now.value.post))
  }

  lemma InstallEnds(id: string, cn: ChangeImpact, install: Option<ImpactEvent>, s: Sides, node: string)
    requires Fits(install, s, id, node) && cn.flow == ""
    requires install.None? ==> cn.post == if s.main.Some? || s.own.Some? then Some(DraftRef(node)) else None
    ensures Ends(if install.None? then Some(cn) else Next(Some(cn), id, install.value), cn, s, node)
  {
    if s.TakenBack() { CancelGives(cn, install.value); }
  }

  lemma InstallGives(events: seq<ImpactEvent>, id: string, first: nat, node: string, r: Request)
    requires Adoptable(events, id, first, node, r)
    ensures Ends(Find(Fold(AfterAdoption(events, r)), id), Adopted(Find(Fold(events), id).value, r.flow, r.stale), SidesOf(events, id, r), node)
  {
    var cn, s := Find(Fold(events), id).value, SidesOf(events, id, r);
    AdoptionOfOne(events, id, r);
    WorkStaysInStep(events, id, first, node, r.flow);
    KeptNames(events, id, node, r);
    InstallFits(cn, s, r, node);
    InstallEnds(id, Adopted(cn, r.flow, r.stale), InstallOf(events, DraftsOf(events), cn, r), s, node);
  }

  lemma CancelGives(cn: ChangeImpact, e: ImpactEvent)
    requires e.op == ImpactCancelled && e.Foldable() && e.flow == "" && e.post.None?
    ensures Moved(cn, e).None? <==> cn.intent == IntentCreated
    ensures Moved(cn, e).Some? ==> Moved(cn, e).value.post.None? && Moved(cn, e).value.review == ReviewProposed
  {
  }

  /**
   * After an adoption and its installs, main has the post the branch saw of an impact if and only if the branch saw one
   * exactly when it holds a draft or main's own is left one by the runs that stand. Main loses the impact if and only if it
   * is a creation whose draft was all of replaced runs; another one whose draft was is proposed again; and nothing but its
   * post changes of what the adoption gives of any other.
   */
  lemma InstalledPostIsTheBranchs(events: seq<ImpactEvent>, id: string, first: nat, node: string, r: Request)
    requires Adoptable(events, id, first, node, r)
    ensures var cn, s := Find(Fold(events), id).value, SidesOf(events, id, r);
            var now, seen := Find(Fold(AfterAdoption(events, r)), id), Adoption.PostSeen(events, id, [r.flow], r.Stale());
            (now.None? <==> s.TakenBack() && cn.intent == IntentCreated) &&
            (now.Some? ==> (now.value.post == seen <==> (seen.Some? <==> s.Standing()))) &&
            (now.Some? && s.TakenBack() ==> now.value.review == ReviewProposed) &&
            (now.Some? && !s.TakenBack() ==> now.value == Adopted(cn, r.flow, r.stale).(post := now.value.post))
  {
    InstallGives(events, id, first, node, r);
    PostOfTwo(events, id, r.flow, r.Stale());
    PostsName(events, id, node, r.flow, r.flow, r.Stale());
    PostsName(events, id, node, r.flow, "", r.Stale());
  }

  // The branch holds a draft: it is main's from then on, whatever else happened.
  lemma OwnDraftIsInstalled(events: seq<ImpactEvent>, id: string, first: nat, node: string, r: Request)
    requires Adoptable(events, id, first, node, r) && Row(DraftsOf(events), id, r.flow).Some?
    ensures var now := Find(Fold(AfterAdoption(events, r)), id);
            now.Some? && now.value.post == Adoption.PostSeen(events, id, [r.flow], r.Stale())
  {
    InstalledPostIsTheBranchs(events, id, first, node, r);
    OwnPosted(events, id, node, r);
    PostOfTwo(events, id, r.flow, r.Stale());
  }

  // ---- when main's draft and the branch's post agree

  // An event keeps apart what the replaced runs wrote of main's draft: none of them cancels it, and a transition that stands
  // finds a draft that stands. A checkout cancelled on the flow falls back to nothing.
  ghost predicate Apart(kept: Option<Draft>, e: ImpactEvent, r: Request) {
    (e.flow == "" && Adoption.Stale(e.execution, r.Stale()) ==> e.op != ImpactCancelled) &&
    (e.flow == "" && !Adoption.Stale(e.execution, r.Stale()) && e.op == ImpactTransitioned && e.draft.None? ==> kept.Some?) &&
    (e.flow == r.flow && e.op == ImpactCancelled ==> e.post.None?)
  }

  ghost function KeptRow(events: seq<ImpactEvent>, id: string, r: Request): Option<Draft> {
    SeenRow(events, id, [""], Runs(r.Stale()), "")
  }

  ghost predicate WorkedApart(events: seq<ImpactEvent>, id: string, r: Request) {
    forall i :: 0 <= i < |events| && events[i].impact == id ==> Apart(KeptRow(events[..i], id, r), events[i], r)
  }

  lemma ApartBefore(events: seq<ImpactEvent>, id: string, r: Request)
    requires WorkedApart(events, id, r) && events != []
    ensures WorkedApart(events[..|events| - 1], id, r)
    ensures var n := |events| - 1; events[n].impact == id ==> Apart(KeptRow(events[..n], id, r), events[n], r)
  {
    var n := |events| - 1;
    forall i: nat | i < n && events[..n][i].impact == id ensures Apart(KeptRow(events[..n][..i], id, r), events[..n][i], r) {
      PrefixOfPrefix(events, n, i);
    }
  }

  // Main's draft stands, as the branch sees its post, and it is there; the flow's own is there when it is posted.
  ghost predicate PostsAgree(main: Option<Draft>, own: Option<Draft>, kept: Option<Draft>, mainPost: Option<NodeRef>,
                             ownPost: Option<NodeRef>) {
    (kept.Some? <==> mainPost.Some?) && (kept.Some? ==> main.Some?) && (own.Some? <==> ownPost.Some?)
  }

  ghost function PostAfter(was: Option<NodeRef>, id: string, flow: string, stale: set<string>, e: ImpactEvent): Option<NodeRef> {
    if !Adoption.MovesPost(e, id) || e.flow != flow then was
    else if e.op == ImpactCancelled && e.post.None? then None
    else if Adoption.Stale(e.execution, stale) then was
    else e.post
  }

  lemma PostSnoc(events: seq<ImpactEvent>, id: string, flow: string, stale: set<string>)
    requires events != []
    ensures Adoption.PostOn(events, id, flow, stale) ==
            PostAfter(Adoption.PostOn(events[..|events| - 1], id, flow, stale), id, flow, stale, events[|events| - 1])
  {
  }

  lemma MainAgrees(cn: Option<ChangeImpact>, main: Option<Draft>, kept: Option<Draft>, post: Option<NodeRef>, id: string,
                   e: ImpactEvent,
                   node: string, r: Request, live: bool)
    requires e.Foldable() && r.flow != "" && (kept.Some? <==> post.Some?) && (kept.Some? ==> main.Some?)
    requires cn.Some? ==> OfEither(cn.value.flow, r.flow)
    requires e.impact == id ==> live && !EndsDrafts(e.op) && (e.flow == "" ==> Apart(kept, e, r) && Works(cn, main, e, node, r.flow))
    requires !live ==> kept.None?
    ensures var k, p := SeenAfter(kept, id, [""], Runs(r.Stale()), "", e), PostAfter(post, id, "", r.Stale(), e);
            (k.Some? <==> p.Some?) && (k.Some? ==> NextRow(main, id, "", e, live).Some?)
  {
  }

  lemma OwnAgrees(cn: Option<ChangeImpact>, own: Option<Draft>, post: Option<NodeRef>, id: string, e: ImpactEvent,
                  node: string, r: Request,
                  live: bool)
    requires e.Foldable() && r.flow != "" && (own.Some? <==> post.Some?) && (e.op == ImpactAdopted ==> e.flow != r.flow)
    requires e.impact == id && e.flow == r.flow ==>
               !Adoption.Stale(e.execution, r.Stale()) && Apart(None, e, r) && Works(cn, own, e, node, r.flow)
    requires e.impact == id ==> live && !EndsDrafts(e.op)
    requires !live ==> own.None?
    ensures NextRow(own, id, r.flow, e, live).Some? <==> PostAfter(post, id, r.flow, r.Stale(), e).Some?
  {
  }

  ghost predicate AgreeIn(events: seq<ImpactEvent>, id: string, r: Request)
    requires FoldableLog(events)
  {
    PostsAgree(Row(DraftsOf(events), id, ""), Row(DraftsOf(events), id, r.flow), KeptRow(events, id, r),
               Adoption.PostOn(events, id, "", r.Stale()), Adoption.PostOn(events, id, r.flow, r.Stale()))
  }

  lemma EventAgrees(events: seq<ImpactEvent>, id: string, node: string, r: Request)
    requires FoldableLog(events) && events != [] && r.flow != "" && OwnRunsStand(events, id, r)
    requires WorksAt(events, |events| - 1, id, node, r.flow) && AgreeIn(events[..|events| - 1], id, r)
    requires RowsInStep(events[..|events| - 1], id, node, r.flow)
    requires var n := |events| - 1;
             (events[n].impact == id ==> Live(Fold(events), id) && !EndsDrafts(events[n].op) &&
                                         Apart(KeptRow(events[..n], id, r), events[n], r)) &&
             (Live(Fold(events), id) <==> Find(Fold(events[..n]), id).Some? || events[n].impact == id)
    ensures AgreeIn(events, id, r)
  {
    var n := |events| - 1;
    var rest, e, live := events[..n], events[n], Live(Fold(events), id);
    var cn, main, own := Find(Fold(rest), id), Row(DraftsOf(rest), id, ""), Row(DraftsOf(rest), id, r.flow);
    assert e in events;
    RowMoves(events, id, "");
    RowMoves(events, id, r.flow);
    SeenSnoc(events, id, [""], Runs(r.Stale()), "");
    PostSnoc(events, id, "", r.Stale());
    PostSnoc(events, id, r.flow, r.Stale());
    MainAgrees(cn, main, KeptRow(rest, id, r), Adoption.PostOn(rest, id, "", r.Stale()), id, e, node, r, live);
    OwnAgrees(cn, own, Adoption.PostOn(rest, id, r.flow, r.Stale()), id, e, node, r, live);
  }

  lemma {:induction false} PostsAgreeIn(events: seq<ImpactEvent>, id: string, first: nat, node: string, r: Request)
    requires FoldableLog(events) && LivesSince(events, id, first) && WorkedOn(events, id, node, r.flow) && r.flow != ""
    requires OwnRunsStand(events, id, r) && WorkedApart(events, id, r)
    ensures AgreeIn(events, id, r)
  {
    if events != [] {
      var n := |events| - 1;
      WorkedBefore(events, id, node, r.flow);
      ApartBefore(events, id, r);
      DeclaredByItsEvent(events, id, first);
      EndsNothing(events, id, node, r.flow);
      PostsAgreeIn(events[..n], id, first, node, r);
      WorkStaysInStep(events[..n], id, first, node, r.flow);
      EventAgrees(events, id, node, r);
    }
  }

  /** Where the replaced runs are kept apart so, main has after the adoption the post the branch saw of an impact it keeps. */
  lemma WorkedApartAgrees(events: seq<ImpactEvent>, id: string, first: nat, node: string, r: Request)
    requires Adoptable(events, id, first, node, r) && WorkedApart(events, id, r)
    ensures var now := Find(Fold(AfterAdoption(events, r)), id);
            now.Some? ==> now.value.post == Adoption.PostSeen(events, id, [r.flow], r.Stale())
  {
    InstalledPostIsTheBranchs(events, id, first, node, r);
    PostsAgreeIn(events, id, first, node, r);
    PostOfTwo(events, id, r.flow, r.Stale());
    assert [] + [""] == [""];
    SeenOfOne(events, id, Runs(r.Stale()));
  }

  // Two links hold the same, whatever their ids are.
  predicate LinkAlike(a: DraftLink, b: DraftLink) { a.typ == b.typ && a.to == b.to && a.target == b.target && a.props == b.props }

  predicate LinksAlike(a: seq<DraftLink>, b: seq<DraftLink>) {
    |a| == |b| && forall i :: 0 <= i < |a| ==> LinkAlike(a[i], b[i])
  }

  // Two drafts hold the same, whoever edited them and wherever they are.
  predicate HoldAlike(a: Draft, b: Draft) {
    a.node == b.node && a.key == b.key && a.typ == b.typ && a.state == b.state && a.owner == b.owner && a.props == b.props &&
    a.origins == b.origins && a.base == b.base && a.mergedWith == b.mergedWith && a.deleted == b.deleted &&
    a.creator == b.creator && LinksAlike(a.links, b.links)
  }

  predicate SameContent(a: Option<Draft>, b: Option<Draft>) {
    (a.Some? <==> b.Some?) && (a.Some? ==> HoldAlike(a.value, b.value))
  }

  lemma HeldAlike(a: Draft, b: Draft)
    ensures Held(a) == Held(b) <==> HoldAlike(a, b) && a.change == b.change && a.impact == b.impact && a.editor == b.editor
  {
    var x, y := Held(a).links, Held(b).links;
    if x == y {
      forall i | 0 <= i < |a.links| ensures LinkAlike(a.links[i], b.links[i]) { assert x[i] == y[i]; }
    }
    if LinksAlike(a.links, b.links) { assert x == y; }
  }

  /**
   * What is installed of an impact: the draft of the branch; else what the runs that stand left of main's, where that is
   * another; else nothing in the place of a draft all of replaced runs. It is of the run that wrote it and of who adopts.
   */
  lemma InstallSays(cn: ChangeImpact, s: Sides, r: Request)
    ensures var install := Chosen(cn, s, r);
            (install.None? <==>
              s.own.None? &&
              (s.main.None? || (cn.flow == "" && !cn.superseded && cn.execution != "" && cn.execution in r.stale) ||
               (s.kept.Some? && HoldAlike(s.kept.value, s.main.value) && s.kept.value.change == s.main.value.change &&
                s.kept.value.impact == s.main.value.impact && s.kept.value.editor == s.main.value.editor))) &&
            (install.Some? ==>
              var e, d := install.value, if s.own.Some? then s.own else s.kept;
              e.impact == cn.id && e.change == r.change && e.writer == r.writer && e.flow == "" && e.draft == d && e.pre.None? &&
              if d.Some? then e.op == ImpactTransitioned && e.execution == d.value.execution && e.post == Some(NodeRef(d.value.node, 0))
              else e.op == ImpactCancelled && e.execution == "" && e.post.None?)
  {
    if s.kept.Some? && s.main.Some? { HeldAlike(s.kept.value, s.main.value); }
  }

  lemma InstalledHolds(row: Option<Draft>, s: Sides, cn: ChangeImpact, r: Request, adopted: ChangeImpact)
    requires cn.id != "" && !Adoption.Hidden(cn, [r.flow], r.Stale()) && row == s.main
    requires adopted.flow == "" && !adopted.superseded && Chosen(cn, s, r).Some? && Chosen(cn, s, r).value.Foldable()
    ensures var e := Chosen(cn, s, r).value;
            var next := Next(Some(adopted), cn.id, e);
            SameContent(NextRow(row, cn.id, "", e, next.Some? && !next.value.superseded), if s.own.Some? then s.own else s.kept)
  {
  }

  lemma RowEnds(log: seq<ImpactEvent>, cn: ChangeImpact, s: Sides, r: Request, adopted: ChangeImpact)
    requires cn.id != "" && !Adoption.Hidden(cn, [r.flow], r.Stale()) && adopted.flow == "" && !adopted.superseded
    requires Chosen(cn, s, r).Some? ==> Chosen(cn, s, r).value.Foldable()
    requires Landed(log, cn.id, adopted, s.main, Chosen(cn, s, r))
    ensures SameContent(Row(DraftsOf(log), cn.id, ""), if s.own.Some? then s.own else s.kept)
            <==> !(s.own.None? && s.main.None? && s.kept.Some?)
  {
    if Chosen(cn, s, r).Some? {
      InstalledHolds(s.main, s, cn, r, adopted);
    } else {
      NothingInstalled(cn, s, r);
      if s.main.Some? { HeldAlike(s.kept.value, s.main.value); }
    }
  }

  lemma NothingInstalled(cn: ChangeImpact, s: Sides, r: Request)
    requires !Adoption.Hidden(cn, [r.flow], r.Stale()) && Chosen(cn, s, r).None?
    ensures s.own.None? && (s.main.Some? ==> s.kept.Some? && Held(s.kept.value) == Held(s.main.value))
  {
  }

  /**
   * After an adoption and its installs, main's draft of an impact holds what the draft the branch saw holds, if and only if
   * main's own had not gone while the runs that stand had left it.
   */
  lemma InstalledDraftIsTheBranchs(events: seq<ImpactEvent>, id: string, first: nat, node: string, r: Request)
    requires Adoptable(events, id, first, node, r)
    ensures var s := SidesOf(events, id, r);
            SameContent(Row(DraftsOf(AfterAdoption(events, r)), id, ""), SeenDraft(events, id, [r.flow], Runs(r.Stale())))
            <==> !(s.own.None? && s.main.None? && s.kept.Some?)
  {
    InstalledRow(events, id, r);
    SeenIsOwnOrKept(events, id, first, node, r);
  }

  lemma InstalledRow(events: seq<ImpactEvent>, id: string, r: Request)
    requires FoldableLog(events) && Named(Fold(events)) && r.flow != "" && SeenImpact(events, id, r)
    ensures var s := SidesOf(events, id, r);
            SameContent(Row(DraftsOf(AfterAdoption(events, r)), id, ""), if s.own.Some? then s.own else s.kept)
            <==> !(s.own.None? && s.main.None? && s.kept.Some?)
  {
    var cn := Find(Fold(events), id).value;
    AdoptionOfOne(events, id, r);
    RowEnds(AfterAdoption(events, r), cn, SidesOf(events, id, r), r, Adopted(cn, r.flow, r.stale));
  }

  // ---- a creation that is planned, and taken up by a run that is replaced

  const Planned := ChangeImpact("i", "", "", IntentCreated, "", None, None, None, ReviewProposed, [], "", "", false, "", [], "", [], "", false, 0)

  const Taken := Draft("", "i", "", "n", "", "", "", NoUrl, map[], [], None, None, "x", [], false, "", "")

  const PlanEvent := ImpactEvent("", "", 0, "i", ImpactProposed, "", "", "", "", 0, "", Some(Planned), None, None, None, None, None, None,
                                 "", "", false, None, [], None)

  const TakeEvent := ImpactEvent("", "", 0, "i", ImpactCheckedOut, "", "x", "", "", 0, "", None, Some(DraftRef("n")), Some(Taken), None,
                                 None, None, None, "", "", false, None, [], None)

  const Plan := [PlanEvent, TakeEvent]

  const Relaunch := Request("", "f", ["x"], "")

  lemma PlanFolds()
    ensures FoldableLog(Plan) && Fold(Plan[..1]) == [Planned] && DraftsOf(Plan[..1]) == []
  {
    assert Plan[..1][..0] == [] && Plan[..1] == [PlanEvent];
  }

  lemma TakeFolds()
    ensures FoldableLog(Plan) && Fold(Plan) == [Planned.(post := Some(DraftRef("n")))]
  {
    PlanFolds();
    TakeSteps();
    assert Plan[..|Plan| - 1] == Plan[..1];
  }

  lemma TakeSteps()
    ensures Step([Planned], TakeEvent) == [Planned.(post := Some(DraftRef("n")))]
  {
  }

  lemma CountsAlone(cn: ChangeImpact)
    requires !cn.superseded
    ensures Live([cn], cn.id) && Find([cn], cn.id) == Some(cn)
  {
  }

  lemma TakeRow(flow: string)
    ensures NextRow(None, "i", flow, TakeEvent, true) == if flow == "" then Some(Taken) else None
  {
  }

  lemma PlanRow(flow: string)
    ensures FoldableLog(Plan) && Row(DraftsOf(Plan), "i", flow) == if flow == "" then Some(Taken) else None
  {
    PlanFolds();
    TakeFolds();
    CountsAlone(Planned.(post := Some(DraftRef("n"))));
    RowMoves(Plan, "i", flow);
    TakeRow(flow);
  }

  lemma PlanIsKept()
    ensures Kept(Plan, "i", Relaunch).None?
  {
    assert [] + [""] == [""];
    SeenOfOne(Plan, "i", Runs(Relaunch.Stale()));
    SeenSnoc(Plan, "i", [""], Runs(Relaunch.Stale()), "");
    SeenSnoc(Plan[..1], "i", [""], Runs(Relaunch.Stale()), "");
  }

  lemma PlanLives()
    ensures FoldableLog(Plan) && LivesSince(Plan, "i", 0)
  {
    PlanFolds();
    TakeFolds();
    CountsAlone(Planned);
    CountsAlone(Planned.(post := Some(DraftRef("n"))));
    LivesThroughTwo(Plan, "i");
  }

  lemma LivesThroughTwo(events: seq<ImpactEvent>, id: string)
    requires FoldableLog(events) && |events| == 2 && Live(Fold(events[..1]), id) && Live(Fold(events), id)
    ensures LivesSince(events, id, 0)
  {
    WholePrefix(events);
  }

  lemma PlanWorks()
    ensures FoldableLog(Plan) && WorkedOn(Plan, "i", "n", "f")
  {
    PlanFolds();
    PlannedWorks();
    TakenWorks();
  }

  lemma PlannedWorks()
    ensures FoldableLog(Plan) && WorksAt(Plan, 0, "i", "n", "f")
  {
    PlanFolds();
    assert Plan[..0] == [];
  }

  lemma TakenWorks()
    ensures FoldableLog(Plan) && WorksAt(Plan, 1, "i", "n", "f")
  {
    PlanFolds();
  }

  lemma PlanIsSeen()
    ensures FoldableLog(Plan) && Named(Fold(Plan)) && SeenImpact(Plan, "i", Relaunch) && OwnRunsStand(Plan, "i", Relaunch)
    ensures Find(Fold(Plan), "i") == Some(Planned.(post := Some(DraftRef("n"))))
  {
    TakeFolds();
  }

  lemma PlanPost(flow: string)
    ensures Adoption.PostOn(Plan, "i", flow, Relaunch.Stale()) == None
  {
    var stale := Relaunch.Stale();
    assert "x" in stale;
    assert Plan[..1][..0] == [] && Adoption.PostOn([], "i", flow, stale) == None;
    assert Plan[..|Plan| - 1] == Plan[..1];
    assert Adoption.PostOn(Plan[..1], "i", flow, stale) == None;
  }

  /**
   * A creation that was planned, whose draft the run x took on main: the branch that relaunches x sees it planned, with no
   * post, and once it is adopted main has it no more.
   */
  lemma PlannedCreationIsLost()
    ensures Adoptable(Plan, "i", 0, "n", Relaunch)
    ensures Adoption.PostSeen(Plan, "i", ["f"], Relaunch.Stale()).None?
    ensures Find(Fold(AfterAdoption(Plan, Relaunch)), "i").None?
  {
    PlanLives();
    PlanWorks();
    PlanIsSeen();
    PlanRow("");
    PlanRow("f");
    PlanIsKept();
    PlanPost("");
    PlanPost("f");
    PostOfTwo(Plan, "i", "f", Relaunch.Stale());
    InstallGives(Plan, "i", 0, "n", Relaunch);
  }
}
