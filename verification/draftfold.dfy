// The drafts of a change over its log (contracts/domain/draft.go): the rows FoldDrafts keeps for the whole change, the
// draft DraftSeenBy replays for one impact, and why the two agree.
module DraftFold {
  import opened Prelude
  import opened Domain
  import opened ImpactFold
  import opened ReviewLaws
  import opened Drafts

  // ---- the rows of the whole change

  predicate EditsDraft(op: ImpactOp) {
    op.WritesPost() || op == ImpactUpdated || op == ImpactCancelled
  }

  predicate EndsDrafts(op: ImpactOp) { op == ImpactWithdrawn || op == ImpactCommitted }

  predicate IsRow(d: Draft, impact: string, flow: string) { d.impact == impact && d.flow == flow }

  ghost predicate UniqueRows(drafts: seq<Draft>) {
    forall i, j :: 0 <= i < j < |drafts| ==> !IsRow(drafts[j], drafts[i].impact, drafts[i].flow)
  }

  ghost function RowAt(drafts: seq<Draft>, impact: string, flow: string): (at: int)
    ensures -1 <= at < |drafts|
    ensures at >= 0 ==> IsRow(drafts[at], impact, flow)
    ensures forall j :: 0 <= j < (if at < 0 then |drafts| else at) ==> !IsRow(drafts[j], impact, flow)
  {
    if drafts == [] then -1
    else if IsRow(drafts[0], impact, flow) then 0
    else
      var at := RowAt(drafts[1..], impact, flow);
      assert forall j :: 0 < j < |drafts| ==> drafts[j] == drafts[1..][j - 1];
      if at < 0 then -1 else at + 1
  }

  ghost function Row(drafts: seq<Draft>, impact: string, flow: string): Option<Draft> {
    var at := RowAt(drafts, impact, flow);
    if at < 0 then None else Some(drafts[at])
  }

  ghost predicate Live(impacts: seq<ChangeImpact>, id: string) {
    Find(impacts, id).Some? && !Find(impacts, id).value.superseded
  }

  // The rows of a list that stay: by the impact they draft and the flow they are of.
  datatype Keep = OfImpactsBut(impact: string) | OfFlowsBut(flow: string) | OfLive(impacts: seq<ChangeImpact>)

  ghost predicate Stays(d: Draft, keep: Keep) {
    match keep
    case OfImpactsBut(impact) => d.impact != impact
    case OfFlowsBut(flow) => d.flow != flow
    case OfLive(impacts) => Live(impacts, d.impact)
  }

  ghost function Filter(drafts: seq<Draft>, keep: Keep): seq<Draft> {
    if drafts == [] then []
    else if Stays(drafts[|drafts| - 1], keep) then Filter(drafts[..|drafts| - 1], keep) + [drafts[|drafts| - 1]]
    else Filter(drafts[..|drafts| - 1], keep)
  }

  ghost function PutRow(drafts: seq<Draft>, at: int, d: Option<Draft>): seq<Draft>
    requires -1 <= at < |drafts|
  {
    if d.None? then if at < 0 then drafts else drafts[..at] + drafts[at + 1..]
    else if at < 0 then drafts + [d.value] else drafts[at := d.value]
  }

  ghost function Touched(drafts: seq<Draft>, e: ImpactEvent): seq<Draft> {
    if EditsDraft(e.op) then
      PutRow(drafts, RowAt(drafts, e.impact, e.flow), DraftAfter(Row(drafts, e.impact, e.flow), e))
    else if EndsDrafts(e.op) then Filter(drafts, OfImpactsBut(e.impact))
    else if e.op == ImpactAdopted then Filter(drafts, OfFlowsBut(e.flow))
    else drafts
  }

  ghost function DraftStep(drafts: seq<Draft>, e: ImpactEvent, impacts: seq<ChangeImpact>): seq<Draft> {
    Filter(Touched(drafts, e), OfLive(impacts))
  }

  method IsLive(impacts: seq<ChangeImpact>, id: string) returns (live: bool)
    ensures live == Live(impacts, id)
  {
    var at := IndexOf(impacts, id);
    live := at >= 0 && !impacts[at].superseded;
  }

  method FilterRows(drafts: seq<Draft>, keep: Keep) returns (out: seq<Draft>)
    ensures out == Filter(drafts, keep)
  {
    out := [];
    for i := 0 to |drafts|
      invariant out == Filter(drafts[..i], keep)
    {
      assert drafts[..i + 1][..i] == drafts[..i];
      var stays := false;
      match keep {
        case OfImpactsBut(impact) => stays := drafts[i].impact != impact;
        case OfFlowsBut(flow) => stays := drafts[i].flow != flow;
        case OfLive(impacts) => stays := IsLive(impacts, drafts[i].impact);
      }
      if stays { out := out + [drafts[i]]; }
    }
    assert drafts[..|drafts|] == drafts;
  }

  method FindRow(drafts: seq<Draft>, impact: string, flow: string) returns (at: int)
    ensures at == RowAt(drafts, impact, flow)
  {
    for i := 0 to |drafts|
      invariant forall j :: 0 <= j < i ==> !IsRow(drafts[j], impact, flow)
    {
      if drafts[i].impact == impact && drafts[i].flow == flow { return i; }
    }
    return -1;
  }

  method EditRow(drafts: seq<Draft>, e: ImpactEvent) returns (out: seq<Draft>)
    requires EditsDraft(e.op)
    ensures out == Touched(drafts, e)
  {
    out := drafts;
    var at := FindRow(out, e.impact, e.flow);
    var next := ApplyDraft(if at >= 0 then Some(out[at]) else None, e);
    if next.None? && at >= 0 {
      out := out[..at] + out[at + 1..];
    } else if next.Some? && at >= 0 {
      out := out[at := next.value];
    } else if next.Some? {
      out := out + [next.value];
    }
  }

  method ApplyDraftEvent(drafts: seq<Draft>, e: ImpactEvent, impacts: seq<ChangeImpact>) returns (out: seq<Draft>)
    ensures out == DraftStep(drafts, e, impacts)
  {
    out := drafts;
    if EditsDraft(e.op) {
      out := EditRow(out, e);
    } else if EndsDrafts(e.op) {
      out := FilterRows(out, OfImpactsBut(e.impact));
    } else if e.op == ImpactAdopted {
      out := FilterRows(out, OfFlowsBut(e.flow));
    }
    out := FilterRows(out, OfLive(impacts));
  }

  ghost function DraftsOf(events: seq<ImpactEvent>): seq<Draft>
    requires FoldableLog(events)
  {
    if events == [] then []
    else DraftStep(DraftsOf(events[..|events| - 1]), events[|events| - 1], Fold(events))
  }

  method FoldDrafts(events: seq<ImpactEvent>) returns (drafts: seq<Draft>)
    requires FoldableLog(events)
    ensures drafts == DraftsOf(events)
  {
    drafts := [];
    var impacts: seq<ChangeImpact> := [];
    for i := 0 to |events|
      invariant impacts == Fold(events[..i]) && drafts == DraftsOf(events[..i])
    {
      assert events[..i + 1][..i] == events[..i];
      var at := IndexOf(impacts, events[i].impact);
      impacts := ApplyImpactEventAt(impacts, at, events[i]);
      drafts := ApplyDraftEvent(drafts, events[i], impacts);
    }
    assert events[..|events|] == events;
  }

  // ---- the draft a flow sees of one impact

  predicate Counts(e: ImpactEvent, impact: string, order: seq<string>, stale: set<string>) {
    e.impact == impact && e.flow in order && (e.execution !in stale || EndsDrafts(e.op))
  }

  ghost function SeenRow(events: seq<ImpactEvent>, impact: string, order: seq<string>, stale: set<string>, flow: string): Option<Draft> {
    if events == [] then None
    else
      var e := events[|events| - 1];
      var before := SeenRow(events[..|events| - 1], impact, order, stale, flow);
      if !Counts(e, impact, order, stale) then before
      else if EndsDrafts(e.op) then None
      else if EditsDraft(e.op) && e.flow == flow then DraftAfter(before, e)
      else before
  }

  ghost function FirstSeen(events: seq<ImpactEvent>, impact: string, order: seq<string>, stale: set<string>, i: nat): Option<Draft>
    requires i <= |order|
    decreases |order| - i
  {
    if i == |order| then None
    else if SeenRow(events, impact, order, stale, order[i]).Some? then SeenRow(events, impact, order, stale, order[i])
    else FirstSeen(events, impact, order, stale, i + 1)
  }

  ghost function SeenDraft(events: seq<ImpactEvent>, impact: string, chain: seq<string>, stale: set<string>): Option<Draft> {
    FirstSeen(events, impact, chain + [""], stale, 0)
  }

  method DraftSeenBy(events: seq<ImpactEvent>, impact: string, chain: seq<string>, stale: set<string>) returns (d: Option<Draft>)
    ensures d == SeenDraft(events, impact, chain, stale)
  {
    var order := chain + [""];
    var rows: map<string, Option<Draft>> := map[];
    for i := 0 to |events|
      invariant forall f :: (if f in rows then rows[f] else None) == SeenRow(events[..i], impact, order, stale, f)
    {
      assert events[..i + 1][..i] == events[..i];
      var e := events[i];
      var gone := e.op == ImpactCommitted || e.op == ImpactWithdrawn;
      if e.impact != impact || e.flow !in order || (e.execution in stale && !gone) {
        continue;
      }
      if gone {
        rows := map[];
      } else if EditsDraft(e.op) {
        var next := ApplyDraft(if e.flow in rows then rows[e.flow] else None, e);
        rows := rows[e.flow := next];
      }
    }
    assert events[..|events|] == events;
    for i := 0 to |order|
      invariant SeenDraft(events, impact, chain, stale) == FirstSeen(events, impact, order, stale, i)
    {
      if order[i] in rows && rows[order[i]].Some? { return rows[order[i]]; }
    }
    return None;
  }

  // ---- the rows of a change are independent

  lemma RowFoundAt(drafts: seq<Draft>, impact: string, flow: string, i: nat)
    requires UniqueRows(drafts) && i < |drafts| && IsRow(drafts[i], impact, flow)
    ensures Row(drafts, impact, flow) == Some(drafts[i])
  {
  }

  lemma {:induction false} FilterIsPointwise(drafts: seq<Draft>, keep: Keep, impact: string, flow: string)
    requires UniqueRows(drafts)
    ensures UniqueRows(Filter(drafts, keep))
    ensures forall d :: d in Filter(drafts, keep) ==> d in drafts
    ensures Row(Filter(drafts, keep), impact, flow) ==
            var r := Row(drafts, impact, flow); if r.Some? && Stays(r.value, keep) then r else None
  {
    if drafts != [] {
      var n := |drafts| - 1;
      FilterIsPointwise(drafts[..n], keep, impact, flow);
      RowOfLast(drafts, impact, flow);
      if Stays(drafts[n], keep) { KeptRow(drafts, Filter(drafts[..n], keep), impact, flow); }
    }
  }

  // One more row that stays, after those that did.
  lemma KeptRow(drafts: seq<Draft>, kept: seq<Draft>, impact: string, flow: string)
    requires drafts != [] && UniqueRows(drafts) && UniqueRows(kept) && forall d :: d in kept ==> d in drafts[..|drafts| - 1]
    ensures var last := drafts[|drafts| - 1];
            UniqueRows(kept + [last]) &&
            Row(kept + [last], impact, flow) == if IsRow(last, impact, flow) then Some(last) else Row(kept, impact, flow)
  {
    var n := |drafts| - 1;
    forall i | 0 <= i < |kept| ensures !IsRow(drafts[n], kept[i].impact, kept[i].flow) {
      assert kept[i] in kept;
      var j :| 0 <= j < n && drafts[..n][j] == kept[i];
    }
    RowOfLast(kept + [drafts[n]], impact, flow);
    assert (kept + [drafts[n]])[..|kept|] == kept;
  }

  lemma RowOfLast(drafts: seq<Draft>, impact: string, flow: string)
    requires drafts != [] && UniqueRows(drafts)
    ensures var n := |drafts| - 1;
      Row(drafts, impact, flow) == if IsRow(drafts[n], impact, flow) then Some(drafts[n]) else Row(drafts[..n], impact, flow)
  {
    var n := |drafts| - 1;
    if IsRow(drafts[n], impact, flow) {
      RowFoundAt(drafts, impact, flow, n);
    } else {
      var at := RowAt(drafts, impact, flow);
      if at >= 0 { RowFoundAt(drafts[..n], impact, flow, at); }
      else if RowAt(drafts[..n], impact, flow) >= 0 { RowFoundAt(drafts, impact, flow, RowAt(drafts[..n], impact, flow)); }
    }
  }

  lemma RowNowhere(drafts: seq<Draft>, impact: string, flow: string)
    requires forall d :: d in drafts ==> !IsRow(d, impact, flow)
    ensures Row(drafts, impact, flow) == None
  {
  }

  lemma RemoveIsPointwise(drafts: seq<Draft>, at: nat, i: string, f: string)
    requires UniqueRows(drafts) && at < |drafts|
    ensures var out := drafts[..at] + drafts[at + 1..];
      UniqueRows(out) && Row(out, i, f) == if IsRow(drafts[at], i, f) then None else Row(drafts, i, f)
  {
    var out := drafts[..at] + drafts[at + 1..];
    RemoveKeepsRows(drafts, at);
    var was := RowAt(drafts, i, f);
    if IsRow(drafts[at], i, f) || was < 0 {
      forall d | d in out ensures !IsRow(d, i, f) {
        var k :| 0 <= k < |out| && out[k] == d;
        assert out[k] == drafts[if k < at then k else k + 1];
      }
      RowNowhere(out, i, f);
    } else {
      RowFoundAt(out, i, f, if was > at then was - 1 else was);
    }
  }

  lemma RemoveKeepsRows(drafts: seq<Draft>, at: nat)
    requires UniqueRows(drafts) && at < |drafts|
    ensures UniqueRows(drafts[..at] + drafts[at + 1..])
  {
    var out := drafts[..at] + drafts[at + 1..];
    forall i, j | 0 <= i < j < |out| ensures !IsRow(out[j], out[i].impact, out[i].flow) {
      assert out[i] == drafts[if i < at then i else i + 1] && out[j] == drafts[if j < at then j else j + 1];
    }
  }

  lemma ReplaceIsPointwise(drafts: seq<Draft>, at: nat, d: Draft, i: string, f: string)
    requires UniqueRows(drafts) && at < |drafts| && IsRow(d, drafts[at].impact, drafts[at].flow)
    ensures var out := drafts[at := d];
      UniqueRows(out) && Row(out, i, f) == if IsRow(d, i, f) then Some(d) else Row(drafts, i, f)
  {
    var was := RowAt(drafts, i, f);
    if was >= 0 {
      RowFoundAt(drafts, i, f, was);
      RowFoundAt(drafts[at := d], i, f, was);
      if IsRow(d, i, f) { RowFoundAt(drafts, i, f, at); RowFoundAt(drafts[at := d], i, f, at); }
    }
  }

  lemma AppendRowIsPointwise(drafts: seq<Draft>, d: Draft, i: string, f: string)
    requires UniqueRows(drafts) && Row(drafts, d.impact, d.flow) == None
    ensures UniqueRows(drafts + [d]) && Row(drafts + [d], i, f) == if IsRow(d, i, f) then Some(d) else Row(drafts, i, f)
  {
    var out := drafts + [d];
    assert UniqueRows(out);
    if IsRow(d, i, f) {
      RowFoundAt(out, i, f, |drafts|);
    } else if RowAt(drafts, i, f) >= 0 {
      RowFoundAt(out, i, f, RowAt(drafts, i, f));
    }
  }

  lemma PutRowIsPointwise(drafts: seq<Draft>, impact: string, flow: string, d: Option<Draft>, i: string, f: string)
    requires UniqueRows(drafts) && (d.Some? ==> IsRow(d.value, impact, flow))
    ensures var out := PutRow(drafts, RowAt(drafts, impact, flow), d);
      UniqueRows(out) && Row(out, i, f) == if i == impact && f == flow then d else Row(drafts, i, f)
  {
    var at := RowAt(drafts, impact, flow);
    if d.None? {
      if at >= 0 { RemoveIsPointwise(drafts, at, i, f); }
    } else if at >= 0 {
      ReplaceIsPointwise(drafts, at, d.value, i, f);
    } else {
      AppendRowIsPointwise(drafts, d.value, i, f);
    }
  }

  lemma DraftAfterIsItsRow(d: Option<Draft>, e: ImpactEvent)
    requires d.Some? ==> IsRow(d.value, e.impact, e.flow)
    ensures DraftAfter(d, e).Some? ==> IsRow(DraftAfter(d, e).value, e.impact, e.flow)
  {
  }

  // What an event makes of one row, whatever the others are.
  ghost function NextRow(was: Option<Draft>, impact: string, flow: string, e: ImpactEvent, live: bool): Option<Draft> {
    if !live then None
    else if EditsDraft(e.op) then (if e.impact == impact && e.flow == flow then DraftAfter(was, e) else was)
    else if EndsDrafts(e.op) then (if e.impact == impact then None else was)
    else if e.op == ImpactAdopted then (if e.flow == flow then None else was)
    else was
  }

  /** An event acts on each row as if it were alone, and a row goes with its impact. */
  lemma DraftStepIsPointwise(drafts: seq<Draft>, e: ImpactEvent, impacts: seq<ChangeImpact>, impact: string, flow: string)
    requires UniqueRows(drafts)
    ensures UniqueRows(DraftStep(drafts, e, impacts))
    ensures Row(DraftStep(drafts, e, impacts), impact, flow) == NextRow(Row(drafts, impact, flow), impact, flow, e, Live(impacts, impact))
  {
    TouchIsPointwise(drafts, e, impact, flow);
    FilterIsPointwise(Touched(drafts, e), OfLive(impacts), impact, flow);
  }

  lemma TouchIsPointwise(drafts: seq<Draft>, e: ImpactEvent, impact: string, flow: string)
    requires UniqueRows(drafts)
    ensures UniqueRows(Touched(drafts, e))
    ensures Row(Touched(drafts, e), impact, flow) == NextRow(Row(drafts, impact, flow), impact, flow, e, true)
  {
    if EditsDraft(e.op) {
      DraftAfterIsItsRow(Row(drafts, e.impact, e.flow), e);
      PutRowIsPointwise(drafts, e.impact, e.flow, DraftAfter(Row(drafts, e.impact, e.flow), e), impact, flow);
    } else if EndsDrafts(e.op) {
      FilterIsPointwise(drafts, OfImpactsBut(e.impact), impact, flow);
    } else if e.op == ImpactAdopted {
      FilterIsPointwise(drafts, OfFlowsBut(e.flow), impact, flow);
    }
  }

  // ---- the two folds agree

  // The impact is declared by its first event and counts ever since.
  ghost predicate LivesSince(events: seq<ImpactEvent>, id: string, first: nat)
    requires FoldableLog(events)
  {
    (forall i :: 0 <= i < first && i < |events| ==> events[i].impact != id) &&
    (forall n: nat :: first < n <= |events| ==> LiveAt(events, n, id))
  }

  ghost predicate LiveAt(events: seq<ImpactEvent>, n: nat, id: string)
    requires FoldableLog(events) && n <= |events|
  {
    Live(Fold(events[..n]), id)
  }

  // A chain that follows the impact: its versions are committed on the chain, and no flow of the chain is adopted yet.
  predicate Follows(events: seq<ImpactEvent>, id: string, order: seq<string>) {
    forall i :: 0 <= i < |events| ==>
      (events[i].op == ImpactCommitted && events[i].impact == id ==> events[i].flow in order) &&
      (events[i].op == ImpactAdopted ==> events[i].flow !in order)
  }

  lemma LivesBefore(events: seq<ImpactEvent>, id: string, first: nat)
    requires FoldableLog(events) && LivesSince(events, id, first) && events != []
    ensures LivesSince(events[..|events| - 1], id, first)
    ensures first < |events| ==> Live(Fold(events), id)
  {
    var n := |events| - 1;
    forall m: nat | first < m <= n ensures LiveAt(events[..n], m, id) {
      PrefixOfPrefix(events, n, m);
      assert LiveAt(events, m, id);
    }
    WholePrefix(events);
    if first < |events| { assert LiveAt(events, |events|, id); }
  }

  lemma PrefixOfPrefix<T>(s: seq<T>, n: nat, m: nat)
    requires m <= n <= |s|
    ensures s[..n][..m] == s[..m]
  {
  }

  // One event moves the row of an impact in a flow, and what the flow saw of it, alike.
  lemma MovesAlike(was: Option<Draft>, id: string, order: seq<string>, flow: string, e: ImpactEvent)
    requires flow in order && (e.op == ImpactWithdrawn ==> e.impact != id) && (e.op == ImpactAdopted ==> e.flow != flow)
    requires e.op == ImpactCommitted && e.impact == id ==> e.flow in order
    ensures NextRow(was, id, flow, e, true) ==
            if !Counts(e, id, order, {}) then was
            else if EndsDrafts(e.op) then None
            else if EditsDraft(e.op) && e.flow == flow then DraftAfter(was, e)
            else was
  {
  }

  lemma RowMovesAlike(events: seq<ImpactEvent>, id: string, order: seq<string>, flow: string)
    requires FoldableLog(events) && events != [] && Follows(events, id, order) && flow in order
    requires Live(Fold(events), id) && UniqueRows(DraftsOf(events[..|events| - 1]))
    requires Row(DraftsOf(events[..|events| - 1]), id, flow) == SeenRow(events[..|events| - 1], id, order, {}, flow)
    ensures Row(DraftsOf(events), id, flow) == SeenRow(events, id, order, {}, flow)
  {
    var n := |events| - 1;
    var drafts := DraftsOf(events[..n]);
    DraftStepIsPointwise(drafts, events[n], Fold(events), id, flow);
    LiveIsNotWithdrawn(events, id);
    MovesAlike(Row(drafts, id, flow), id, order, flow, events[n]);
  }

  lemma {:induction false} RowsAreUnique(events: seq<ImpactEvent>)
    requires FoldableLog(events)
    ensures UniqueRows(DraftsOf(events))
  {
    if events != [] {
      var n := |events| - 1;
      RowsAreUnique(events[..n]);
      DraftStepIsPointwise(DraftsOf(events[..n]), events[n], Fold(events), "", "");
    }
  }

  lemma {:induction false} NoRowKept(events: seq<ImpactEvent>, id: string, flow: string)
    requires FoldableLog(events) && forall i :: 0 <= i < |events| ==> events[i].impact != id
    ensures Row(DraftsOf(events), id, flow) == None
  {
    if events != [] {
      var n := |events| - 1;
      NoRowKept(events[..n], id, flow);
      RowsAreUnique(events[..n]);
      DraftStepIsPointwise(DraftsOf(events[..n]), events[n], Fold(events), id, flow);
    }
  }

  lemma {:induction false} RowsAgree(events: seq<ImpactEvent>, id: string, first: nat, order: seq<string>, flow: string)
    requires FoldableLog(events) && LivesSince(events, id, first) && Follows(events, id, order) && flow in order
    ensures Row(DraftsOf(events), id, flow) == SeenRow(events, id, order, {}, flow)
  {
    if first >= |events| {
      NoRowBefore(events, id, order, flow);
      NoRowKept(events, id, flow);
    } else {
      var n := |events| - 1;
      LivesBefore(events, id, first);
      RowsAgree(events[..n], id, first, order, flow);
      RowsAreUnique(events[..n]);
      RowMovesAlike(events, id, order, flow);
    }
  }

  lemma LiveIsNotWithdrawn(events: seq<ImpactEvent>, id: string)
    requires FoldableLog(events) && events != [] && Live(Fold(events), id)
    ensures events[|events| - 1].op == ImpactWithdrawn ==> events[|events| - 1].impact != id
  {
    FoldGrows(events, id);
  }

  lemma {:induction false} NoRowBefore(events: seq<ImpactEvent>, id: string, order: seq<string>, flow: string)
    requires forall i :: 0 <= i < |events| ==> events[i].impact != id
    ensures SeenRow(events, id, order, {}, flow) == None
  {
    if events != [] { NoRowBefore(events[..|events| - 1], id, order, flow); }
  }

  ghost function FirstRow(drafts: seq<Draft>, id: string, order: seq<string>, i: nat): Option<Draft>
    requires i <= |order|
    decreases |order| - i
  {
    if i == |order| then None
    else if Row(drafts, id, order[i]).Some? then Row(drafts, id, order[i])
    else FirstRow(drafts, id, order, i + 1)
  }

  lemma {:induction false} FirstRowsAgree(events: seq<ImpactEvent>, id: string, first: nat, order: seq<string>, i: nat)
    requires FoldableLog(events) && LivesSince(events, id, first) && Follows(events, id, order) && i <= |order|
    ensures FirstSeen(events, id, order, {}, i) == FirstRow(DraftsOf(events), id, order, i)
    decreases |order| - i
  {
    if i < |order| {
      RowsAgree(events, id, first, order, order[i]);
      FirstRowsAgree(events, id, first, order, i + 1);
    }
  }

  /** The draft a flow sees, replayed from the log, is the innermost row of the flow the fold of the whole change keeps. */
  lemma SeenDraftIsTheInnermostRow(events: seq<ImpactEvent>, id: string, first: nat, chain: seq<string>)
    requires FoldableLog(events) && LivesSince(events, id, first) && Follows(events, id, chain + [""])
    ensures SeenDraft(events, id, chain, {}) == FirstRow(DraftsOf(events), id, chain + [""], 0)
  {
    FirstRowsAgree(events, id, first, chain + [""], 0);
  }

  // ---- the post of an impact says whether main holds its draft

  ghost predicate PostIsDraft(cn: Option<ChangeImpact>) {
    cn.Some? && cn.value.post.Some? && cn.value.post.value.IsDraft()
  }

  predicate IsDraftRef(r: Option<NodeRef>) { r.Some? && r.value.IsDraft() }

  // The events of an impact declared on main as the graph writes them: a post is a draft reference when a draft comes
  // with it, a transition without one keeps what it finds, what is committed is a version.
  ghost predicate PostsItsDraft(was: Option<ChangeImpact>, e: ImpactEvent)
    requires e.Foldable()
  {
    match e.op
    case ImpactProposed => e.flow == "" && was.None? && e.state.value.flow == "" && !IsDraftRef(e.state.value.post)
    case ImpactCreated => e.flow == "" && was.None? && e.state.value.flow == "" && (e.draft.Some? <==> IsDraftRef(e.post))
    case ImpactCheckedOut => e.flow == "" ==> e.draft.Some? && IsDraftRef(e.post)
    case ImpactTransitioned => e.flow == "" ==>
      if e.draft.Some? then IsDraftRef(e.post) else (IsDraftRef(e.post) <==> PostIsDraft(was))
    case ImpactCancelled => e.flow == "" ==> !IsDraftRef(e.post)
    case ImpactCommitted => e.flow == "" && !e.committed.value.IsDraft()
    case _ => true
  }

  ghost predicate PostsItsDrafts(events: seq<ImpactEvent>, id: string)
    requires FoldableLog(events)
  {
    forall i :: 0 <= i < |events| && events[i].impact == id ==> PostsItsDraft(Find(Fold(events[..i]), id), events[i])
  }

  lemma NextPost(was: Option<ChangeImpact>, row: Option<Draft>, id: string, e: ImpactEvent, live: bool)
    requires e.Foldable() && (e.impact == id ==> PostsItsDraft(was, e))
    requires was.Some? ==> was.value.flow == ""
    requires PostIsDraft(was) <==> row.Some?
    requires if live then Next(was, id, e).Some? else was.None? && e.impact != id
    ensures Next(was, id, e).Some? ==> Next(was, id, e).value.flow == ""
    ensures PostIsDraft(Next(was, id, e)) <==> NextRow(row, id, "", e, live).Some?
  {
    if was.Some? && e.impact == id && (e.op == ImpactUpdated || e.op == ImpactCancelled) { EditedPost(was.value, e); }
  }

  // An edit leaves the post and the flow of an impact; what reopens it after a cancelled checkout does too.
  lemma EditedPost(cn: ChangeImpact, e: ImpactEvent)
    requires e.Foldable() && (e.op == ImpactUpdated || e.op == ImpactCancelled)
    ensures Moved(cn, e).Some? ==>
              Moved(cn, e).value.flow == cn.flow &&
              Moved(cn, e).value.post == if e.op == ImpactUpdated || OnOtherFlow(cn, e) then cn.post else e.post
    ensures e.op == ImpactUpdated ==> Moved(cn, e).Some?
  {
  }

  /** A main impact that counts has a draft on main exactly when its post is a draft reference. */
  lemma {:induction false} PostSaysWhetherDrafted(events: seq<ImpactEvent>, id: string, first: nat)
    requires FoldableLog(events) && LivesSince(events, id, first) && PostsItsDrafts(events, id)
    ensures UniqueRows(DraftsOf(events))
    ensures Find(Fold(events), id).Some? ==> Find(Fold(events), id).value.flow == ""
    ensures PostIsDraft(Find(Fold(events), id)) <==> Row(DraftsOf(events), id, "").Some?
  {
    if events != [] {
      var n := |events| - 1;
      LivesBefore(events, id, first);
      PostsBefore(events, id);
      PostSaysWhetherDrafted(events[..n], id, first);
      if first > n { UndeclaredBefore(events[..n], id); }
      PostStep(events, id, first);
    }
  }

  lemma PostsBefore(events: seq<ImpactEvent>, id: string)
    requires FoldableLog(events) && PostsItsDrafts(events, id) && events != []
    ensures PostsItsDrafts(events[..|events| - 1], id)
    ensures var e := events[|events| - 1]; e.impact == id ==> PostsItsDraft(Find(Fold(events[..|events| - 1]), id), e)
  {
    var n := |events| - 1;
    assert forall m :: 0 <= m <= n ==> events[..n][..m] == events[..m];
  }

  lemma {:induction false} UndeclaredBefore(events: seq<ImpactEvent>, id: string)
    requires FoldableLog(events) && forall i :: 0 <= i < |events| ==> events[i].impact != id
    ensures Find(Fold(events), id).None?
  {
    if events != [] {
      UndeclaredBefore(events[..|events| - 1], id);
      FoldGrows(events, id);
    }
  }

  lemma PostStep(events: seq<ImpactEvent>, id: string, first: nat)
    requires FoldableLog(events) && events != []
    requires first < |events| ==> Live(Fold(events), id)
    requires first >= |events| ==> events[|events| - 1].impact != id && Find(Fold(events[..|events| - 1]), id).None?
    requires var rest, e := events[..|events| - 1], events[|events| - 1];
      UniqueRows(DraftsOf(rest)) && (e.impact == id ==> PostsItsDraft(Find(Fold(rest), id), e)) &&
      (Find(Fold(rest), id).Some? ==> Find(Fold(rest), id).value.flow == "") &&
      (PostIsDraft(Find(Fold(rest), id)) <==> Row(DraftsOf(rest), id, "").Some?)
    ensures UniqueRows(DraftsOf(events))
    ensures Find(Fold(events), id).Some? ==> Find(Fold(events), id).value.flow == ""
    ensures PostIsDraft(Find(Fold(events), id)) <==> Row(DraftsOf(events), id, "").Some?
  {
    var rest, e := events[..|events| - 1], events[|events| - 1];
    var was, row := Find(Fold(rest), id), Row(DraftsOf(rest), id, "");
    DraftStepIsPointwise(DraftsOf(rest), e, Fold(events), id, "");
    FoldGrows(events, id);
    NextPost(was, row, id, e, Live(Fold(events), id));
  }
}
