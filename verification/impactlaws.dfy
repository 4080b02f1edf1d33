// What the fold of the impact events says of an impact, field by field, from the events of its log by their positions
// (contracts/domain/impactevent.go).
module ImpactLaws {
  import opened Prelude
  import opened Domain
  import opened ImpactFold
  import opened ReviewLaws

  // ---- the declaration

  predicate Declares(e: ImpactEvent, id: string) { e.impact == id && (e.op == ImpactProposed || e.op == ImpactCreated) }

  // The last declaration of an impact among the first events.
  predicate DeclaredAt(events: seq<ImpactEvent>, id: string, n: nat, d: nat) {
    d < n <= |events| && Declares(events[d], id) && forall j :: d < j < n ==> !Declares(events[j], id)
  }

  // ---- adoptions since a position

  predicate AdoptedIn(events: seq<ImpactEvent>, from: nat, n: nat, flow: string) {
    exists k :: from < k < n && k < |events| && events[k].op == ImpactAdopted && events[k].flow == flow
  }

  // What a flow written at a position is later: main once it was adopted.
  function FlowSince(events: seq<ImpactEvent>, from: nat, n: nat, flow: string): string {
    if AdoptedIn(events, from, n, flow) then "" else flow
  }

  // The adoption of a flow replaces the run of something that is of main by then.
  predicate ReplacesAt(events: seq<ImpactEvent>, from: nat, k: nat, flow: string, execution: string) {
    k < |events| && events[k].op == ImpactAdopted && execution != "" && execution in events[k].stale &&
    FlowSince(events, from, k, flow) == ""
  }

  predicate ReplacedIn(events: seq<ImpactEvent>, from: nat, n: nat, flow: string, execution: string) {
    exists k: nat :: from < k < n && ReplacesAt(events, from, k, flow, execution)
  }

  lemma AdoptedSnoc(events: seq<ImpactEvent>, from: nat, n: nat, flow: string)
    requires from < n < |events|
    ensures AdoptedIn(events, from, n + 1, flow) <==>
            AdoptedIn(events, from, n, flow) || (events[n].op == ImpactAdopted && events[n].flow == flow)
  {
  }

  lemma ReplacedSnoc(events: seq<ImpactEvent>, from: nat, n: nat, flow: string, execution: string)
    requires from < n < |events|
    ensures ReplacedIn(events, from, n + 1, flow, execution) <==>
            ReplacedIn(events, from, n, flow, execution) || ReplacesAt(events, from, n, flow, execution)
  {
  }

  // ---- the events that set a field

  datatype Mark = Commits | GivesEffect | Rebases | SetsPre | SetsPost

  // The event is written on main, or on the flow the impact is of by then.
  predicate OnOwn(events: seq<ImpactEvent>, d: nat, j: nat)
    requires d < |events| && j < |events| && events[d].state.Some?
  {
    events[j].flow == "" || events[j].flow == FlowSince(events, d, j, events[d].state.value.flow)
  }

  ghost predicate Hits(events: seq<ImpactEvent>, id: string, d: nat, j: nat, mark: Mark)
    requires FoldableLog(events) && d < |events| && j < |events| && events[d].state.Some?
  {
    var e := events[j];
    e.impact == id &&
    match mark
    case Commits => e.op == ImpactCommitted
    case GivesEffect => e.op == ImpactCommitted && e.effect.Some?
    case Rebases => e.op == ImpactRebased
    case SetsPre => e.op == ImpactRebased ||
                    ((e.op == ImpactTransitioned || e.op == ImpactCheckedOut) && e.pre.Some? && OnOwn(events, d, j))
    case SetsPost => ((e.op == ImpactTransitioned || e.op == ImpactCheckedOut || e.op == ImpactCancelled) && OnOwn(events, d, j)) ||
                     (e.op == ImpactCommitted && Unversioned(Find(Fold(events[..j]), id)))
  }

  // The impact has no version yet: no post, or the reference of a draft.
  predicate Unversioned(cn: Option<ChangeImpact>) {
    cn.Some? && (cn.value.post.None? || (cn.value.post.value.id != "" && cn.value.post.value.version == 0))
  }

  // The last event after the declaration that sets a field, among the first ones; none: -1.
  ghost function Last(events: seq<ImpactEvent>, id: string, d: nat, n: nat, mark: Mark): (j: int)
    requires FoldableLog(events) && d < |events| && n <= |events| && events[d].state.Some?
    ensures -1 <= j < n
    ensures j >= 0 ==> d < j && Hits(events, id, d, j, mark)
    ensures forall k: nat :: (if j < 0 then d else j) < k < n ==> !Hits(events, id, d, k, mark)
  {
    if n <= d + 1 then -1 else if Hits(events, id, d, n - 1, mark) then n - 1 else Last(events, id, d, n - 1, mark)
  }

  // ---- what the fold says

  // The values an impact has of the fields that events set, and what it keeps of its declaration.
  ghost predicate FieldsSay(events: seq<ImpactEvent>, id: string, d: nat, n: nat, cn: ChangeImpact)
    requires FoldableLog(events) && n <= |events| && d < n && Declares(events[d], id)
  {
    var st := events[d].state.value;
    cn == st.(flow := cn.flow, superseded := cn.superseded, committed := cn.committed, effect := cn.effect, recheck := cn.recheck,
              pre := cn.pre, post := cn.post, review := cn.review, reviews := cn.reviews) &&
    cn.flow == FlowSince(events, d, n, st.flow) &&
    (cn.superseded <==> st.superseded || ReplacedIn(events, d, n, st.flow, st.execution)) &&
    MarksSay(events, id, d, n, cn)
  }

  ghost predicate MarksSay(events: seq<ImpactEvent>, id: string, d: nat, n: nat, cn: ChangeImpact)
    requires FoldableLog(events) && n <= |events| && d < n && Declares(events[d], id)
  {
    var st := events[d].state.value;
    (var j := Last(events, id, d, n, Commits); cn.committed == if j < 0 then st.committed else events[j].committed) &&
    (var j := Last(events, id, d, n, GivesEffect); cn.effect == if j < 0 then st.effect else events[j].effect.value) &&
    (cn.recheck <==> st.recheck || Last(events, id, d, n, Rebases) >= 0) &&
    (var j := Last(events, id, d, n, SetsPre); cn.pre == if j < 0 then st.pre else events[j].pre) &&
    (var j := Last(events, id, d, n, SetsPost);
     cn.post == if j >= 0 then (if events[j].op == ImpactCommitted then events[j].committed else events[j].post)
                else if events[d].op == ImpactCreated then events[d].post else st.post)
  }

  // ---- one event more

  lemma FoldOneMore(events: seq<ImpactEvent>, n: nat, id: string)
    requires FoldableLog(events) && n < |events|
    ensures Find(Fold(events[..n + 1]), id) == Next(Find(Fold(events[..n]), id), id, events[n])
  {
    assert events[..n + 1][..n] == events[..n];
    FoldGrows(events[..n + 1], id);
  }

  lemma DeclarationSays(events: seq<ImpactEvent>, id: string, n: nat)
    requires FoldableLog(events) && n < |events| && Declares(events[n], id)
    ensures DeclaredAt(events, id, n + 1, n) && FieldsSay(events, id, n, n + 1, Declared(events[n]))
  {
  }

  // A field moves with its last setting event.
  lemma MarkMoves(events: seq<ImpactEvent>, id: string, d: nat, n: nat, mark: Mark)
    requires FoldableLog(events) && d < n < |events| && events[d].state.Some?
    ensures Last(events, id, d, n + 1, mark) == if Hits(events, id, d, n, mark) then n else Last(events, id, d, n, mark)
  {
  }

  // What the fields become of an event, when they are of the ones it sets.
  ghost predicate MarksMoved(events: seq<ImpactEvent>, id: string, d: nat, n: nat, cn: ChangeImpact, now: ChangeImpact)
    requires FoldableLog(events) && d < n < |events| && events[d].state.Some?
  {
    var e := events[n];
    now.committed == (if Hits(events, id, d, n, Commits) then e.committed else cn.committed) &&
    (if Hits(events, id, d, n, GivesEffect) then Some(now.effect) == e.effect else now.effect == cn.effect) &&
    (now.recheck <==> cn.recheck || Hits(events, id, d, n, Rebases)) &&
    now.pre == (if Hits(events, id, d, n, SetsPre) then e.pre else cn.pre) &&
    now.post == if Hits(events, id, d, n, SetsPost) then (if e.op == ImpactCommitted then e.committed else e.post) else cn.post
  }

  lemma MarksStep(events: seq<ImpactEvent>, id: string, d: nat, n: nat, cn: ChangeImpact, now: ChangeImpact)
    requires FoldableLog(events) && d < n < |events| && Declares(events[d], id)
    requires MarksSay(events, id, d, n, cn) && MarksMoved(events, id, d, n, cn, now)
    ensures MarksSay(events, id, d, n + 1, now)
  {
    MarkMoves(events, id, d, n, Commits);
    MarkMoves(events, id, d, n, GivesEffect);
    MarkMoves(events, id, d, n, Rebases);
    MarkMoves(events, id, d, n, SetsPre);
    MarkMoves(events, id, d, n, SetsPost);
  }

  lemma AdoptionSays(events: seq<ImpactEvent>, id: string, d: nat, n: nat, cn: ChangeImpact)
    requires FoldableLog(events) && d < n < |events| && Declares(events[d], id) && events[n].op == ImpactAdopted
    requires FieldsSay(events, id, d, n, cn)
    ensures FieldsSay(events, id, d, n + 1, Adopted(cn, events[n].flow, events[n].stale))
  {
    var st := events[d].state.value;
    AdoptedSnoc(events, d, n, st.flow);
    ReplacedSnoc(events, d, n, st.flow, st.execution);
    MarksStep(events, id, d, n, cn, Adopted(cn, events[n].flow, events[n].stale));
  }

  // An event that adopts no flow leaves the flow of the impact, and what replaced it.
  lemma NothingAdopted(events: seq<ImpactEvent>, d: nat, n: nat, st: ChangeImpact)
    requires d < n < |events| && events[n].op != ImpactAdopted
    ensures FlowSince(events, d, n + 1, st.flow) == FlowSince(events, d, n, st.flow)
    ensures ReplacedIn(events, d, n + 1, st.flow, st.execution) <==> ReplacedIn(events, d, n, st.flow, st.execution)
  {
    AdoptedSnoc(events, d, n, st.flow);
    ReplacedSnoc(events, d, n, st.flow, st.execution);
  }

  // The impact is on the flow its declaration and the adoptions say: an event is on its own flow, or on another.
  lemma OwnOrOther(events: seq<ImpactEvent>, id: string, d: nat, n: nat, cn: ChangeImpact)
    requires FoldableLog(events) && d < n < |events| && Declares(events[d], id) && FieldsSay(events, id, d, n, cn)
    ensures OnOwn(events, d, n) <==> !OnOtherFlow(cn, events[n])
  {
  }

  // An event sets the fields it is said to, and nothing else but the reviews.
  ghost predicate OnlyMoves(events: seq<ImpactEvent>, id: string, d: nat, n: nat, cn: ChangeImpact, now: ChangeImpact)
    requires FoldableLog(events) && d < n < |events| && events[d].state.Some?
  {
    MarksMoved(events, id, d, n, cn, now) &&
    now == cn.(committed := now.committed, effect := now.effect, recheck := now.recheck, pre := now.pre, post := now.post,
               review := now.review, reviews := now.reviews)
  }

  // An event that adopts no flow, and sets the fields it is said to, goes on saying them.
  lemma FieldsStep(events: seq<ImpactEvent>, id: string, d: nat, n: nat, cn: ChangeImpact, now: ChangeImpact)
    requires FoldableLog(events) && d < n < |events| && Declares(events[d], id) && FieldsSay(events, id, d, n, cn)
    requires events[n].op != ImpactAdopted && OnlyMoves(events, id, d, n, cn, now)
    ensures FieldsSay(events, id, d, n + 1, now)
  {
    NothingAdopted(events, d, n, events[d].state.value);
    MarksStep(events, id, d, n, cn, now);
  }

  lemma WriteSays(events: seq<ImpactEvent>, id: string, d: nat, n: nat, cn: ChangeImpact)
    requires FoldableLog(events) && d < n < |events| && Declares(events[d], id) && FieldsSay(events, id, d, n, cn)
    requires events[n].impact == id && (events[n].op == ImpactTransitioned || events[n].op == ImpactCheckedOut)
    ensures OnlyMoves(events, id, d, n, cn, Written(cn, events[n]))
  {
    OwnOrOther(events, id, d, n, cn);
  }

  lemma CommitSays(events: seq<ImpactEvent>, id: string, d: nat, n: nat, cn: ChangeImpact)
    requires FoldableLog(events) && d < n < |events| && Declares(events[d], id) && FieldsSay(events, id, d, n, cn)
    requires events[n].impact == id && events[n].op == ImpactCommitted && Find(Fold(events[..n]), id) == Some(cn)
    ensures OnlyMoves(events, id, d, n, cn, Moved(cn, events[n]).value)
  {
  }

  // What an edit and a review leave of the fields.
  ghost predicate SameFields(a: ChangeImpact, b: ChangeImpact) { a == b.(review := a.review, reviews := a.reviews) }

  lemma EditKeepsFields(cn: ChangeImpact, e: ImpactEvent)
    ensures SameFields(Edited(cn, e), cn)
    ensures SameFields(CancelReopens(cn, e), cn)
  {
  }

  lemma CancelSays(events: seq<ImpactEvent>, id: string, d: nat, n: nat, cn: ChangeImpact)
    requires FoldableLog(events) && d < n < |events| && Declares(events[d], id) && FieldsSay(events, id, d, n, cn)
    requires events[n].impact == id && events[n].op == ImpactCancelled && Moved(cn, events[n]).Some?
    ensures OnlyMoves(events, id, d, n, cn, Moved(cn, events[n]).value)
  {
    var e := events[n];
    OwnOrOther(events, id, d, n, cn);
    EditKeepsFields(cn, e);
    EditKeepsFields(cn.(post := e.post), e);
  }

  lemma OtherSays(events: seq<ImpactEvent>, id: string, d: nat, n: nat, cn: ChangeImpact, now: ChangeImpact)
    requires FoldableLog(events) && d < n < |events| && Declares(events[d], id) && FieldsSay(events, id, d, n, cn)
    requires events[n].op != ImpactAdopted && SameFields(now, cn)
    requires events[n].impact == id ==> events[n].op in {ImpactUpdated, ImpactReviewed, ImpactDiscarded, ImpactRequalified}
    ensures OnlyMoves(events, id, d, n, cn, now)
  {
  }

  lemma EventSays(events: seq<ImpactEvent>, id: string, d: nat, n: nat, cn: ChangeImpact)
    requires FoldableLog(events) && d < n < |events| && Declares(events[d], id) && FieldsSay(events, id, d, n, cn)
    requires Find(Fold(events[..n]), id) == Some(cn) && !Declares(events[n], id) && Next(Some(cn), id, events[n]).Some?
    ensures FieldsSay(events, id, d, n + 1, Next(Some(cn), id, events[n]).value)
  {
    var e := events[n];
    if e.op == ImpactAdopted {
      AdoptionSays(events, id, d, n, cn);
    } else if e.impact != id {
      OtherSays(events, id, d, n, cn, cn);
      FieldsStep(events, id, d, n, cn, cn);
    } else {
      OwnEventSays(events, id, d, n, cn);
    }
  }

  lemma OwnEventSays(events: seq<ImpactEvent>, id: string, d: nat, n: nat, cn: ChangeImpact)
    requires FoldableLog(events) && d < n < |events| && Declares(events[d], id) && FieldsSay(events, id, d, n, cn)
    requires Find(Fold(events[..n]), id) == Some(cn) && events[n].impact == id && events[n].op != ImpactAdopted
    requires !Declares(events[n], id) && Moved(cn, events[n]).Some?
    ensures FieldsSay(events, id, d, n + 1, Moved(cn, events[n]).value)
  {
    var op, now := events[n].op, Moved(cn, events[n]).value;
    if op == ImpactTransitioned || op == ImpactCheckedOut {
      WriteSays(events, id, d, n, cn);
    } else if op == ImpactCommitted {
      CommitSays(events, id, d, n, cn);
    } else if op == ImpactCancelled {
      CancelSays(events, id, d, n, cn);
    } else if op == ImpactRebased {
      RebaseSays(events, id, d, n, cn);
    } else {
      EditKeepsFields(cn, events[n]);
      OtherSays(events, id, d, n, cn, now);
    }
    FieldsStep(events, id, d, n, cn, now);
  }

  lemma RebaseSays(events: seq<ImpactEvent>, id: string, d: nat, n: nat, cn: ChangeImpact)
    requires FoldableLog(events) && d < n < |events| && Declares(events[d], id)
    requires events[n].impact == id && events[n].op == ImpactRebased
    ensures OnlyMoves(events, id, d, n, cn, Moved(cn, events[n]).value)
  {
  }

  /**
   * Over any log, every field of an impact but its reviews, from the events by their positions: the committed version of
   * the last commit since its declaration, the effect the last commit gave, the pre and the recheck of the rebases, the post
   * of the last write on its own flow, the flow until it is adopted, replaced once an adoption replaces its run on main, and
   * all else as declared.
   */
  lemma {:induction false} ImpactIsItsEvents(events: seq<ImpactEvent>, id: string, n: nat) returns (d: nat)
    requires FoldableLog(events) && n <= |events| && Find(Fold(events[..n]), id).Some?
    ensures DeclaredAt(events, id, n, d) && FieldsSay(events, id, d, n, Find(Fold(events[..n]), id).value)
    decreases n
  {
    assert events[..0] == [];
    var last: nat := n - 1;
    FoldOneMore(events, last, id);
    if Declares(events[last], id) {
      d := last;
      DeclarationSays(events, id, last);
    } else {
      d := ImpactIsItsEvents(events, id, last);
      DeclaredStill(events, id, d, last);
      EventSays(events, id, d, last, Find(Fold(events[..last]), id).value);
    }
  }

  lemma DeclaredStill(events: seq<ImpactEvent>, id: string, d: nat, n: nat)
    requires n < |events| && DeclaredAt(events, id, n, d) && !Declares(events[n], id)
    ensures DeclaredAt(events, id, n + 1, d)
  {
  }

  // ---- which impacts there are, and in what order

  // The event takes the impact out of the list.
  ghost predicate Removes(events: seq<ImpactEvent>, id: string, d: nat, j: nat)
    requires d < |events| && j < |events| && events[d].state.Some?
  {
    var e := events[j];
    e.impact == id &&
    (e.op == ImpactWithdrawn ||
     (e.op == ImpactCancelled && OnOwn(events, d, j) && e.post.None? && events[d].state.value.intent == IntentCreated))
  }

  ghost predicate StandsSince(events: seq<ImpactEvent>, id: string, n: nat, d: nat)
    requires FoldableLog(events)
  {
    DeclaredAt(events, id, n, d) && forall j :: d < j < n ==> !Removes(events, id, d, j)
  }

  lemma RemovalIs(events: seq<ImpactEvent>, id: string, n: nat, d: nat)
    requires FoldableLog(events) && n < |events| && DeclaredAt(events, id, n, d) && !Declares(events[n], id)
    requires Find(Fold(events[..n]), id).Some? && FieldsSay(events, id, d, n, Find(Fold(events[..n]), id).value)
    ensures Find(Fold(events[..n + 1]), id).None? <==> Removes(events, id, d, n)
  {
    var cn := Find(Fold(events[..n]), id).value;
    FoldOneMore(events, n, id);
    OwnOrOther(events, id, d, n, cn);
    GoesWhen(cn, id, events[n]);
  }

  lemma GoesWhen(cn: ChangeImpact, id: string, e: ImpactEvent)
    requires e.Foldable() && !Declares(e, id)
    ensures Next(Some(cn), id, e).None? <==>
            e.impact == id &&
            (e.op == ImpactWithdrawn ||
             (e.op == ImpactCancelled && !OnOtherFlow(cn, e) && e.post.None? && cn.intent == IntentCreated))
  {
  }

  /** Over any log an impact is there if and only if it was declared and nothing took it out since. */
  lemma {:induction false} ThereSinceDeclared(events: seq<ImpactEvent>, id: string, n: nat)
    requires FoldableLog(events) && n <= |events|
    ensures Find(Fold(events[..n]), id).Some? <==> exists d: nat :: StandsSince(events, id, n, d)
    decreases n
  {
    if n == 0 {
      assert events[..0] == [];
    } else {
      var last: nat := n - 1;
      ThereSinceDeclared(events, id, last);
      FoldOneMore(events, last, id);
      if Declares(events[last], id) {
        assert StandsSince(events, id, n, last);
      } else {
        ThereStill(events, id, last, n);
      }
    }
  }

  lemma ThereStill(events: seq<ImpactEvent>, id: string, last: nat, n: nat)
    requires FoldableLog(events) && n == last + 1 <= |events| && !Declares(events[last], id)
    requires Find(Fold(events[..last]), id).Some? <==> exists d: nat :: StandsSince(events, id, last, d)
    ensures Find(Fold(events[..n]), id).Some? <==> exists d: nat :: StandsSince(events, id, n, d)
  {
    FoldOneMore(events, last, id);
    if Find(Fold(events[..last]), id).Some? {
      var d := ImpactIsItsEvents(events, id, last);
      var c: nat :| StandsSince(events, id, last, c);
      assert c == d;
      RemovalIs(events, id, last, d);
      StandsOneMore(events, id, last, n, d);
      forall x: nat | StandsSince(events, id, n, x) ensures x == d { StandsOneLess(events, id, last, n, x); }
    } else {
      forall x: nat ensures !StandsSince(events, id, n, x) {
        if StandsSince(events, id, n, x) { StandsOneLess(events, id, last, n, x); }
      }
    }
  }

  lemma StandsOneMore(events: seq<ImpactEvent>, id: string, last: nat, n: nat, d: nat)
    requires FoldableLog(events) && n == last + 1 <= |events| && !Declares(events[last], id) && StandsSince(events, id, last, d)
    ensures StandsSince(events, id, n, d) <==> !Removes(events, id, d, last)
  {
  }

  lemma StandsOneLess(events: seq<ImpactEvent>, id: string, last: nat, n: nat, d: nat)
    requires FoldableLog(events) && n == last + 1 <= |events| && !Declares(events[last], id) && StandsSince(events, id, n, d)
    ensures StandsSince(events, id, last, d) && !Removes(events, id, d, last)
  {
    assert d != last;
  }

  // Where the impact last entered the list: declared when it was not there.
  ghost function EnteredAt(events: seq<ImpactEvent>, id: string, n: nat): (p: int)
    requires FoldableLog(events) && n <= |events|
    ensures -1 <= p < n
  {
    if n == 0 then -1
    else if Find(Fold(events[..n - 1]), id).None? && Find(Fold(events[..n]), id).Some? then n - 1
    else EnteredAt(events, id, n - 1)
  }

  ghost predicate InOrder(events: seq<ImpactEvent>, n: nat)
    requires FoldableLog(events) && n <= |events|
  {
    Ascends(events, Fold(events[..n]), n)
  }

  // A list after an event: the same ids, one more at the end, or one less.
  predicate SameIds(a: seq<ChangeImpact>, b: seq<ChangeImpact>) { |a| == |b| && forall i :: 0 <= i < |a| ==> a[i].id == b[i].id }

  predicate OneLess(was: seq<ChangeImpact>, now: seq<ChangeImpact>, at: nat) {
    at < |was| && |now| == |was| - 1 && forall i :: 0 <= i < |now| ==> now[i].id == was[if i < at then i else i + 1].id
  }

  // An event keeps the ids, -1; or takes out the one at a position; or adds its own after the last.
  ghost predicate StepAt(was: seq<ChangeImpact>, now: seq<ChangeImpact>, e: ImpactEvent, at: int) {
    -1 <= at <= |was| &&
    if at < 0 then SameIds(was, now)
    else if at < |was| then OneLess(was, now, at)
    else Find(was, e.impact).None? && |now| == |was| + 1 && now[|was|].id == e.impact && SameIds(was, now[..|was|])
  }

  lemma StepIds(impacts: seq<ChangeImpact>, e: ImpactEvent) returns (at: int)
    requires e.Foldable()
    ensures StepAt(impacts, Step(impacts, e), e, at)
  {
    var p := Position(impacts, e.impact);
    at := -1;
    if Declares(e, e.impact) {
      if p < 0 { at := |impacts|; } else { InPlace(impacts, p, Declared(e)); }
    } else if e.op != ImpactAdopted && p >= 0 {
      if Moved(impacts[p], e).Some? {
        MovedKeepsId(impacts[p], e);
        InPlace(impacts, p, Moved(impacts[p], e).value);
      } else {
        at := p;
        TakenOut(impacts, p);
      }
    }
  }

  lemma InPlace(impacts: seq<ChangeImpact>, p: nat, cn: ChangeImpact)
    requires p < |impacts| && cn.id == impacts[p].id
    ensures SameIds(impacts, impacts[p := cn])
  {
  }

  lemma TakenOut(impacts: seq<ChangeImpact>, p: nat)
    requires p < |impacts|
    ensures OneLess(impacts, impacts[..p] + impacts[p + 1..], p)
  {
  }

  lemma EnteredStep(events: seq<ImpactEvent>, id: string, n: nat)
    requires FoldableLog(events) && n < |events|
    ensures EnteredAt(events, id, n + 1) ==
            if Find(Fold(events[..n]), id).None? && Find(Fold(events[..n + 1]), id).Some? then n else EnteredAt(events, id, n)
  {
  }

  // The impacts that were there entered where they did.
  lemma EnteredAlike(events: seq<ImpactEvent>, n: nat, i: nat, was: seq<ChangeImpact>)
    requires FoldableLog(events) && n < |events| && was == Fold(events[..n]) && i < |was|
    ensures EnteredAt(events, was[i].id, n + 1) == EnteredAt(events, was[i].id, n)
  {
    EnteredStep(events, was[i].id, n);
  }

  lemma OrderStep(events: seq<ImpactEvent>, n: nat, was: seq<ChangeImpact>, now: seq<ChangeImpact>)
    requires FoldableLog(events) && n < |events| && InOrder(events, n) && was == Fold(events[..n]) && now == Fold(events[..n + 1])
    requires now == Step(was, events[n])
    ensures InOrder(events, n + 1)
  {
    var at := StepIds(was, events[n]);
    forall i: nat | i < |was| ensures EnteredAt(events, was[i].id, n + 1) == EnteredAt(events, was[i].id, n) { EnteredAlike(events, n, i, was); }
    if at < 0 {
      assert Ascends(events, was, n + 1);
    } else if at < |was| {
      LessAscends(events, was, now, at, n + 1);
    } else {
      NewEnters(events, n, was, now);
      MoreAscends(events, was, now, n);
    }
  }

  lemma NewEnters(events: seq<ImpactEvent>, n: nat, was: seq<ChangeImpact>, now: seq<ChangeImpact>)
    requires FoldableLog(events) && n < |events| && was == Fold(events[..n]) && now == Fold(events[..n + 1])
    requires StepAt(was, now, events[n], |was|)
    ensures EnteredAt(events, now[|was|].id, n + 1) == n
  {
    EnteredStep(events, events[n].impact, n);
    assert now[|was|].id == events[n].impact;
  }

  ghost predicate Ascends(events: seq<ImpactEvent>, impacts: seq<ChangeImpact>, n: nat)
    requires FoldableLog(events) && n <= |events|
  {
    forall i, j :: 0 <= i < j < |impacts| ==> EnteredAt(events, impacts[i].id, n) < EnteredAt(events, impacts[j].id, n)
  }

  lemma LessAscends(events: seq<ImpactEvent>, was: seq<ChangeImpact>, now: seq<ChangeImpact>, at: nat, n: nat)
    requires FoldableLog(events) && n <= |events| && Ascends(events, was, n) && OneLess(was, now, at)
    ensures Ascends(events, now, n)
  {
    forall i, j | 0 <= i < j < |now| ensures EnteredAt(events, now[i].id, n) < EnteredAt(events, now[j].id, n) {
      assert now[i].id == was[if i < at then i else i + 1].id && now[j].id == was[if j < at then j else j + 1].id;
    }
  }

  lemma MoreAscends(events: seq<ImpactEvent>, was: seq<ChangeImpact>, now: seq<ChangeImpact>, n: nat)
    requires FoldableLog(events) && n < |events| && |now| == |was| + 1 && SameIds(was, now[..|was|])
    requires forall i :: 0 <= i < |was| ==> EnteredAt(events, was[i].id, n + 1) == EnteredAt(events, was[i].id, n)
    requires Ascends(events, was, n) && EnteredAt(events, now[|was|].id, n + 1) == n
    ensures Ascends(events, now, n + 1)
  {
    forall i, j | 0 <= i < j < |now| ensures EnteredAt(events, now[i].id, n + 1) < EnteredAt(events, now[j].id, n + 1) {
      assert now[i].id == was[i].id;
      if j < |was| { assert now[j].id == was[j].id; }
    }
  }

  /** Over any log the impacts are in the order they entered the list, those declared again after they were gone last. */
  lemma {:induction false} ImpactsInOrder(events: seq<ImpactEvent>, n: nat)
    requires FoldableLog(events) && n <= |events|
    ensures InOrder(events, n)
    decreases n
  {
    if n == 0 {
      assert events[..0] == [];
    } else {
      var last: nat := n - 1;
      ImpactsInOrder(events, last);
      assert events[..n][..last] == events[..last];
      OrderStep(events, last, Fold(events[..last]), Fold(events[..n]));
    }
  }

  // ---- the history of an impact

  function CommentOf(e: ImpactEvent): string {
    if e.patch.Some? && e.patch.value.rebased.Some? && e.patch.value.rebased.value != "" then "rebased onto " + e.patch.value.rebased.value
    else "edited again"
  }

  // The event reopens an impact that its flow saw decided: an edit, or a cancelled checkout of what is not a plain creation.
  ghost predicate ReopensAt(events: seq<ImpactEvent>, id: string, j: nat)
    requires FoldableLog(events) && j < |events|
  {
    var e, cn := events[j], Find(Fold(events[..j]), id);
    cn.Some? && (e.op == ImpactUpdated || (e.op == ImpactCancelled && (cn.value.intent == IntentModified || cn.value.committed.Some?))) &&
    SeenOn(cn.value, e.flow) != ReviewProposed
  }

  ghost predicate AddsAt(events: seq<ImpactEvent>, id: string, j: nat)
    requires FoldableLog(events) && j < |events|
  {
    events[j].impact == id && (events[j].op == ImpactReviewed || events[j].op == ImpactDiscarded || ReopensAt(events, id, j))
  }

  // The entry an event adds to the history.
  function EntryAt(events: seq<ImpactEvent>, j: nat): Review
    requires j < |events| && ((events[j].op == ImpactReviewed || events[j].op == ImpactDiscarded) ==> events[j].review.Some?)
  {
    var e := events[j];
    if e.op == ImpactReviewed || e.op == ImpactDiscarded then e.review.value
    else Review(ReviewProposed, e.writer, CommentOf(e), e.at, e.flow, e.execution, false, "")
  }

  // The positions of the events that added to the history, in order.
  ghost function Added(events: seq<ImpactEvent>, id: string, d: nat, n: nat): (at: seq<nat>)
    requires FoldableLog(events) && n <= |events|
    ensures forall k :: 0 <= k < |at| ==> d < at[k] < n && AddsAt(events, id, at[k])
    ensures forall j, k :: 0 <= j < k < |at| ==> at[j] < at[k]
    ensures forall j: nat :: d < j < n && AddsAt(events, id, j) ==> j in at
  {
    if n <= d + 1 then []
    else if AddsAt(events, id, n - 1) then Added(events, id, d, n - 1) + [n - 1]
    else Added(events, id, d, n - 1)
  }

  // An entry as the adoptions since leave it: of main once its flow was adopted, set aside when its run was replaced.
  function ReviewNow(events: seq<ImpactEvent>, from: nat, n: nat, r: Review): Review {
    r.(flow := FlowSince(events, from, n, r.flow), superseded := r.superseded || ReplacedIn(events, from, n, r.flow, r.execution))
  }

  // The history of reviews that were there and of entries added since, by their positions.
  ghost predicate Reads(events: seq<ImpactEvent>, first: seq<Review>, d: nat, at: seq<nat>, n: nat, reviews: seq<Review>)
    requires FoldableLog(events) && forall k :: 0 <= k < |at| ==> at[k] < |events|
  {
    |reviews| == |first| + |at| &&
    (forall k :: 0 <= k < |first| ==> reviews[k] == ReviewNow(events, d, n, first[k])) &&
    forall k :: 0 <= k < |at| ==> reviews[|first| + k] == ReviewNow(events, at[k], n, EntryAt(events, at[k]))
  }

  ghost predicate HistorySays(events: seq<ImpactEvent>, id: string, d: nat, n: nat, reviews: seq<Review>)
    requires FoldableLog(events) && d < n <= |events| && Declares(events[d], id)
  {
    Reads(events, events[d].state.value.reviews, d, Added(events, id, d, n), n, reviews)
  }

  lemma ReviewStep(events: seq<ImpactEvent>, from: nat, n: nat, r: Review)
    requires FoldableLog(events) && from < n < |events|
    ensures ReviewNow(events, from, n + 1, r) ==
            if events[n].op == ImpactAdopted then AdoptReview(ReviewNow(events, from, n, r), events[n].flow, events[n].stale)
            else ReviewNow(events, from, n, r)
  {
    AdoptedSnoc(events, from, n, r.flow);
    ReplacedSnoc(events, from, n, r.flow, r.execution);
  }

  lemma ReviewNew(events: seq<ImpactEvent>, n: nat, r: Review)
    ensures ReviewNow(events, n, n + 1, r) == r
  {
  }

  // The reviews after an event, from those before: moved by an adoption, one more when the event adds one.
  ghost predicate HistoryMoves(events: seq<ImpactEvent>, id: string, n: nat, was: seq<Review>, now: seq<Review>)
    requires FoldableLog(events) && n < |events|
  {
    if events[n].op == ImpactAdopted then now == AdoptReviews(was, events[n].flow, events[n].stale) && !AddsAt(events, id, n)
    else if AddsAt(events, id, n) then now == was + [EntryAt(events, n)] else now == was
  }

  lemma ReadsLater(events: seq<ImpactEvent>, first: seq<Review>, d: nat, at: seq<nat>, n: nat, was: seq<Review>, now: seq<Review>)
    requires FoldableLog(events) && d < n < |events| && forall k :: 0 <= k < |at| ==> at[k] < n
    requires Reads(events, first, d, at, n, was)
    requires now == if events[n].op == ImpactAdopted then AdoptReviews(was, events[n].flow, events[n].stale) else was
    ensures Reads(events, first, d, at, n + 1, now)
  {
    forall k | 0 <= k < |first| ensures now[k] == ReviewNow(events, d, n + 1, first[k]) { ReviewStep(events, d, n, first[k]); }
    forall k | 0 <= k < |at| ensures now[|first| + k] == ReviewNow(events, at[k], n + 1, EntryAt(events, at[k])) {
      ReviewStep(events, at[k], n, EntryAt(events, at[k]));
    }
  }

  lemma ReadsMore(events: seq<ImpactEvent>, first: seq<Review>, d: nat, at: seq<nat>, n: nat, reviews: seq<Review>)
    requires FoldableLog(events) && n < |events| && (forall k :: 0 <= k < |at| ==> at[k] < n) && Reads(events, first, d, at, n + 1, reviews)
    ensures Reads(events, first, d, at + [n], n + 1, reviews + [EntryAt(events, n)])
  {
    ReviewNew(events, n, EntryAt(events, n));
  }

  lemma HistoryStep(events: seq<ImpactEvent>, id: string, d: nat, n: nat, was: seq<Review>, now: seq<Review>)
    requires FoldableLog(events) && d < n < |events| && Declares(events[d], id)
    requires HistorySays(events, id, d, n, was) && HistoryMoves(events, id, n, was, now)
    ensures HistorySays(events, id, d, n + 1, now)
  {
    var first, at := events[d].state.value.reviews, Added(events, id, d, n);
    var moved := if events[n].op == ImpactAdopted then AdoptReviews(was, events[n].flow, events[n].stale) else was;
    ReadsLater(events, first, d, at, n, was, moved);
    if AddsAt(events, id, n) { ReadsMore(events, first, d, at, n, moved); }
  }

  lemma EditMoves(events: seq<ImpactEvent>, id: string, n: nat, cn: ChangeImpact, post: Option<NodeRef>)
    requires FoldableLog(events) && n < |events| && Find(Fold(events[..n]), id) == Some(cn) && events[n].impact == id
    ensures events[n].op == ImpactUpdated ==> HistoryMoves(events, id, n, cn.reviews, Edited(cn, events[n]).reviews)
    ensures events[n].op == ImpactCancelled ==> HistoryMoves(events, id, n, cn.reviews, CancelReopens(cn.(post := post), events[n]).reviews)
  {
  }

  lemma EventMoves(events: seq<ImpactEvent>, id: string, n: nat, cn: ChangeImpact)
    requires FoldableLog(events) && n < |events| && Find(Fold(events[..n]), id) == Some(cn) && !Declares(events[n], id)
    requires Next(Some(cn), id, events[n]).Some?
    ensures HistoryMoves(events, id, n, cn.reviews, Next(Some(cn), id, events[n]).value.reviews)
  {
    if events[n].impact == id && events[n].op == ImpactUpdated {
      EditMoves(events, id, n, cn, cn.post);
    } else if events[n].impact == id && events[n].op == ImpactCancelled {
      EditMoves(events, id, n, cn, cn.post);
      EditMoves(events, id, n, cn, events[n].post);
    } else {
      PlainMoves(events, id, n, cn);
    }
  }

  lemma PlainMoves(events: seq<ImpactEvent>, id: string, n: nat, cn: ChangeImpact)
    requires FoldableLog(events) && n < |events| && !Declares(events[n], id) && Next(Some(cn), id, events[n]).Some?
    requires events[n].impact != id || (events[n].op != ImpactUpdated && events[n].op != ImpactCancelled)
    ensures HistoryMoves(events, id, n, cn.reviews, Next(Some(cn), id, events[n]).value.reviews)
  {
  }

  /**
   * Over any log, the history of an impact: the reviews it was declared with, then one entry for each review, discard and
   * edit that reopened it since, in order, each as the adoptions since leave it.
   */
  lemma {:induction false} HistoryIsItsEvents(events: seq<ImpactEvent>, id: string, n: nat) returns (d: nat)
    requires FoldableLog(events) && n <= |events| && Find(Fold(events[..n]), id).Some?
    ensures DeclaredAt(events, id, n, d) && HistorySays(events, id, d, n, Find(Fold(events[..n]), id).value.reviews)
    decreases n
  {
    assert events[..0] == [];
    var last: nat := n - 1;
    FoldOneMore(events, last, id);
    if Declares(events[last], id) {
      d := last;
      FirstHistory(events, id, last);
    } else {
      d := HistoryIsItsEvents(events, id, last);
      DeclaredStill(events, id, d, last);
      var cn := Find(Fold(events[..last]), id).value;
      EventMoves(events, id, last, cn);
      HistoryStep(events, id, d, last, cn.reviews, Next(Some(cn), id, events[last]).value.reviews);
    }
  }

  lemma FirstHistory(events: seq<ImpactEvent>, id: string, n: nat)
    requires FoldableLog(events) && n < |events| && Declares(events[n], id)
    ensures HistorySays(events, id, n, n + 1, Declared(events[n]).reviews)
  {
    var was := events[n].state.value.reviews;
    forall k | 0 <= k < |was| ensures was[k] == ReviewNow(events, n, n + 1, was[k]) { ReviewNew(events, n, was[k]); }
  }

  // ---- the review a flow sees

  predicate OnFlow(r: Review, flow: string) { r.flow == flow && !r.superseded }

  predicate LastReview(reviews: seq<Review>, flow: string, j: nat) {
    j < |reviews| && OnFlow(reviews[j], flow) && forall k :: j < k < |reviews| ==> !OnFlow(reviews[k], flow)
  }

  lemma {:induction false} LastOnIs(reviews: seq<Review>, flow: string)
    ensures LastOn(reviews, flow).None? <==> forall k :: 0 <= k < |reviews| ==> !OnFlow(reviews[k], flow)
    ensures forall j: nat :: LastReview(reviews, flow, j) ==> LastOn(reviews, flow) == Some(reviews[j].status)
  {
    if reviews != [] {
      var n := |reviews| - 1;
      LastOnIs(reviews[..n], flow);
      if !OnFlow(reviews[n], flow) {
        forall j: nat | LastReview(reviews, flow, j) ensures LastOn(reviews, flow) == Some(reviews[j].status) {
          assert LastReview(reviews[..n], flow, j);
        }
      }
    }
  }

  /** A flow sees the last review made on it that no adoption set aside, and the stored review when there is none, as main does. */
  lemma FlowSeesLast(cn: ChangeImpact, flow: string)
    ensures (flow == "" || forall k :: 0 <= k < |cn.reviews| ==> !OnFlow(cn.reviews[k], flow)) ==> SeenOn(cn, flow) == cn.review
    ensures forall j: nat :: flow != "" && LastReview(cn.reviews, flow, j) ==> SeenOn(cn, flow) == cn.reviews[j].status
  {
    LastOnIs(cn.reviews, flow);
  }
}
