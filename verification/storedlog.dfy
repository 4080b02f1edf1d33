// A whole log as it is stored (contracts/domain/impactpayload.go, changelog.go): commits and batches in one entry each,
// and why folding what is read back is folding what was written.
module StoredLog {
  import opened Prelude
  import opened Domain
  import opened ImpactFold
  import opened Drafts
  import opened DraftFold
  import opened Hoist
  import opened Codec

  // ---- commits

  predicate OfOneCommit(a: ImpactEvent, b: ImpactEvent) {
    SameEntry(a, b) && b.op == ImpactCommitted && b.commit == a.commit && b.branch == a.branch && b.committed.Some?
  }

  predicate OneCommit(events: seq<ImpactEvent>) {
    events != [] && forall i :: 0 <= i < |events| ==> OfOneCommit(events[0], events[i])
  }

  function NodeOf(e: ImpactEvent): CommittedNode
    requires e.committed.Some?
  {
    CommittedNode(e.committed.value.id, if e.recorded then "" else e.impact, if e.recorded then 0 else e.committed.value.version, e.effect)
  }

  function NodesOf(events: seq<ImpactEvent>): (nodes: seq<CommittedNode>)
    requires OneCommit(events)
    ensures |nodes| == |events|
    ensures forall i :: 0 <= i < |events| ==> nodes[i] == NodeOf(events[i])
  {
    seq(|events|, i requires 0 <= i < |events| => assert OfOneCommit(events[0], events[i]); NodeOf(events[i]))
  }

  function CommitOf(id: string, events: seq<ImpactEvent>): LogEntry
    requires OneCommit(events)
  {
    Columns(events[0], id, 0, if |events| == 1 then events[0].impact else "",
            Commit(events[0].commit, events[0].branch, NodesOf(events)))
  }

  // The entry of a commit; None: an event is not of it.
  method CommitEntry(id: string, events: seq<ImpactEvent>) returns (l: Option<LogEntry>)
    ensures l.Some? <==> OneCommit(events)
    ensures l.Some? ==> l.value == CommitOf(id, events)
  {
    if |events| == 0 { return None; }
    var first := events[0];
    var nodes: seq<CommittedNode> := [];
    for i := 0 to |events|
      invariant |nodes| == i
      invariant forall j :: 0 <= j < i ==> OfOneCommit(first, events[j]) && nodes[j] == NodeOf(events[j])
    {
      var e := events[i];
      if !SameEntry(first, e) || e.op != ImpactCommitted || e.commit != first.commit || e.branch != first.branch || e.committed.None? {
        return None;
      }
      nodes := nodes + [NodeOf(e)];
    }
    assert nodes == NodesOf(events);
    return Some(Columns(first, id, 0, if |events| == 1 then first.impact else "", Commit(first.commit, first.branch, nodes)));
  }

  // The committed event of a node an entry names.
  function CommittedEvent(l: LogEntry, i: nat): ImpactEvent
    requires l.body.Commit? && i < |l.body.nodes|
  {
    var n := l.body.nodes[i];
    var alone := |l.body.nodes| == 1;
    ImpactEvent(if alone then l.id else PartId(l.id, i), l.change, l.seqNo, if n.impact == "" && alone then l.subject else n.impact,
                ImpactCommitted, l.flow, l.execution, l.writer, "", l.at, l.causation, None, None, None, None, None,
                Some(NodeRef(n.id, n.version)), n.effect, l.body.commit, l.body.branch, !(n.version > 0 && n.impact != ""),
                None, [], None)
  }

  function CommitEvents(l: LogEntry): (out: seq<ImpactEvent>)
    requires l.body.Commit?
    ensures |out| == |l.body.nodes|
    ensures forall i :: 0 <= i < |out| ==> out[i] == CommittedEvent(l, i)
  {
    seq(|l.body.nodes|, i requires 0 <= i < |l.body.nodes| => CommittedEvent(l, i))
  }

  // ---- reading any entry

  ghost function PartEvents(l: LogEntry, dec: Fields -> Payload, n: nat): Option<seq<ImpactEvent>>
    requires l.body.Batch? && n <= |l.body.parts|
  {
    if n == 0 then Some([])
    else
      var before, e := PartEvents(l, dec, n - 1), PartEvent(l, l.body.top, l.body.parts[n - 1], n - 1, dec);
      if before.None? || e.None? then None else Some(before.value + [e.value])
  }

  ghost function EventsIn(l: LogEntry, dec: Fields -> Payload): Option<seq<ImpactEvent>> {
    match l.body
    case One(p) => Some([EventOf(l, p)])
    case Batch(_, parts) => PartEvents(l, dec, |parts|)
    case Commit(_, _, _) => Some(CommitEvents(l))
  }

  lemma {:induction false} UnreadPart(l: LogEntry, dec: Fields -> Payload, i: nat, n: nat)
    requires l.body.Batch? && i < n <= |l.body.parts| && PartEvent(l, l.body.top, l.body.parts[i], i, dec).None?
    ensures PartEvents(l, dec, n).None?
  {
    if i < n - 1 { UnreadPart(l, dec, i, n - 1); }
  }

  method EventsOfParts(l: LogEntry, dec: Fields -> Payload) returns (events: Option<seq<ImpactEvent>>)
    requires l.body.Batch?
    ensures events == PartEvents(l, dec, |l.body.parts|)
  {
    var out: seq<ImpactEvent> := [];
    for i := 0 to |l.body.parts|
      invariant PartEvents(l, dec, i) == Some(out)
    {
      var e := ReadPart(l, l.body.top, l.body.parts[i], i, dec);
      if e.None? {
        UnreadPart(l, dec, i, |l.body.parts|);
        return None;
      }
      out := out + [e.value];
    }
    events := Some(out);
  }

  method EventsOfCommit(l: LogEntry) returns (events: seq<ImpactEvent>)
    requires l.body.Commit?
    ensures events == CommitEvents(l)
  {
    events := [];
    for i := 0 to |l.body.nodes|
      invariant |events| == i && forall j :: 0 <= j < i ==> events[j] == CommittedEvent(l, j)
    {
      events := events + [CommittedEvent(l, i)];
    }
  }

  /** The events an entry carries: one, the parts of a batch, or one for each node of a commit. */
  method ImpactEventsOf(l: LogEntry, dec: Fields -> Payload) returns (events: Option<seq<ImpactEvent>>)
    ensures events == EventsIn(l, dec)
  {
    match l.body {
      case One(p) =>
        var e := ImpactEventOf(l, p);
        return Some([e]);
      case Batch(_, _) =>
        events := EventsOfParts(l, dec);
      case Commit(_, _, _) =>
        var out := EventsOfCommit(l);
        return Some(out);
    }
  }

  // ---- events the folds cannot tell apart

  ghost predicate SameInstall(a: ImpactEvent, b: ImpactEvent) {
    (a.draft.Some? <==> b.draft.Some?) && (a.draft.Some? ==> Installed(a) == Installed(b))
  }

  ghost predicate Alike(a: ImpactEvent, b: ImpactEvent) {
    a.op == b.op && a.impact == b.impact && a.flow == b.flow &&
    if a.op == ImpactCommitted then a.committed == b.committed && a.effect == b.effect
    else
      a.execution == b.execution && a.writer == b.writer && a.Author() == b.Author() && a.state == b.state && a.pre == b.pre &&
      a.review == b.review && a.stale == b.stale && a.patch == b.patch && SameInstall(a, b) &&
      (a.op != ImpactUpdated ==> a.post == b.post) && (a.op != ImpactReviewed ==> a.at == b.at)
  }

  lemma AlikeFoldable(a: ImpactEvent, b: ImpactEvent)
    requires Alike(a, b) && a.Foldable()
    ensures b.Foldable()
  {
  }

  lemma AlikeEdit(cn: ChangeImpact, a: ImpactEvent, b: ImpactEvent)
    requires Alike(a, b) && (a.op == ImpactUpdated || a.op == ImpactCancelled)
    ensures Edited(cn, a) == Edited(cn, b)
  {
  }

  lemma AlikeMoves(cn: ChangeImpact, a: ImpactEvent, b: ImpactEvent)
    requires Alike(a, b) && a.Foldable() && b.Foldable()
    ensures Moved(cn, a) == Moved(cn, b)
  {
    match a.op {
      case ImpactUpdated => AlikeEdit(cn, a, b);
      case ImpactCancelled =>
        AlikeEdit(cn, a, b);
        AlikeEdit(cn.(post := a.post), a, b);
      case _ =>
    }
  }

  lemma AlikeSteps(impacts: seq<ChangeImpact>, a: ImpactEvent, b: ImpactEvent)
    requires Alike(a, b) && a.Foldable() && b.Foldable()
    ensures Step(impacts, a) == Step(impacts, b)
  {
    var at := Position(impacts, a.impact);
    if at >= 0 { AlikeMoves(impacts[at], a, b); }
  }

  lemma AlikeDraft(d: Option<Draft>, a: ImpactEvent, b: ImpactEvent)
    requires Alike(a, b) && EditsDraft(a.op)
    ensures DraftAfter(d, a) == DraftAfter(d, b)
  {
  }

  lemma AlikeDraftSteps(drafts: seq<Draft>, impacts: seq<ChangeImpact>, a: ImpactEvent, b: ImpactEvent)
    requires Alike(a, b)
    ensures DraftStep(drafts, a, impacts) == DraftStep(drafts, b, impacts)
  {
    if EditsDraft(a.op) { AlikeDraft(Row(drafts, a.impact, a.flow), a, b); }
  }

  ghost predicate AlikeLogs(a: seq<ImpactEvent>, b: seq<ImpactEvent>) {
    |a| == |b| && forall i :: 0 <= i < |a| ==> Alike(a[i], b[i])
  }

  lemma AlikeFoldableLogs(a: seq<ImpactEvent>, b: seq<ImpactEvent>)
    requires AlikeLogs(a, b) && FoldableLog(a)
    ensures FoldableLog(b)
  {
    forall i | 0 <= i < |b| ensures b[i].Foldable() { AlikeFoldable(a[i], b[i]); }
  }

  lemma {:induction false} AlikeLogsFoldAlike(a: seq<ImpactEvent>, b: seq<ImpactEvent>)
    requires AlikeLogs(a, b) && FoldableLog(a) && FoldableLog(b)
    ensures Fold(a) == Fold(b) && DraftsOf(a) == DraftsOf(b)
  {
    if a != [] {
      var n := |a| - 1;
      AlikeLogsFoldAlike(a[..n], b[..n]);
      AlikeSteps(Fold(a[..n]), a[n], b[n]);
      AlikeDraftSteps(DraftsOf(a[..n]), Fold(a), a[n], b[n]);
    }
  }

  // ---- what is read back is alike

  // The editor of a draft is not stored: the author of the event that installs it is.
  predicate EditorIsKnown(e: ImpactEvent) { e.draft.Some? ==> e.Author() != "" || e.draft.value.editor == "" }

  lemma StoredIsAlike(e: ImpactEvent, seqNo: int)
    requires e.fromBase.None? && EditorIsKnown(e)
    ensures Alike(e, Stored(e, seqNo))
  {
  }

  /** What is written in one go: an event alone, or the events of one review or of one commit. */
  datatype Written = Alone(e: ImpactEvent) | Together(id: string, events: seq<ImpactEvent>)

  function EventsOf(w: Written): seq<ImpactEvent> { if w.Alone? then [w.e] else w.events }

  // As the graph writes it: validated, no copy of a version, nothing left to the version store.
  ghost predicate Storable(e: ImpactEvent) {
    e.Valid() && e.fromBase.None? && EditorIsKnown(e) && OwnsState(e) && !e.recorded
  }

  ghost predicate GoTogether(events: seq<ImpactEvent>)
    requires events != []
  {
    if events[0].op == ImpactCommitted then OneCommit(events)
    else SameEntries(events) && forall e :: e in events ==> e.state.None?
  }

  ghost predicate Writable(w: Written) {
    (forall e :: e in EventsOf(w) ==> Storable(e)) &&
    (w.Together? ==> w.events != [] && GoTogether(w.events))
  }

  // The entry of what is written, at a position of the log.
  ghost function EntryOf(w: Written, seqNo: int, enc: Payload -> Fields): LogEntry
    requires Writable(w)
  {
    match w
    case Alone(e) =>
      if e.op == ImpactCommitted then
        assert e in EventsOf(w) && OfOneCommit(e, e);
        CommitOf(e.id, [e]).(seqNo := seqNo)
      else Columns(e, e.id, seqNo, e.impact, One(PayloadOf(e)))
    case Together(id, events) =>
      if events[0].op == ImpactCommitted then CommitOf(id, events).(seqNo := seqNo)
      else Columns(events[0], id, seqNo, "", BatchBody(PartsOf(events, enc)))
  }

  /** The entry of several events: of one commit, or of one review in parts; None when they do not go together. */
  method ImpactBatchEntry(id: string, events: seq<ImpactEvent>, enc: Payload -> Fields) returns (l: Option<LogEntry>)
    ensures l.Some? <==> events != [] && if events[0].op == ImpactCommitted then OneCommit(events) else SameEntries(events)
    ensures Writable(Together(id, events)) ==> l == Some(EntryOf(Together(id, events), 0, enc))
  {
    if |events| == 0 { return None; }
    if events[0].op == ImpactCommitted {
      l := CommitEntry(id, events);
    } else {
      l := PartsEntry(id, events, enc);
    }
  }

  lemma CommittedIsAlike(id: string, events: seq<ImpactEvent>, seqNo: int, i: nat)
    requires OneCommit(events) && i < |events| && !events[i].recorded
    ensures Alike(events[i], CommittedEvent(CommitOf(id, events).(seqNo := seqNo), i))
  {
    assert OfOneCommit(events[0], events[i]);
  }

  lemma CommitReadsBack(id: string, events: seq<ImpactEvent>, seqNo: int, dec: Fields -> Payload)
    requires OneCommit(events) && forall e :: e in events ==> !e.recorded
    ensures var read := EventsIn(CommitOf(id, events).(seqNo := seqNo), dec); read.Some? && AlikeLogs(events, read.value)
  {
    forall i: nat | i < |events| ensures Alike(events[i], CommittedEvent(CommitOf(id, events).(seqNo := seqNo), i)) {
      CommittedIsAlike(id, events, seqNo, i);
    }
  }

  lemma BatchPartIsAlike(id: string, events: seq<ImpactEvent>, seqNo: int, i: nat)
    requires SameEntries(events) && i < |events| && events[0].op != ImpactCommitted
    requires events[i].fromBase.None? && EditorIsKnown(events[i])
    ensures Alike(events[i], Batched(events, id, seqNo, i))
  {
    assert SameEntry(events[0], events[i]);
  }

  lemma AlikeSnoc(a: seq<ImpactEvent>, b: seq<ImpactEvent>, x: ImpactEvent, y: ImpactEvent)
    requires AlikeLogs(a, b) && Alike(x, y)
    ensures AlikeLogs(a + [x], b + [y])
  {
  }

  // The first parts of a batch read back.
  ghost predicate FirstsReadBack(id: string, events: seq<ImpactEvent>, seqNo: int, enc: Payload -> Fields,
                                 dec: Fields -> Payload, n: nat)
    requires n <= |events| && events != []
  {
    var read := PartEvents(Columns(events[0], id, seqNo, "", BatchBody(PartsOf(events, enc))), dec, n);
    read.Some? && AlikeLogs(events[..n], read.value)
  }

  lemma PartReadsBackToo(id: string, events: seq<ImpactEvent>, seqNo: int, enc: Payload -> Fields, dec: Fields -> Payload, n: nat)
    requires SameEntries(events) && Faithful(enc, dec) && events[0].op != ImpactCommitted && n < |events|
    requires Storable(events[n]) && events[n].state.None?
    requires FirstsReadBack(id, events, seqNo, enc, dec, n)
    ensures FirstsReadBack(id, events, seqNo, enc, dec, n + 1)
  {
    BatchRoundTrips(events, id, seqNo, n, enc, dec);
    BatchPartIsAlike(id, events, seqNo, n);
    OnePartMore(Columns(events[0], id, seqNo, "", BatchBody(PartsOf(events, enc))), events, dec, n, Batched(events, id, seqNo, n));
  }

  lemma OnePartMore(l: LogEntry, events: seq<ImpactEvent>, dec: Fields -> Payload, n: nat, e: ImpactEvent)
    requires l.body.Batch? && n < |events| && n < |l.body.parts| && Alike(events[n], e)
    requires PartEvent(l, l.body.top, l.body.parts[n], n, dec) == Some(e)
    requires PartEvents(l, dec, n).Some? && AlikeLogs(events[..n], PartEvents(l, dec, n).value)
    ensures PartEvents(l, dec, n + 1).Some? && AlikeLogs(events[..n + 1], PartEvents(l, dec, n + 1).value)
  {
    AlikeSnoc(events[..n], PartEvents(l, dec, n).value, events[n], e);
    PrefixGrows(events, n);
  }

  lemma {:induction false} BatchReadsBack(id: string, events: seq<ImpactEvent>, seqNo: int, enc: Payload -> Fields,
                                          dec: Fields -> Payload, n: nat)
    requires SameEntries(events) && Faithful(enc, dec) && events[0].op != ImpactCommitted && n <= |events|
    requires forall e :: e in events ==> Storable(e) && e.state.None?
    ensures FirstsReadBack(id, events, seqNo, enc, dec, n)
    decreases n
  {
    if n > 0 {
      BatchReadsBack(id, events, seqNo, enc, dec, n - 1);
      assert events[n - 1] in events;
      PartReadsBackToo(id, events, seqNo, enc, dec, n - 1);
    }
  }

  /** Whatever is written reads back, as events the folds cannot tell from the ones written. */
  lemma WrittenReadsBack(w: Written, seqNo: int, enc: Payload -> Fields, dec: Fields -> Payload)
    requires Writable(w) && Faithful(enc, dec)
    ensures EventsIn(EntryOf(w, seqNo, enc), dec).Some?
    ensures AlikeLogs(EventsOf(w), EventsIn(EntryOf(w, seqNo, enc), dec).value)
  {
    match w {
      case Alone(e) =>
        assert e in EventsOf(w);
        if e.op == ImpactCommitted {
          CommitReadsBack(e.id, [e], seqNo, dec);
        } else {
          EventRoundTrips(e, seqNo);
          StoredIsAlike(e, seqNo);
        }
      case Together(id, events) =>
        TogetherReadsBack(id, events, seqNo, enc, dec);
    }
  }

  lemma TogetherReadsBack(id: string, events: seq<ImpactEvent>, seqNo: int, enc: Payload -> Fields, dec: Fields -> Payload)
    requires Writable(Together(id, events)) && Faithful(enc, dec)
    ensures var read := EventsIn(EntryOf(Together(id, events), seqNo, enc), dec); read.Some? && AlikeLogs(events, read.value)
  {
    AllStorable(id, events);
    if events[0].op == ImpactCommitted {
      CommitReadsBack(id, events, seqNo, dec);
    } else {
      PartsReadBack(id, events, seqNo, enc, dec);
    }
  }

  lemma AllStorable(id: string, events: seq<ImpactEvent>)
    requires Writable(Together(id, events))
    ensures forall e :: e in events ==> Storable(e)
  {
    assert EventsOf(Together(id, events)) == events;
  }

  lemma {:induction false} PartsReadBack(id: string, events: seq<ImpactEvent>, seqNo: int, enc: Payload -> Fields,
                                         dec: Fields -> Payload)
    requires SameEntries(events) && Faithful(enc, dec) && events[0].op != ImpactCommitted
    requires forall e :: e in events ==> Storable(e) && e.state.None?
    ensures var read := PartEvents(Columns(events[0], id, seqNo, "", BatchBody(PartsOf(events, enc))), dec, |events|);
            read.Some? && AlikeLogs(events, read.value)
  {
    BatchReadsBack(id, events, seqNo, enc, dec, |events|);
    WholePrefix(events);
  }

  // The events of a whole log, as written and as read back.
  ghost function Log(ws: seq<Written>): seq<ImpactEvent> {
    if ws == [] then [] else Log(ws[..|ws| - 1]) + EventsOf(ws[|ws| - 1])
  }

  ghost function ReadLog(ws: seq<Written>, enc: Payload -> Fields, dec: Fields -> Payload): Option<seq<ImpactEvent>>
    requires forall w :: w in ws ==> Writable(w)
  {
    if ws == [] then Some([])
    else
      var n := |ws| - 1;
      var before, last := ReadLog(ws[..n], enc, dec), EventsIn(EntryOf(ws[n], n, enc), dec);
      if before.None? || last.None? then None else Some(before.value + last.value)
  }

  lemma {:induction false} LogReadsBack(ws: seq<Written>, enc: Payload -> Fields, dec: Fields -> Payload)
    requires (forall w :: w in ws ==> Writable(w)) && Faithful(enc, dec)
    ensures FoldableLog(Log(ws))
    ensures ReadLog(ws, enc, dec).Some? && AlikeLogs(Log(ws), ReadLog(ws, enc, dec).value)
  {
    if ws != [] {
      var n := |ws| - 1;
      LogReadsBack(ws[..n], enc, dec);
      WrittenReadsBack(ws[n], n, enc, dec);
      WrittenIsFoldable(ws[n]);
      AlikeAppended(Log(ws[..n]), ReadLog(ws[..n], enc, dec).value, EventsOf(ws[n]), EventsIn(EntryOf(ws[n], n, enc), dec).value);
    }
  }

  lemma WrittenIsFoldable(w: Written)
    requires Writable(w)
    ensures FoldableLog(EventsOf(w))
  {
    forall i | 0 <= i < |EventsOf(w)| ensures EventsOf(w)[i].Foldable() {
      assert EventsOf(w)[i] in EventsOf(w);
    }
  }

  lemma AlikeAppended(a: seq<ImpactEvent>, b: seq<ImpactEvent>, c: seq<ImpactEvent>, d: seq<ImpactEvent>)
    requires AlikeLogs(a, b) && AlikeLogs(c, d)
    ensures AlikeLogs(a + c, b + d)
    ensures FoldableLog(a) && FoldableLog(c) ==> FoldableLog(a + c)
  {
  }

  /** Folding the stored log is folding the events: the same impacts, and the same drafts. */
  lemma FoldingTheStoredLog(ws: seq<Written>, enc: Payload -> Fields, dec: Fields -> Payload)
    requires (forall w :: w in ws ==> Writable(w)) && Faithful(enc, dec)
    ensures ReadLog(ws, enc, dec).Some?
    ensures FoldableLog(Log(ws)) && FoldableLog(ReadLog(ws, enc, dec).value)
    ensures Fold(ReadLog(ws, enc, dec).value) == Fold(Log(ws))
    ensures DraftsOf(ReadLog(ws, enc, dec).value) == DraftsOf(Log(ws))
  {
    LogReadsBack(ws, enc, dec);
    AlikeFoldableLogs(Log(ws), ReadLog(ws, enc, dec).value);
    AlikeLogsFoldAlike(Log(ws), ReadLog(ws, enc, dec).value);
  }
}
