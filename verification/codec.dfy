// Impact events as the log stores them (contracts/domain/impactpayload.go, changelog.go): what an entry implies is left
// out of its payload, what several entries share is written once, and a reader puts it all back.
module Codec {
  import opened Prelude
  import opened Domain
  import opened Hoist

  /** A key of a payload: left out, null, or written. */
  datatype Field<T> = Absent | NullField | Here(value: T)

  /** The impact an event declares: as it is, but for its id and what the entry says when it says the same. */
  datatype StateOut =
    | WholeState(cn: ChangeImpact)
    | OwnState(rest: ChangeImpact, key: Option<string>, typ: Option<string>, createdAt: Option<int>,
               producedBy: Option<string>, review: Option<NodeReview>, intent: Option<NodeIntent>)

  /** A draft as its event writes it, whole or by the version it copies; whose it is the event says already. */
  datatype DraftOut = WholeDraft(d: Draft) | OfBase(base: Option<NodeRef>, mergedWith: Option<NodeRef>, execution: string)

  datatype Payload = Payload(
    impactId: Option<string>, op: ImpactOp, onBehalf: string, state: Option<StateOut>, post: Field<NodeRef>,
    draft: Option<DraftOut>, fromBase: Option<seq<NodeRef>>, pre: Option<NodeRef>, committed: Option<NodeRef>,
    effect: Option<string>, commit: string, branch: string, review: Option<Review>, stale: seq<string>, patch: Option<Patch>)

  /** A node of a commit, with the version it became and the impact behind it when they are written there. */
  datatype CommittedNode = CommittedNode(id: string, impact: string, version: int, effect: Option<string>)

  datatype Body =
    | One(payload: Payload)
    | Batch(top: Fields, parts: seq<Json>)
    | Commit(commit: string, branch: string, nodes: seq<CommittedNode>)

  /** The columns of a log entry, and its payload. */
  datatype LogEntry = LogEntry(seqNo: int, id: string, change: string, op: ImpactOp, flow: string, execution: string,
                               subject: string, writer: string, at: int, causation: string, body: Body)

  // ---- writing one event

  // The node that a new draft names by itself, or by the version it copies; the post of the event then goes without saying.
  function DraftNode(e: ImpactEvent): string {
    if e.draft.None? || (e.op != ImpactCreated && e.op != ImpactCheckedOut) then ""
    else if e.fromBase.None? then e.draft.value.node
    else if e.draft.value.base.None? then "" else e.draft.value.base.value.id
  }

  function PostOut(e: ImpactEvent): Field<NodeRef> {
    var n := DraftNode(e);
    if e.op == ImpactUpdated && e.post.Some? && e.post.value.IsDraft() then Absent
    else if e.post.None? then if n != "" then NullField else Absent
    else if n == "" || e.post.value != DraftRef(n) then Here(e.post.value) else Absent
  }

  function Unless<T(==)>(implied: T, v: T): Option<T> { if v == implied then None else Some(v) }

  // What is left of an impact once its named fields are taken out.
  function BlankState(cn: ChangeImpact): ChangeImpact {
    cn.(id := "", key := "", typ := "", createdAt := 0, producedBy := "", review := ReviewProposed, intent := IntentCreated)
  }

  function StateOf(e: ImpactEvent, cn: ChangeImpact): StateOut {
    if cn.id != e.impact then WholeState(cn)
    else
      var own := e.op == ImpactCreated && e.draft.Some? && e.fromBase.None?;
      OwnState(BlankState(cn),
               if own && cn.key == e.draft.value.key then None else Some(cn.key),
               if own && cn.typ == e.draft.value.typ then None else Some(cn.typ),
               Unless(e.at, cn.createdAt), Unless(e.writer, cn.producedBy), Unless(ReviewProposed, cn.review),
               if e.op == ImpactCreated && cn.intent == IntentCreated then None else Some(cn.intent))
  }

  function BlankDraft(d: Draft): Draft { d.(change := "", impact := "", flow := "", editor := "") }

  function DraftOf(e: ImpactEvent, d: Draft): DraftOut {
    if e.fromBase.Some? then OfBase(d.base, d.mergedWith, d.execution) else WholeDraft(BlankDraft(d))
  }

  method MarshalImpact(e: ImpactEvent) returns (p: Payload)
    ensures p == PayloadOf(e)
  {
    p := Payload(None, e.op, e.onBehalf, None, Absent, None, e.fromBase, e.pre, e.committed, e.effect, e.commit, e.branch,
                 e.review, e.stale, e.patch);
    var n := DraftNode(e);
    if e.op == ImpactUpdated && e.post.Some? && e.post.value.IsDraft() {
    } else if e.post.None? && n != "" {
      p := p.(post := NullField);
    } else if e.post.Some? && (n == "" || e.post.value != DraftRef(n)) {
      p := p.(post := Here(e.post.value));
    }
    if e.state.Some? {
      p := p.(state := Some(StateOf(e, e.state.value)));
    }
    if e.draft.Some? {
      p := p.(draft := Some(DraftOf(e, e.draft.value)));
    }
  }

  function PayloadOf(e: ImpactEvent): Payload {
    Payload(None, e.op, e.onBehalf, if e.state.Some? then Some(StateOf(e, e.state.value)) else None, PostOut(e),
            if e.draft.Some? then Some(DraftOf(e, e.draft.value)) else None, e.fromBase, e.pre, e.committed, e.effect,
            e.commit, e.branch, e.review, e.stale, e.patch)
  }

  // ---- reading one event

  const NoDraft := Draft("", "", "", "", "", "", "", NoUrl, map[], [], None, None, "", [], false, "", "")

  function OrElse<T>(o: Option<T>, implied: T): T { if o.Some? then o.value else implied }

  // The draft of a payload, before the envelope is put back.
  function DraftIn(out: Option<DraftOut>): Option<Draft> {
    if out.None? then None
    else match out.value
      case WholeDraft(d) => Some(d)
      case OfBase(base, mergedWith, execution) => Some(NoDraft.(base := base, mergedWith := mergedWith, execution := execution))
  }

  function StateIn(out: StateOut, d: Option<Draft>, at: int, writer: string): ChangeImpact {
    match out
    case WholeState(cn) => if cn.producedBy == "" then cn.(producedBy := writer) else cn
    case OwnState(rest, key, typ, createdAt, producedBy, review, intent) =>
      rest.(key := OrElse(key, if d.Some? then d.value.key else ""),
            typ := OrElse(typ, if d.Some? then d.value.typ else ""),
            createdAt := OrElse(createdAt, at), producedBy := OrElse(producedBy, writer),
            review := OrElse(review, ReviewProposed), intent := OrElse(intent, IntentCreated))
  }

  function Named(d: Draft, l: LogEntry, impact: string, fromBase: bool): Draft {
    var named := d.(change := l.change, impact := impact, flow := l.flow);
    if fromBase && d.base.Some? then named.(node := d.base.value.id) else named
  }

  // The event as its payload alone gives it.
  function BodyOf(l: LogEntry, p: Payload): ImpactEvent {
    ImpactEvent(l.id, l.change, l.seqNo, OrElse(p.impactId, ""), p.op, "", "", "", p.onBehalf, 0, "",
                if p.state.Some? then Some(StateIn(p.state.value, DraftIn(p.draft), l.at, l.writer)) else None,
                PostIn(p), DraftIn(p.draft), p.fromBase, p.pre, p.committed, p.effect, p.commit, p.branch, false, p.review,
                p.stale, p.patch)
  }

  // The event under the columns of its entry.
  function Enveloped(e: ImpactEvent, l: LogEntry): ImpactEvent {
    var impact := if e.impact == "" then l.subject else e.impact;
    e.(impact := impact, flow := l.flow, execution := l.execution, writer := l.writer, at := l.at, causation := l.causation,
       state := if e.state.Some? then Some(WithId(e.state.value, impact)) else None,
       draft := if e.draft.Some? then Some(Named(e.draft.value, l, impact, e.fromBase.Some?)) else None)
  }

  method ReadBody(l: LogEntry, p: Payload) returns (e: ImpactEvent)
    ensures e == BodyOf(l, p)
  {
    e := ImpactEvent(l.id, l.change, l.seqNo, OrElse(p.impactId, ""), p.op, "", "", "", p.onBehalf, 0, "", None, None,
                     DraftIn(p.draft), p.fromBase, p.pre, p.committed, p.effect, p.commit, p.branch, false, p.review, p.stale, p.patch);
    if p.state.Some? {
      e := e.(state := Some(StateIn(p.state.value, e.draft, l.at, l.writer)));
    }
    if p.post.Absent? {
      var n := DraftNode(e);
      if n != "" { e := e.(post := Some(DraftRef(n))); }
    } else if p.post.Here? {
      e := e.(post := Some(p.post.value));
    }
  }

  method PutEnvelope(body: ImpactEvent, l: LogEntry) returns (e: ImpactEvent)
    ensures e == Enveloped(body, l)
  {
    e := body;
    if e.impact == "" { e := e.(impact := l.subject); }
    e := e.(flow := l.flow, execution := l.execution, writer := l.writer, at := l.at, causation := l.causation);
    if e.state.Some? && e.state.value.id == "" {
      e := e.(state := Some(e.state.value.(id := e.impact)));
    }
    if e.draft.Some? {
      e := e.(draft := Some(Named(e.draft.value, l, e.impact, e.fromBase.Some?)));
    }
  }

  method ImpactEventOf(l: LogEntry, p: Payload) returns (e: ImpactEvent)
    ensures e == EventOf(l, p)
  {
    e := ReadBody(l, p);
    e := PutEnvelope(e, l);
  }

  function ImpactIn(l: LogEntry, p: Payload): string {
    if OrElse(p.impactId, "") == "" then l.subject else OrElse(p.impactId, "")
  }

  // The node of the draft a payload installs (DraftNode, before the envelope is put back).
  function NodeIn(p: Payload): string {
    if p.draft.None? || (p.op != ImpactCreated && p.op != ImpactCheckedOut) then ""
    else if p.fromBase.None? then DraftIn(p.draft).value.node
    else if DraftIn(p.draft).value.base.None? then "" else DraftIn(p.draft).value.base.value.id
  }

  function PostIn(p: Payload): Option<NodeRef> {
    match p.post
    case Absent => if NodeIn(p) != "" then Some(DraftRef(NodeIn(p))) else None
    case NullField => None
    case Here(r) => Some(r)
  }

  function WithId(cn: ChangeImpact, impact: string): ChangeImpact { if cn.id == "" then cn.(id := impact) else cn }

  function EventOf(l: LogEntry, p: Payload): ImpactEvent {
    ImpactEvent(l.id, l.change, l.seqNo, ImpactIn(l, p), p.op, l.flow, l.execution, l.writer, p.onBehalf, l.at, l.causation,
                if p.state.Some? then Some(WithId(StateIn(p.state.value, DraftIn(p.draft), l.at, l.writer), ImpactIn(l, p))) else None,
                PostIn(p),
                if p.draft.Some? then Some(Named(DraftIn(p.draft).value, l, ImpactIn(l, p), p.fromBase.Some?)) else None,
                p.fromBase, p.pre, p.committed, p.effect, p.commit, p.branch, false, p.review, p.stale, p.patch)
  }

  // ---- one event, written and read back

  function Columns(e: ImpactEvent, id: string, seqNo: int, subject: string, body: Body): LogEntry {
    LogEntry(seqNo, id, e.change, e.op, e.flow, e.execution, subject, e.writer, e.at, e.causation, body)
  }

  // The draft as the log gives it back: of its event, its editor left to the fold; a copy is left to its version.
  function StoredDraft(e: ImpactEvent, d: Draft): Draft {
    if e.fromBase.None? then d.(change := e.change, impact := e.impact, flow := e.flow, editor := "")
    else NoDraft.(change := e.change, impact := e.impact, flow := e.flow, base := d.base, mergedWith := d.mergedWith,
                  execution := d.execution, node := if d.base.Some? then d.base.value.id else "")
  }

  // An event as the log gives it back: all of it, but the post of an edit, which is the draft it edits.
  function Stored(e: ImpactEvent, seqNo: int): ImpactEvent {
    e.(seqNo := seqNo, recorded := false,
       post := if e.op == ImpactUpdated && e.post.Some? && e.post.value.IsDraft() then None else e.post,
       draft := if e.draft.Some? then Some(StoredDraft(e, e.draft.value)) else None)
  }

  // An event that carries an impact carries its own.
  predicate OwnsState(e: ImpactEvent) { e.state.Some? ==> e.state.value.id == e.impact }

  lemma StateRoundTrips(e: ImpactEvent)
    requires e.state.Some? && OwnsState(e)
    ensures WithId(StateIn(StateOf(e, e.state.value), DraftIn(PayloadOf(e).draft), e.at, e.writer), e.impact) == e.state.value
  {
  }

  lemma PostRoundTrips(e: ImpactEvent)
    ensures NodeIn(PayloadOf(e)) == DraftNode(e)
    ensures PostIn(PayloadOf(e)) == if e.op == ImpactUpdated && e.post.Some? && e.post.value.IsDraft() then None else e.post
  {
  }

  /** An event reads back from its entry as it was written, though its payload leaves out what the entry and its draft say. */
  lemma EventRoundTrips(e: ImpactEvent, seqNo: int)
    requires OwnsState(e)
    ensures EventOf(Columns(e, e.id, seqNo, e.impact, One(PayloadOf(e))), PayloadOf(e)) == Stored(e, seqNo)
  {
    if e.state.Some? { StateRoundTrips(e); }
    PostRoundTrips(e);
  }

  // ---- several events of one operation in one entry

  // The JSON text of a payload stays abstract: it reads back, and a payload says its impact only once it is told to.
  ghost predicate Faithful(enc: Payload -> Fields, dec: Fields -> Payload) {
    forall p: Payload, id: string {:trigger enc(p)[ImpactKey := Leaf(id)]} ::
      p.impactId.None? ==> ImpactKey !in enc(p) && dec(enc(p)[ImpactKey := Leaf(id)]) == p.(impactId := Some(id))
  }

  predicate SameEntry(a: ImpactEvent, b: ImpactEvent) {
    a.op.Batched() && a.change == b.change && a.op == b.op && a.flow == b.flow && a.execution == b.execution &&
    a.writer == b.writer && a.onBehalf == b.onBehalf && a.causation == b.causation
  }

  function PartId(entry: string, n: nat): string { entry + "#" + Itoa(n) }

  function FieldsOf(e: ImpactEvent, enc: Payload -> Fields): Fields { enc(PayloadOf(e))[ImpactKey := Leaf(e.impact)] }

  function PartsOf(events: seq<ImpactEvent>, enc: Payload -> Fields): (parts: seq<Fields>)
    ensures |parts| == |events|
    ensures forall i :: 0 <= i < |events| ==> parts[i] == FieldsOf(events[i], enc)
  {
    seq(|events|, i requires 0 <= i < |events| => FieldsOf(events[i], enc))
  }

  // A part holding nothing but its impact is written as the id of the impact.
  function PartOut(part: Fields): Json {
    if ImpactKey in part && |part| == 1 then part[ImpactKey] else Object(part)
  }

  function PartIn(j: Json): Option<Fields> {
    match j
    case Leaf(id) => Some(map[ImpactKey := Leaf(id)])
    case Object(fields) => Some(fields)
    case Null => None
  }

  ghost function BatchBody(parts: seq<Fields>): Body
    requires parts != []
  {
    Batch(Top(parts), seq(|parts|, i requires 0 <= i < |parts| => PartOut(Rest(parts, i))))
  }

  predicate SameEntries(events: seq<ImpactEvent>) {
    events != [] && forall i :: 0 <= i < |events| ==> SameEntry(events[0], events[i])
  }

  // The payloads of the events, each telling its impact; none when two events do not go together.
  method GatherParts(events: seq<ImpactEvent>, enc: Payload -> Fields) returns (ok: bool, parts: array<Fields>)
    requires events != []
    ensures fresh(parts)
    ensures ok == SameEntries(events)
    ensures ok ==> parts[..] == PartsOf(events, enc)
  {
    parts := new Fields[|events|](_ => map[]);
    for i := 0 to |events|
      invariant forall j :: 0 <= j < i ==> SameEntry(events[0], events[j]) && parts[j] == FieldsOf(events[j], enc)
    {
      if !SameEntry(events[0], events[i]) { return false, parts; }
      var p := MarshalImpact(events[i]);
      parts[i] := enc(p)[ImpactKey := Leaf(events[i].impact)];
    }
    return true, parts;
  }

  ghost function PartsOut(parts: seq<Fields>): (out: seq<Json>)
    ensures |out| == |parts|
    ensures forall i :: 0 <= i < |parts| ==> out[i] == PartOut(parts[i])
  {
    seq(|parts|, i requires 0 <= i < |parts| => PartOut(parts[i]))
  }

  method WriteParts(parts: array<Fields>) returns (out: seq<Json>)
    ensures out == PartsOut(parts[..])
  {
    out := [];
    for i := 0 to parts.Length
      invariant |out| == i && forall j :: 0 <= j < i ==> out[j] == PartOut(parts[j])
    {
      out := out + [PartOut(parts[i])];
    }
  }

  // The entry of events carried in parts; None: the events do not go together.
  method PartsEntry(id: string, events: seq<ImpactEvent>, enc: Payload -> Fields) returns (l: Option<LogEntry>)
    ensures l.Some? <==> SameEntries(events)
    ensures l.Some? ==> l.value == Columns(events[0], id, 0, "", BatchBody(PartsOf(events, enc)))
  {
    if |events| == 0 { return None; }
    var ok, parts := GatherParts(events, enc);
    if !ok { return None; }
    var top := HoistParts(parts);
    var out := WriteParts(parts);
    assert out == BatchBody(PartsOf(events, enc)).parts;
    return Some(Columns(events[0], id, 0, "", Batch(top, out)));
  }

  function PartEntry(l: LogEntry, i: nat, impact: Option<Json>): LogEntry {
    l.(id := PartId(l.id, i),
       subject := if l.subject == "" && impact.Some? && impact.value.Leaf? then impact.value.text else l.subject)
  }

  // The event of a part of an entry; None: the part does not read.
  ghost function PartEvent(l: LogEntry, top: Fields, part: Json, i: nat, dec: Fields -> Payload): Option<ImpactEvent> {
    if PartIn(part).None? || PutBack(top, PartIn(part).value).None? then None
    else
      var full := PutBack(top, PartIn(part).value).value;
      Some(EventOf(PartEntry(l, i, Lookup(full, ImpactKey)), dec(full)))
  }

  method ReadPart(l: LogEntry, top: Fields, part: Json, i: nat, dec: Fields -> Payload) returns (e: Option<ImpactEvent>)
    ensures e == PartEvent(l, top, part, i, dec)
  {
    var p := PartIn(part);
    if p.None? { return None; }
    var full := Unhoist(top, p.value);
    if full.None? { return None; }
    var event := ImpactEventOf(PartEntry(l, i, Lookup(full.value, ImpactKey)), dec(full.value));
    return Some(event);
  }

  lemma PartReadsBack(part: Fields)
    requires ImpactKey in part ==> part[ImpactKey].Leaf?
    ensures PartIn(PartOut(part)) == Some(part)
  {
    if ImpactKey in part && |part| == 1 {
      var k := ImpactKey;
      assert part.Keys == {k} by {
        forall x | x in part.Keys ensures x == k {
          if x != k { assert {x, k} <= part.Keys; assert |{x, k}| == 2; SubsetSize({x, k}, part.Keys); }
        }
      }
      assert part == map[k := part[k]];
    }
  }

  // The event of a batch as the log gives it back: under the id of its part, at the time of the first one.
  function Batched(events: seq<ImpactEvent>, id: string, seqNo: int, i: nat): ImpactEvent
    requires i < |events|
  {
    Stored(events[i], seqNo).(id := PartId(id, i), at := events[0].at)
  }

  // What a part of a batch gives back: the fields it was made from.
  lemma PartGivesFields(events: seq<ImpactEvent>, i: nat, enc: Payload -> Fields)
    requires i < |events| && events[i].state.None?
    ensures var body := BatchBody(PartsOf(events, enc));
            PartIn(body.parts[i]).Some? &&
            PutBack(body.top, PartIn(body.parts[i]).value) == Some(FieldsOf(events[i], enc))
  {
    var parts := PartsOf(events, enc);
    RestLookup(parts, i, ImpactKey);
    PartReadsBack(Rest(parts, i));
    HoistThenUnhoist(parts, i);
  }

  lemma FieldsGiveEvent(events: seq<ImpactEvent>, id: string, seqNo: int, i: nat, enc: Payload -> Fields, dec: Fields -> Payload)
    requires SameEntries(events) && i < |events| && events[i].state.None? && Faithful(enc, dec)
    ensures var full := FieldsOf(events[i], enc);
            EventOf(PartEntry(Columns(events[0], id, seqNo, "", BatchBody(PartsOf(events, enc))), i, Lookup(full, ImpactKey)), dec(full))
            == Batched(events, id, seqNo, i)
  {
    var e := events[i];
    assert SameEntry(events[0], e);
    assert PayloadOf(e).impactId.None?;
    assert dec(enc(PayloadOf(e))[ImpactKey := Leaf(e.impact)]) == PayloadOf(e).(impactId := Some(e.impact));
    PostRoundTrips(e);
  }

  /** Each event of a batch reads back as it was written, but for its id, its place in the log and its time. */
  lemma BatchRoundTrips(events: seq<ImpactEvent>, id: string, seqNo: int, i: nat, enc: Payload -> Fields, dec: Fields -> Payload)
    requires SameEntries(events) && i < |events| && events[i].state.None? && Faithful(enc, dec)
    ensures var body := BatchBody(PartsOf(events, enc));
      PartEvent(Columns(events[0], id, seqNo, "", body), body.top, body.parts[i], i, dec) == Some(Batched(events, id, seqNo, i))
  {
    PartGivesFields(events, i, enc);
    FieldsGiveEvent(events, id, seqNo, i, enc, dec);
  }
}
