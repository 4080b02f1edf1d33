// What a payload leaves out, what a batch writes once, and what a reader makes of an entry
// (contracts/domain/impactpayload.go, changelog.go).
module PayloadLaws {
  import opened Prelude
  import opened Domain
  import opened Hoist
  import opened Codec
  import opened StoredLog

  // ---- what a batch writes once

  // What a path of keys leads to.
  function At(f: Fields, path: seq<string>): Option<Json>
    requires path != []
    decreases |path|
  {
    if |path| == 1 then Lookup(f, path[0])
    else if path[0] in f && f[path[0]].Object? then At(f[path[0]].fields, path[1..]) else None
  }

  // All parts hold a value that is no object at a path.
  ghost predicate Common(parts: seq<Fields>, path: seq<string>, v: Json)
    requires path != []
  {
    !v.Object? && forall i :: 0 <= i < |parts| ==> At(parts[i], path) == Some(v)
  }

  lemma {:induction false} CommonUnder(parts: seq<Fields>, path: seq<string>, v: Json)
    requires |path| > 1 && Objects(parts, path[0])
    ensures Common(parts, path, v) <==> Common(Under(parts, path[0]), path[1..], v)
  {
    var subs := Under(parts, path[0]);
    forall i | 0 <= i < |parts| ensures At(parts[i], path) == At(subs[i], path[1..]) {
      assert IsObject(Lookup(parts[i], path[0]));
    }
  }

  lemma CommonIsObjects(parts: seq<Fields>, path: seq<string>, v: Json)
    requires |path| > 1 && parts != [] && path[0] != ImpactKey && Common(parts, path, v)
    ensures Shared(parts, path[0]) || Objects(parts, path[0])
  {
    forall i | 0 <= i < |parts| ensures IsObject(Lookup(parts[i], path[0])) {
      assert At(parts[i], path) == Some(v);
    }
  }

  lemma CommonOne(parts: seq<Fields>, path: seq<string>, v: Json)
    requires |path| == 1 && parts != [] && path[0] != ImpactKey && !v.Object?
    ensures Common(parts, path, v) <==> Shared(parts, path[0]) && parts[0][path[0]] == v
  {
    if Common(parts, path, v) {
      assert At(parts[0], path) == Some(v);
      forall i | 0 <= i < |parts| ensures Lookup(parts[i], path[0]) == Some(v) { assert At(parts[i], path) == Some(v); }
    }
  }

  lemma SharedAlike(parts: seq<Fields>, path: seq<string>, v: Json)
    requires path != [] && Shared(parts, path[0]) && !v.Object?
    ensures Common(parts, path, v) <==> At(parts[0], path) == Some(v)
  {
    forall i | 0 <= i < |parts| ensures At(parts[i], path) == At(parts[0], path) {
      assert Lookup(parts[i], path[0]) == Some(parts[0][path[0]]);
    }
  }

  lemma TopUnder(parts: seq<Fields>, path: seq<string>)
    requires parts != [] && path != []
    ensures At(Top(parts), path) ==
            if |path| == 1 then TopAt(parts, path[0])
            else if IsObject(TopAt(parts, path[0])) then At(TopAt(parts, path[0]).value.fields, path[1..]) else None
  {
    TopLookup(parts, path[0]);
  }

  lemma RestUnder(parts: seq<Fields>, i: nat, path: seq<string>)
    requires i < |parts| && path != []
    ensures At(Rest(parts, i), path) ==
            if |path| == 1 then RestAt(parts, i, path[0])
            else if IsObject(RestAt(parts, i, path[0])) then At(RestAt(parts, i, path[0]).value.fields, path[1..]) else None
  {
    RestLookup(parts, i, path[0]);
  }

  lemma {:induction false} NothingUnder(path: seq<string>)
    requires path != []
    ensures At(map[], path) == None
  {
  }

  /** The top of a batch holds, at any depth, exactly the values that all its parts hold, but for the ids of their impacts. */
  lemma {:induction false} TopHoldsTheCommon(parts: seq<Fields>, path: seq<string>, v: Json)
    requires parts != [] && path != [] && ImpactKey !in path && !v.Object?
    ensures At(Top(parts), path) == Some(v) <==> Common(parts, path, v)
    decreases |path|
  {
    var k := path[0];
    TopUnder(parts, path);
    if |path| == 1 {
      CommonOne(parts, path, v);
    } else if Shared(parts, k) {
      SharedAlike(parts, path, v);
    } else if Objects(parts, k) {
      CommonUnder(parts, path, v);
      TopHoldsTheCommon(Under(parts, k), path[1..], v);
      NothingUnder(path[1..]);
    } else if Common(parts, path, v) {
      CommonIsObjects(parts, path, v);
    }
  }

  /** A part keeps, at any depth, exactly the values that not all parts hold. */
  lemma {:induction false} PartKeepsTheRest(parts: seq<Fields>, i: nat, path: seq<string>, v: Json)
    requires i < |parts| && path != [] && ImpactKey !in path && !v.Object?
    ensures At(Rest(parts, i), path) == Some(v) <==> At(parts[i], path) == Some(v) && !Common(parts, path, v)
    decreases |path|
  {
    var k := path[0];
    RestUnder(parts, i, path);
    if |path| == 1 {
      CommonOne(parts, path, v);
    } else if Shared(parts, k) {
      SharedAlike(parts, path, v);
      assert Lookup(parts[i], k) == Some(parts[0][k]);
    } else if Objects(parts, k) {
      CommonUnder(parts, path, v);
      PartKeepsTheRest(Under(parts, k), i, path[1..], v);
      TopHoldsTheCommon(Under(parts, k), path[1..], v);
      NothingUnder(path[1..]);
      assert IsObject(Lookup(parts[i], k));
    } else if Common(parts, path, v) {
      CommonIsObjects(parts, path, v);
    }
  }

  // ---- putting back

  // What the two hold cannot both stay: one is text, or the top holds something in an object that is null in the part.
  predicate Clash(t: Json, p: Json) { t.Leaf? || p.Leaf? || (p.Null? && t.Object? && t.fields != map[]) }

  ghost predicate ClashAt(top: Fields, part: Fields, path: seq<string>) {
    path != [] && At(top, path).Some? && At(part, path).Some? && Clash(At(top, path).value, At(part, path).value)
  }

  lemma AtUnder(f: Fields, k: string, path: seq<string>)
    requires path != [] && k in f && f[k].Object?
    ensures At(f, [k] + path) == At(f[k].fields, path)
  {
    assert ([k] + path)[1..] == path;
  }

  lemma {:induction false} FailureClashes(top: Fields, part: Fields) returns (path: seq<string>)
    requires PutBack(top, part).None?
    ensures ClashAt(top, part, path)
    decreases Object(top)
  {
    var k :| k in top && PutBackAt(top, part, k).None?;
    if Clash(top[k], part[k]) {
      path := [k];
    } else {
      var rest := FailureClashes(top[k].fields, part[k].fields);
      AtUnder(top, k, rest);
      AtUnder(part, k, rest);
      path := [k] + rest;
    }
  }

  lemma {:induction false} ClashFails(top: Fields, part: Fields, path: seq<string>)
    requires ClashAt(top, part, path)
    ensures PutBack(top, part).None?
    decreases |path|
  {
    var k := path[0];
    if |path| > 1 { ClashFails(top[k].fields, part[k].fields, path[1..]); }
    assert PutBackAt(top, part, k).None?;
  }

  /** Putting back fails exactly when the top and the part hold, at some path, what cannot both stay. */
  lemma PutBackFails(top: Fields, part: Fields)
    ensures PutBack(top, part).None? <==> exists path :: ClashAt(top, part, path)
  {
    if PutBack(top, part).None? { var path := FailureClashes(top, part); }
    forall path | ClashAt(top, part, path) ensures PutBack(top, part).None? { ClashFails(top, part, path); }
  }

  /** What is put back holds, at any depth, what the part holds, and what the top holds where the part holds nothing. */
  lemma {:induction false} PutBackHolds(top: Fields, part: Fields, path: seq<string>, v: Json)
    requires PutBack(top, part).Some? && path != [] && !v.Object?
    ensures At(PutBack(top, part).value, path) == Some(v) <==>
            At(part, path) == Some(v) || (At(part, path).None? && At(top, path) == Some(v))
    decreases |path|
  {
    var k, out := path[0], PutBack(top, part).value;
    assert k in top ==> PutBackAt(top, part, k).Some?;
    assert Lookup(out, k) == if k in top then PutBackAt(top, part, k) else Lookup(part, k);
    if |path| > 1 && k in top && k in part && top[k].Object? && part[k].Object? {
      PutBackHolds(top[k].fields, part[k].fields, path[1..], v);
    }
    if |path| > 1 && k in top && top[k].Object? && top[k].fields == map[] { NothingUnder(path[1..]); }
  }

  // ---- the ids of parts

  function Digit(c: char): Option<nat> { if '0' <= c <= '9' then Some((c - '0') as nat) else None }

  // A text of digits as a number, most significant first.
  function Number(s: string): Option<nat> {
    if s == "" then None
    else
      var d := Digit(s[|s| - 1]);
      if d.None? then None
      else if |s| == 1 then d
      else
        var above := Number(s[..|s| - 1]);
        if above.None? then None else Some(above.value * 10 + d.value)
  }

  /** The position of a part is written in decimal, without a leading zero. */
  lemma {:induction false} ItoaIsDecimal(n: nat)
    ensures Number(Itoa(n)) == Some(n) && (n > 0 ==> Itoa(n)[0] != '0')
  {
    if n < 10 {
      assert Itoa(n) == ["0123456789"[n]];
    } else {
      var above, d := Itoa(n / 10), "0123456789"[n % 10];
      ItoaIsDecimal(n / 10);
      assert Itoa(n) == above + [d];
      assert (above + [d])[..|above|] == above;
    }
  }

  /** The events of an entry have an id each. */
  lemma PartIdsDiffer(entry: string, i: nat, j: nat)
    requires i != j
    ensures PartId(entry, i) != PartId(entry, j)
  {
    ItoaIsDecimal(i);
    ItoaIsDecimal(j);
    var n := |entry| + 1;
    assert PartId(entry, i) == (entry + "#") + Itoa(i) && PartId(entry, j) == (entry + "#") + Itoa(j);
    assert PartId(entry, i)[n..] == Itoa(i) && PartId(entry, j)[n..] == Itoa(j);
  }

  // ---- what a payload leaves out

  // A draft that its event creates, whole.
  predicate Creates(e: ImpactEvent) { e.op == ImpactCreated && e.draft.Some? && e.fromBase.None? }

  // The node of a draft that its event creates or checks out: its own, or that of the version it copies.
  predicate InstallsNode(e: ImpactEvent, node: string) {
    node != "" && e.draft.Some? && (e.op == ImpactCreated || e.op == ImpactCheckedOut) &&
    if e.fromBase.None? then node == e.draft.value.node else e.draft.value.base.Some? && node == e.draft.value.base.value.id
  }

  /** The post is left out when it is the draft installed, or the draft an edit is of, and when there is none; null says none. */
  ghost predicate PostSays(e: ImpactEvent, post: Field<NodeRef>) {
    if e.op == ImpactUpdated && e.post.Some? && e.post.value.id != "" && e.post.value.version == 0 then post == Absent
    else if e.post.None? then (post == NullField <==> exists n :: InstallsNode(e, n)) && !post.Here?
    else (post == Absent <==> e.post.value.version == 0 && InstallsNode(e, e.post.value.id)) && (post != Absent ==> post == Here(e.post.value))
  }

  /** The impact an event declares says its id never, and its key, type, time, author, review and intent only when they differ. */
  predicate StateSays(e: ImpactEvent, cn: ChangeImpact, out: StateOut) {
    if cn.id != e.impact then out == WholeState(cn)
    else
      out.OwnState? && out.rest.id == "" &&
      out.rest.(id := cn.id, key := cn.key, typ := cn.typ, createdAt := cn.createdAt, producedBy := cn.producedBy, review := cn.review,
                intent := cn.intent) == cn &&
      Differs(out.key, cn.key, Creates(e) && cn.key == e.draft.value.key) &&
      Differs(out.typ, cn.typ, Creates(e) && cn.typ == e.draft.value.typ) &&
      Differs(out.createdAt, cn.createdAt, cn.createdAt == e.at) && Differs(out.producedBy, cn.producedBy, cn.producedBy == e.writer) &&
      Differs(out.review, cn.review, cn.review == ReviewProposed) &&
      Differs(out.intent, cn.intent, e.op == ImpactCreated && cn.intent == IntentCreated)
  }

  // A field is left out when it goes without saying, and written otherwise.
  predicate Differs<T(==)>(out: Option<T>, v: T, implied: bool) { if implied then out == None else out == Some(v) }

  /** A draft never says its change, impact, flow and editor; a copy says only the versions it is of and its run. */
  predicate DraftSays(e: ImpactEvent, d: Draft, out: DraftOut) {
    if e.fromBase.Some? then out == OfBase(d.base, d.mergedWith, d.execution)
    else out == WholeDraft(d.(change := "", impact := "", flow := "", editor := ""))
  }

  /** A payload says of its event what its entry and its draft do not. */
  lemma PayloadSays(e: ImpactEvent)
    ensures var p := PayloadOf(e);
      p.impactId.None? && p.op == e.op && PostSays(e, p.post) &&
      (p.state.Some? <==> e.state.Some?) && (e.state.Some? ==> StateSays(e, e.state.value, p.state.value)) &&
      (p.draft.Some? <==> e.draft.Some?) && (e.draft.Some? ==> DraftSays(e, e.draft.value, p.draft.value))
  {
    if e.state.Some? { StateIsSaid(e, e.state.value); }
    PostIsSaid(e);
  }

  lemma StateIsSaid(e: ImpactEvent, cn: ChangeImpact)
    ensures StateSays(e, cn, StateOf(e, cn))
  {
  }

  lemma PostIsSaid(e: ImpactEvent)
    ensures PostSays(e, PostOut(e))
  {
    forall n ensures InstallsNode(e, n) <==> n != "" && n == DraftNode(e) { }
    if DraftNode(e) != "" { assert InstallsNode(e, DraftNode(e)); }
  }

  // An impact that is not the event's own is read under its own id, or the event's, and by its own author, or the event's.
  function StateRead(e: ImpactEvent, cn: ChangeImpact): ChangeImpact {
    if cn.id == e.impact then cn
    else cn.(id := if cn.id == "" then e.impact else cn.id, producedBy := if cn.producedBy == "" then e.writer else cn.producedBy)
  }

  /** Any event reads back from its entry, the impact it carries with what was missing of it. */
  lemma AnyEventReadsBack(e: ImpactEvent, seqNo: int)
    ensures EventOf(Columns(e, e.id, seqNo, e.impact, One(PayloadOf(e))), PayloadOf(e)) ==
            Stored(e, seqNo).(state := if e.state.Some? then Some(StateRead(e, e.state.value)) else None)
  {
    if OwnsState(e) {
      EventRoundTrips(e, seqNo);
    } else {
      OtherStateReads(e, e.state.value);
      PostRoundTrips(e);
    }
  }

  lemma OtherStateReads(e: ImpactEvent, cn: ChangeImpact)
    requires cn.id != e.impact
    ensures WithId(StateIn(StateOf(e, cn), DraftIn(PayloadOf(e).draft), e.at, e.writer), e.impact) == StateRead(e, cn)
  {
  }

  // ---- the events of a commit

  /** Each node of a commit reads back as its event, its version and impact only when the store had not recorded them. */
  ghost predicate NodeReads(id: string, events: seq<ImpactEvent>, seqNo: int, i: nat, back: ImpactEvent)
    requires i < |events| && events[i].committed.Some?
  {
    var e, first, alone := events[i], events[0], |events| == 1;
    back.id == (if alone then id else PartId(id, i)) && back.seqNo == seqNo && back.op == ImpactCommitted &&
    back.change == first.change && back.flow == first.flow && back.execution == first.execution && back.writer == first.writer &&
    back.at == first.at && back.causation == first.causation && back.commit == first.commit && back.branch == first.branch &&
    back.effect == e.effect && back.impact == (if alone || !e.recorded then e.impact else "") &&
    back.committed == Some(NodeRef(e.committed.value.id, if e.recorded then 0 else e.committed.value.version)) &&
    (back.recorded <==> e.recorded || e.committed.value.version <= 0 || e.impact == "") &&
    back.state.None? && back.post.None? && back.draft.None? && back.fromBase.None? && back.pre.None? && back.review.None? &&
    back.stale == [] && back.patch.None? && back.onBehalf == ""
  }

  lemma CommitNodesReadBack(id: string, events: seq<ImpactEvent>, seqNo: int, i: nat)
    requires OneCommit(events) && i < |events|
    ensures OfOneCommit(events[0], events[i])
    ensures var l := CommitOf(id, events).(seqNo := seqNo); i < |CommitEvents(l)| && NodeReads(id, events, seqNo, i, CommitEvents(l)[i])
  {
    assert OfOneCommit(events[0], events[i]);
  }
}
