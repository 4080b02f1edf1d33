// The three-way merge of a rebase (contracts/domain/draftmerge.go): our draft and theirs against the version at the fork.
module DraftMerge {
  import opened Prelude
  import opened Domain
  import opened Drafts

  // ---- one value

  // A side that did not move takes the other's value; two sides that moved keep ours.
  function Merge3<T(==)>(base: T, ours: T, theirs: T): T { if ours == base then theirs else ours }

  predicate Conflict3<T(==)>(base: T, ours: T, theirs: T) { ours != base && theirs != base && ours != theirs }

  method MergeValue<T(==)>(base: T, ours: T, theirs: T) returns (r: T, conflict: bool)
    ensures r == Merge3(base, ours, theirs) && conflict == Conflict3(base, ours, theirs)
  {
    if ours == base { return theirs, false; }
    if theirs == base || ours == theirs { return ours, false; }
    return ours, true;
  }

  // ---- the names of the conflicts

  const ConflictOwner := "owner"
  const ConflictState := "state"

  function ConflictProp(key: string): string { "props." + key }

  function ConflictLink(typ: string, to: string): string { "link:" + typ + ":" + to }

  // A link is named by its type and its target: a node, or a thing of another source whatever its version.
  function TargetText(l: DraftLink): string { if l.External() then l.target.Logical().Text() else l.to.id }

  function LinkKey(l: DraftLink): string { ConflictLink(l.typ, TargetText(l)) }

  // ---- properties

  ghost function MergedProps(base: map<string, Json>, ours: map<string, Json>, theirs: map<string, Json>): map<string, Json> {
    map k | k in ours.Keys + theirs.Keys && Merge3(Lookup(base, k), Lookup(ours, k), Lookup(theirs, k)).Some?
      :: Merge3(Lookup(base, k), Lookup(ours, k), Lookup(theirs, k)).value
  }

  predicate PropConflicts(base: map<string, Json>, ours: map<string, Json>, theirs: map<string, Json>, k: string) {
    Conflict3(Lookup(base, k), Lookup(ours, k), Lookup(theirs, k))
  }

  lemma MergedPropsAt(base: map<string, Json>, ours: map<string, Json>, theirs: map<string, Json>, k: string)
    ensures Lookup(MergedProps(base, ours, theirs), k) == Merge3(Lookup(base, k), Lookup(ours, k), Lookup(theirs, k))
  {
  }

  // One key of the properties: theirs when ours did not move.
  function MergeKey(base: map<string, Json>, ours: map<string, Json>, theirs: map<string, Json>, k: string, was: map<string, Json>)
    : map<string, Json>
  {
    if Lookup(ours, k) != Lookup(base, k) then was else if k in theirs then was[k := theirs[k]] else was - {k}
  }

  ghost function MergeKeys(base: map<string, Json>, ours: map<string, Json>, theirs: map<string, Json>, keys: seq<string>)
    : map<string, Json>
  {
    if keys == [] then ours
    else MergeKey(base, ours, theirs, keys[|keys| - 1], MergeKeys(base, ours, theirs, keys[..|keys| - 1]))
  }

  ghost function ApartKeys(base: map<string, Json>, ours: map<string, Json>, theirs: map<string, Json>, keys: seq<string>)
    : set<string>
  {
    if keys == [] then {}
    else
      var k := keys[|keys| - 1];
      var before := ApartKeys(base, ours, theirs, keys[..|keys| - 1]);
      if PropConflicts(base, ours, theirs, k) then before + {k} else before
  }

  lemma {:induction false} MergeKeysAt(base: map<string, Json>, ours: map<string, Json>, theirs: map<string, Json>,
                                       keys: seq<string>, k: string)
    ensures Lookup(MergeKeys(base, ours, theirs, keys), k) ==
            if k in keys then Merge3(Lookup(base, k), Lookup(ours, k), Lookup(theirs, k)) else Lookup(ours, k)
    ensures k in ApartKeys(base, ours, theirs, keys) <==> k in keys && PropConflicts(base, ours, theirs, k)
  {
    if keys != [] {
      var n := |keys| - 1;
      assert keys == keys[..n] + [keys[n]];
      MergeKeysAt(base, ours, theirs, keys[..n], k);
    }
  }

  lemma MergeAllKeys(base: map<string, Json>, ours: map<string, Json>, theirs: map<string, Json>, keys: seq<string>)
    requires forall k :: k in keys <==> k in base.Keys + ours.Keys + theirs.Keys
    ensures MergeKeys(base, ours, theirs, keys) == MergedProps(base, ours, theirs)
    ensures forall k :: k in ApartKeys(base, ours, theirs, keys) <==> PropConflicts(base, ours, theirs, k)
  {
    forall k
      ensures Lookup(MergeKeys(base, ours, theirs, keys), k) == Lookup(MergedProps(base, ours, theirs), k)
      ensures k in ApartKeys(base, ours, theirs, keys) <==> PropConflicts(base, ours, theirs, k)
    {
      MergeKeysAt(base, ours, theirs, keys, k);
      MergedPropsAt(base, ours, theirs, k);
    }
    SameLookups(MergeKeys(base, ours, theirs, keys), MergedProps(base, ours, theirs));
  }

  // One more key: the property it becomes, and whether it conflicts.
  lemma MergeKeySnoc(base: map<string, Json>, ours: map<string, Json>, theirs: map<string, Json>, keys: seq<string>, i: nat)
    requires i < |keys|
    ensures MergeKeys(base, ours, theirs, keys[..i + 1]) == MergeKey(base, ours, theirs, keys[i], MergeKeys(base, ours, theirs, keys[..i]))
    ensures ApartKeys(base, ours, theirs, keys[..i + 1]) ==
            if PropConflicts(base, ours, theirs, keys[i]) then ApartKeys(base, ours, theirs, keys[..i]) + {keys[i]}
            else ApartKeys(base, ours, theirs, keys[..i])
  {
    assert keys[..i + 1][..i] == keys[..i];
  }

  method MergeProp(base: map<string, Json>, ours: map<string, Json>, theirs: map<string, Json>, k: string, out0: map<string, Json>,
                   conflicts0: set<string>)
    returns (out: map<string, Json>, conflicts: set<string>)
    ensures out == MergeKey(base, ours, theirs, k, out0)
    ensures conflicts == if PropConflicts(base, ours, theirs, k) then conflicts0 + {k} else conflicts0
  {
    out, conflicts := out0, conflicts0;
    if Lookup(ours, k) == Lookup(base, k) {
      if k in theirs {
        out := out[k := theirs[k]];
      } else {
        out := out - {k};
      }
    } else if Lookup(theirs, k) == Lookup(base, k) || Lookup(ours, k) == Lookup(theirs, k) {
    } else {
      conflicts := conflicts + {k};
    }
  }

  method MergeProps(base: map<string, Json>, ours: map<string, Json>, theirs: map<string, Json>)
    returns (out: map<string, Json>, conflicts: set<string>)
    ensures out == MergedProps(base, ours, theirs)
    ensures forall k :: k in conflicts <==> PropConflicts(base, ours, theirs, k)
  {
    out, conflicts := ours, {};
    var keys := Sort(base.Keys + ours.Keys + theirs.Keys);
    for i := 0 to |keys|
      invariant out == MergeKeys(base, ours, theirs, keys[..i])
      invariant conflicts == ApartKeys(base, ours, theirs, keys[..i])
    {
      MergeKeySnoc(base, ours, theirs, keys, i);
      out, conflicts := MergeProp(base, ours, theirs, keys[i], out, conflicts);
    }
    WholePrefix(keys);
    MergeAllKeys(base, ours, theirs, keys);
  }

  // ---- links

  // The first link of a key: the one the merge decides; a second one is left as it is.
  ghost function First(ls: seq<DraftLink>, k: string): Option<DraftLink> {
    if ls == [] then None
    else if First(ls[..|ls| - 1], k).Some? then First(ls[..|ls| - 1], k)
    else if LinkKey(ls[|ls| - 1]) == k then Some(ls[|ls| - 1]) else None
  }

  // What a link of a key is worth: the version of its target and its properties.
  datatype LinkValue = LinkValue(version: int, target: Url, props: map<string, Json>)

  function ValueOf(l: Option<DraftLink>): Option<LinkValue> {
    if l.None? then None else Some(LinkValue(l.value.to.version, l.value.target, l.value.props))
  }

  ghost function ValueAt(ls: seq<DraftLink>, k: string): Option<LinkValue> { ValueOf(First(ls, k)) }

  ghost predicate Untouched(base: seq<DraftLink>, ours: seq<DraftLink>, k: string) { ValueAt(ours, k) == ValueAt(base, k) }

  ghost function Keys(ls: seq<DraftLink>): set<string> { set l | l in ls :: LinkKey(l) }

  // A link of ours after the merge: theirs when ours did not move.
  function Take(l: DraftLink, t: DraftLink): DraftLink { l.(to := t.to, target := t.target, props := t.props) }

  ghost function OurMerged(base: seq<DraftLink>, ours: seq<DraftLink>, theirs: seq<DraftLink>, n: nat): seq<DraftLink>
    requires n <= |ours|
  {
    if n == 0 then []
    else
      var before := OurMerged(base, ours, theirs, n - 1);
      var l := ours[n - 1];
      var k := LinkKey(l);
      if k in Keys(ours[..n - 1]) || !Untouched(base, ours, k) then before + [l]
      else if First(theirs, k).Some? then before + [Take(l, First(theirs, k).value)]
      else before
  }

  // The keys only theirs has now, and that ours did not remove.
  ghost function Added(base: seq<DraftLink>, ours: seq<DraftLink>, theirs: seq<DraftLink>): set<string> {
    set k | k in Keys(theirs) && k !in Keys(ours) && Untouched(base, ours, k)
  }

  function NewLink(t: DraftLink): DraftLink { DraftLink("", t.typ, t.to, t.target, t.props) }

  ghost function NewLinks(theirs: seq<DraftLink>, added: seq<string>): seq<DraftLink>
    requires forall k :: k in added ==> First(theirs, k).Some?
  {
    if added == [] then []
    else NewLinks(theirs, added[..|added| - 1]) + [NewLink(First(theirs, added[|added| - 1]).value)]
  }

  lemma KeysSplit(ls: seq<DraftLink>)
    requires ls != []
    ensures Keys(ls) == Keys(ls[..|ls| - 1]) + {LinkKey(ls[|ls| - 1])}
    ensures forall l :: l in ls[..|ls| - 1] ==> l in ls
  {
    assert ls == ls[..|ls| - 1] + [ls[|ls| - 1]];
  }

  lemma {:induction false} FirstHasKey(ls: seq<DraftLink>, k: string)
    ensures First(ls, k).Some? <==> k in Keys(ls)
    ensures First(ls, k).Some? ==> LinkKey(First(ls, k).value) == k && First(ls, k).value in ls
  {
    if ls != [] {
      var n := |ls| - 1;
      FirstHasKey(ls[..n], k);
      KeysSplit(ls);
    }
  }

  ghost function MergedLinks(base: seq<DraftLink>, ours: seq<DraftLink>, theirs: seq<DraftLink>): seq<DraftLink> {
    var added := SortedKeys(Added(base, ours, theirs));
    assert forall k :: k in added ==> First(theirs, k).Some? by {
      forall k | k in added { FirstHasKey(theirs, k); }
    }
    OurMerged(base, ours, theirs, |ours|) + NewLinks(theirs, added)
  }

  ghost predicate LinkConflicts(base: seq<DraftLink>, ours: seq<DraftLink>, theirs: seq<DraftLink>, k: string) {
    Conflict3(ValueAt(base, k), ValueAt(ours, k), ValueAt(theirs, k))
  }

  method LinksByKey(ls: seq<DraftLink>) returns (m: map<string, DraftLink>)
    ensures IsByKey(m, ls)
  {
    m := map[];
    for i := 0 to |ls|
      invariant m.Keys == Keys(ls[..i])
      invariant forall k :: Lookup(m, k) == First(ls[..i], k)
    {
      assert ls[..i + 1][..i] == ls[..i];
      assert ls[..i + 1] == ls[..i] + [ls[i]];
      var k := LinkKey(ls[i]);
      assert Lookup(m, k) == First(ls[..i], k);
      if k !in m { m := m[k := ls[i]]; }
    }
    assert ls[..|ls|] == ls;
  }

  type LinkMap = map<string, DraftLink>

  predicate Moved(bm: LinkMap, om: LinkMap, k: string) { ValueOf(Lookup(om, k)) != ValueOf(Lookup(bm, k)) }

  predicate Apart(bm: LinkMap, om: LinkMap, tm: LinkMap, k: string) {
    Conflict3(ValueOf(Lookup(bm, k)), ValueOf(Lookup(om, k)), ValueOf(Lookup(tm, k)))
  }

  // What becomes of each key ours did not move (theirs, None: removed), and the keys both moved apart.
  ghost function Decided(bm: LinkMap, om: LinkMap, tm: LinkMap, done: set<string>): map<string, Option<DraftLink>> {
    map k | k in done && !Moved(bm, om, k) :: Lookup(tm, k)
  }

  ghost function MovedApart(bm: LinkMap, om: LinkMap, tm: LinkMap, done: set<string>): set<string> {
    set k | k in done && Apart(bm, om, tm, k)
  }

  lemma DecideStep(bm: LinkMap, om: LinkMap, tm: LinkMap, done: set<string>, k: string)
    ensures Decided(bm, om, tm, done + {k}) ==
            if Moved(bm, om, k) then Decided(bm, om, tm, done) else Decided(bm, om, tm, done)[k := Lookup(tm, k)]
    ensures MovedApart(bm, om, tm, done + {k}) ==
            if Apart(bm, om, tm, k) then MovedApart(bm, om, tm, done) + {k} else MovedApart(bm, om, tm, done)
  {
  }

  // What a key takes, and whether it conflicts.
  method DecideLink(bm: LinkMap, om: LinkMap, tm: LinkMap, k: string, take0: map<string, Option<DraftLink>>, conflicts0: set<string>,
                    ghost done: set<string>)
    returns (take: map<string, Option<DraftLink>>, conflicts: set<string>)
    requires take0 == Decided(bm, om, tm, done) && conflicts0 == MovedApart(bm, om, tm, done)
    ensures take == Decided(bm, om, tm, done + {k}) && conflicts == MovedApart(bm, om, tm, done + {k})
  {
    DecideStep(bm, om, tm, done, k);
    take, conflicts := take0, conflicts0;
    if ValueOf(Lookup(om, k)) == ValueOf(Lookup(bm, k)) {
      take := take[k := Lookup(tm, k)];
    } else if ValueOf(Lookup(tm, k)) == ValueOf(Lookup(bm, k)) || ValueOf(Lookup(om, k)) == ValueOf(Lookup(tm, k)) {
    } else {
      conflicts := conflicts + {k};
    }
  }

  method DecideLinks(bm: LinkMap, om: LinkMap, tm: LinkMap) returns (take: map<string, Option<DraftLink>>, conflicts: set<string>)
    ensures take == Decided(bm, om, tm, bm.Keys + om.Keys + tm.Keys)
    ensures conflicts == MovedApart(bm, om, tm, bm.Keys + om.Keys + tm.Keys)
  {
    var keys := Sort(bm.Keys + om.Keys + tm.Keys);
    take, conflicts := DecideAll(bm, om, tm, keys);
    SetOfSorted(bm.Keys + om.Keys + tm.Keys);
  }

  method DecideAll(bm: LinkMap, om: LinkMap, tm: LinkMap, keys: seq<string>)
    returns (take: map<string, Option<DraftLink>>, conflicts: set<string>)
    ensures take == Decided(bm, om, tm, SetOf(keys)) && conflicts == MovedApart(bm, om, tm, SetOf(keys))
  {
    take, conflicts := map[], {};
    ghost var done: set<string> := {};
    for i := 0 to |keys|
      invariant done == SetOf(keys[..i])
      invariant take == Decided(bm, om, tm, done) && conflicts == MovedApart(bm, om, tm, done)
    {
      PrefixGrows(keys, i);
      take, conflicts := DecideLink(bm, om, tm, keys[i], take, conflicts, done);
      done := done + {keys[i]};
    }
    WholePrefix(keys);
  }

  // Ours, in their order: the keys ours did not move take what was decided of them.
  method MergeOurs(base: seq<DraftLink>, ours: seq<DraftLink>, theirs: seq<DraftLink>, take: map<string, Option<DraftLink>>)
    returns (out: seq<DraftLink>)
    requires forall k :: k in Keys(ours) ==> (k in take <==> Untouched(base, ours, k))
    requires forall k :: k in take ==> take[k] == First(theirs, k)
    ensures out == OurMerged(base, ours, theirs, |ours|)
  {
    out := [];
    var seen: set<string> := {};
    for i := 0 to |ours|
      invariant seen == Keys(ours[..i])
      invariant out == OurMerged(base, ours, theirs, i)
    {
      var l := ours[i];
      var k := LinkKey(l);
      KeysGrow(ours, i);
      if k in seen {
        out := out + [l];
      } else {
        seen := seen + {k};
        if k !in take {
          out := out + [l];
        } else if take[k].Some? {
          out := out + [Take(l, take[k].value)];
        }
      }
    }
  }

  lemma KeysGrow(ls: seq<DraftLink>, i: nat)
    requires i < |ls|
    ensures Keys(ls[..i + 1]) == Keys(ls[..i]) + {LinkKey(ls[i])} && LinkKey(ls[i]) in Keys(ls)
    ensures Keys(ls[..|ls|]) == Keys(ls)
  {
    assert ls[..i + 1] == ls[..i] + [ls[i]];
    assert ls[i] in ls;
    assert ls[..|ls|] == ls;
  }

  // Then the links theirs added, by key.
  method AddTheirs(theirs: seq<DraftLink>, tm: LinkMap, added: set<string>) returns (out: seq<DraftLink>)
    requires forall k :: k in added ==> First(theirs, k).Some? && Lookup(tm, k) == First(theirs, k)
    ensures out == NewLinks(theirs, SortedKeys(added))
  {
    out := [];
    var sorted := Sort(added);
    for i := 0 to |sorted|
      invariant out == NewLinks(theirs, sorted[..i])
    {
      assert sorted[..i + 1][..i] == sorted[..i];
      assert sorted[i] in added;
      out := out + [NewLink(tm[sorted[i]])];
    }
    assert sorted[..|sorted|] == sorted;
  }

  method MergeLinks(base: seq<DraftLink>, ours: seq<DraftLink>, theirs: seq<DraftLink>)
    returns (out: seq<DraftLink>, conflicts: set<string>)
    ensures out == MergedLinks(base, ours, theirs)
    ensures forall k :: k in conflicts <==> LinkConflicts(base, ours, theirs, k)
  {
    var bm := LinksByKey(base);
    var om := LinksByKey(ours);
    var tm := LinksByKey(theirs);
    var take;
    take, conflicts := DecideLinks(bm, om, tm);
    DecidedKeys(base, ours, theirs, bm, om, tm, take, conflicts);
    var mine := MergeOurs(base, ours, theirs, take);
    var added := set k | k in take && take[k].Some? && k !in om;
    AddedKeys(base, ours, theirs, added);
    var brought := AddTheirs(theirs, tm, added);
    MergedIs(base, ours, theirs, added);
    out := mine + brought;
  }

  lemma MergedIs(base: seq<DraftLink>, ours: seq<DraftLink>, theirs: seq<DraftLink>, added: set<string>)
    requires added == Added(base, ours, theirs) && forall k :: k in added ==> First(theirs, k).Some?
    ensures MergedLinks(base, ours, theirs) == OurMerged(base, ours, theirs, |ours|) + NewLinks(theirs, SortedKeys(added))
  {
  }

  ghost predicate IsByKey(m: LinkMap, ls: seq<DraftLink>) {
    m.Keys == Keys(ls) && forall k :: Lookup(m, k) == First(ls, k)
  }

  lemma DecidedKey(base: seq<DraftLink>, ours: seq<DraftLink>, theirs: seq<DraftLink>, bm: LinkMap, om: LinkMap, tm: LinkMap,
                   take: map<string, Option<DraftLink>>, k: string)
    requires IsByKey(bm, base) && IsByKey(om, ours) && IsByKey(tm, theirs)
    requires take == Decided(bm, om, tm, bm.Keys + om.Keys + tm.Keys)
    ensures k in take ==> take[k] == First(theirs, k)
    ensures k in Keys(ours) ==> (k in take <==> Untouched(base, ours, k))
    ensures k in take && take[k].Some? && k !in om <==> First(theirs, k).Some? && k !in Keys(ours) && Untouched(base, ours, k)
  {
    assert Lookup(bm, k) == First(base, k) && Lookup(om, k) == First(ours, k) && Lookup(tm, k) == First(theirs, k);
  }

  lemma ApartKey(base: seq<DraftLink>, ours: seq<DraftLink>, theirs: seq<DraftLink>, bm: LinkMap, om: LinkMap, tm: LinkMap, k: string)
    requires IsByKey(bm, base) && IsByKey(om, ours) && IsByKey(tm, theirs)
    ensures k in MovedApart(bm, om, tm, bm.Keys + om.Keys + tm.Keys) <==> LinkConflicts(base, ours, theirs, k)
  {
    assert Lookup(bm, k) == First(base, k) && Lookup(om, k) == First(ours, k) && Lookup(tm, k) == First(theirs, k);
  }

  lemma DecidedKeys(base: seq<DraftLink>, ours: seq<DraftLink>, theirs: seq<DraftLink>, bm: LinkMap, om: LinkMap, tm: LinkMap,
                    take: map<string, Option<DraftLink>>, apart: set<string>)
    requires IsByKey(bm, base) && IsByKey(om, ours) && IsByKey(tm, theirs)
    requires take == Decided(bm, om, tm, bm.Keys + om.Keys + tm.Keys)
    requires apart == MovedApart(bm, om, tm, bm.Keys + om.Keys + tm.Keys)
    ensures forall k :: k in take ==> take[k] == First(theirs, k)
    ensures forall k :: k in Keys(ours) ==> (k in take <==> Untouched(base, ours, k))
    ensures forall k :: k in take && take[k].Some? && k !in om <==>
                        First(theirs, k).Some? && k !in Keys(ours) && Untouched(base, ours, k)
    ensures forall k :: k in apart <==> LinkConflicts(base, ours, theirs, k)
  {
    forall k { DecidedKey(base, ours, theirs, bm, om, tm, take, k); }
    forall k { ApartKey(base, ours, theirs, bm, om, tm, k); }
  }

  lemma AddedKeys(base: seq<DraftLink>, ours: seq<DraftLink>, theirs: seq<DraftLink>, added: set<string>)
    requires forall k :: k in added <==> First(theirs, k).Some? && k !in Keys(ours) && Untouched(base, ours, k)
    ensures added == Added(base, ours, theirs)
  {
    forall k ensures k in added <==> k in Added(base, ours, theirs) { FirstHasKey(theirs, k); }
  }

  // ---- the drafts

  ghost predicate Named(base: Draft, ours: Draft, theirs: Draft, name: string) {
    (exists k :: PropConflicts(base.props, ours.props, theirs.props, k) && name == ConflictProp(k)) ||
    (Conflict3(base.owner, ours.owner, theirs.owner) && name == ConflictOwner) ||
    (Conflict3(base.state, ours.state, theirs.state) && name == ConflictState) ||
    LinkConflicts(base.links, ours.links, theirs.links, name)
  }

  ghost function Merged(base: Draft, ours: Draft, theirs: Draft): Draft {
    ours.(props := MergedProps(base.props, ours.props, theirs.props),
          owner := Merge3(base.owner, ours.owner, theirs.owner),
          state := Merge3(base.state, ours.state, theirs.state),
          deleted := Merge3(base.deleted, ours.deleted, theirs.deleted),
          links := MergedLinks(base.links, ours.links, theirs.links))
  }

  /** The merge of two drafts, and the names of the fields both sides changed apart, in order, each once. */
  method MergeDrafts(base: Draft, ours: Draft, theirs: Draft) returns (out: Draft, conflicts: seq<string>)
    ensures out == Merged(base, ours, theirs)
    ensures forall name :: name in conflicts <==> Named(base, ours, theirs, name)
    ensures forall i, j :: 0 <= i < j < |conflicts| ==> Leq(conflicts[i], conflicts[j]) && conflicts[i] != conflicts[j]
  {
    var props, pc := MergeProps(base.props, ours.props, theirs.props);
    var owner, oc := MergeValue(base.owner, ours.owner, theirs.owner);
    var state, sc := MergeValue(base.state, ours.state, theirs.state);
    var deleted, _ := MergeValue(base.deleted, ours.deleted, theirs.deleted);
    var links, lc := MergeLinks(base.links, ours.links, theirs.links);
    out := ours.(props := props, owner := owner, state := state, deleted := deleted, links := links);
    var names := (set k | k in pc :: ConflictProp(k)) + (if oc then {ConflictOwner} else {}) + (if sc then {ConflictState} else {}) + lc;
    NamesOf(base, ours, theirs, pc, names, lc);
    conflicts := Sort(names);
    forall i, j | 0 <= i < j < |conflicts|
      ensures Leq(conflicts[i], conflicts[j]) && conflicts[i] != conflicts[j]
    {
      SortedKeysOrdered(names, i, j);
    }
  }

  lemma NamesOf(base: Draft, ours: Draft, theirs: Draft, pc: set<string>, names: set<string>, lc: set<string>)
    requires forall k :: k in pc <==> PropConflicts(base.props, ours.props, theirs.props, k)
    requires forall k :: k in lc <==> LinkConflicts(base.links, ours.links, theirs.links, k)
    requires var oc, sc := Conflict3(base.owner, ours.owner, theirs.owner), Conflict3(base.state, ours.state, theirs.state);
      names == (set k | k in pc :: ConflictProp(k)) + (if oc then {ConflictOwner} else {}) + (if sc then {ConflictState} else {}) + lc
    ensures forall name :: name in names <==> Named(base, ours, theirs, name)
  {
    forall name ensures name in names <==> Named(base, ours, theirs, name) {
    }
  }
}
