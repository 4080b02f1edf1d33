// What the three-way merge of two drafts promises: field by field, the side that moved wins.
module MergeLaws {
  import opened Prelude
  import opened Domain
  import opened Drafts
  import opened DiffApply
  import opened DraftMerge

  // ---- the key of a link says its type

  predicate PlainTypes(ls: seq<DraftLink>) { forall l :: l in ls ==> ':' !in l.typ }

  lemma ColonEnds(a: string, r: string, b: string, s: string)
    requires a + ":" + r == b + ":" + s && ':' !in b
    ensures |b| <= |a|
  {
    var x := a + ":" + r;
    assert x[|a|] == ':' && x == b + ":" + s;
  }

  lemma SameKeySameType(a: DraftLink, b: DraftLink)
    requires LinkKey(a) == LinkKey(b) && ':' !in a.typ && ':' !in b.typ
    ensures a.typ == b.typ && TargetText(a) == TargetText(b)
  {
    var x, y := TargetText(a), TargetText(b);
    var u, v := a.typ + ":" + x, b.typ + ":" + y;
    assert LinkKey(a) == "link:" + u && LinkKey(b) == "link:" + v;
    assert u == LinkKey(a)[5..] && v == LinkKey(b)[5..];
    ColonEnds(a.typ, x, b.typ, y);
    ColonEnds(b.typ, y, a.typ, x);
    assert a.typ == u[..|a.typ|] && b.typ == v[..|b.typ|];
    assert x == u[|a.typ| + 1..] && y == v[|b.typ| + 1..];
  }

  lemma TakeKeepsKey(l: DraftLink, t: DraftLink)
    requires LinkKey(l) == LinkKey(t) && ':' !in l.typ && ':' !in t.typ
    ensures LinkKey(Take(l, t)) == LinkKey(l)
  {
    SameKeySameType(l, t);
  }

  // ---- one key of the merged links

  lemma FirstGrows(ls: seq<DraftLink>, l: DraftLink, k: string)
    ensures First(ls + [l], k) ==
            if First(ls, k).Some? then First(ls, k) else if LinkKey(l) == k then Some(l) else None
  {
    assert (ls + [l])[..|ls|] == ls;
  }

  lemma {:induction false} FirstOfSum(a: seq<DraftLink>, b: seq<DraftLink>, k: string)
    ensures First(a + b, k) == if First(a, k).Some? then First(a, k) else First(b, k)
  {
    if b == [] {
      assert a + b == a;
    } else {
      var n := |b| - 1;
      assert a + b == (a + b[..n]) + [b[n]];
      FirstOfSum(a, b[..n], k);
      FirstGrows(a + b[..n], b[n], k);
    }
  }

  // A list holds a key twice.
  ghost predicate Twice(ls: seq<DraftLink>, k: string) {
    ls != [] && (Twice(ls[..|ls| - 1], k) || (LinkKey(ls[|ls| - 1]) == k && k in Keys(ls[..|ls| - 1])))
  }

  // Theirs removed a link ours did not move.
  ghost predicate Dropped(base: seq<DraftLink>, ours: seq<DraftLink>, theirs: seq<DraftLink>, k: string) {
    Untouched(base, ours, k) && First(theirs, k).None?
  }

  ghost function OurOutcome(base: seq<DraftLink>, ours: seq<DraftLink>, theirs: seq<DraftLink>, k: string, o: Option<DraftLink>)
    : Option<DraftLink>
  {
    if o.None? || !Untouched(base, ours, k) then o
    else if First(theirs, k).Some? then Some(Take(o.value, First(theirs, k).value))
    else None
  }

  // What one link of ours becomes, given whether its key came before.
  ghost function Becomes(base: seq<DraftLink>, ours: seq<DraftLink>, theirs: seq<DraftLink>, l: DraftLink, again: bool)
    : Option<DraftLink>
  {
    if again then Some(l) else OurOutcome(base, ours, theirs, LinkKey(l), Some(l))
  }

  lemma BecomesKeepsKey(base: seq<DraftLink>, ours: seq<DraftLink>, theirs: seq<DraftLink>, l: DraftLink, again: bool)
    requires l in ours && PlainTypes(ours) && PlainTypes(theirs)
    ensures var b := Becomes(base, ours, theirs, l, again); b.Some? ==> LinkKey(b.value) == LinkKey(l)
  {
    FirstHasKey(theirs, LinkKey(l));
    if First(theirs, LinkKey(l)).Some? { TakeKeepsKey(l, First(theirs, LinkKey(l)).value); }
  }

  lemma OurMergedGrows(base: seq<DraftLink>, ours: seq<DraftLink>, theirs: seq<DraftLink>, n: nat)
    requires n < |ours|
    ensures var b := Becomes(base, ours, theirs, ours[n], LinkKey(ours[n]) in Keys(ours[..n]));
      OurMerged(base, ours, theirs, n + 1) ==
        if b.None? then OurMerged(base, ours, theirs, n) else OurMerged(base, ours, theirs, n) + [b.value]
  {
  }

  // What the merge makes of the first of our links of a key, among the first of them.
  ghost predicate OurFirstIs(base: seq<DraftLink>, ours: seq<DraftLink>, theirs: seq<DraftLink>, n: nat, k: string)
    requires n <= |ours|
  {
    var f := First(OurMerged(base, ours, theirs, n), k);
    if Dropped(base, ours, theirs, k) then f.Some? <==> Twice(ours[..n], k)
    else f == OurOutcome(base, ours, theirs, k, First(ours[..n], k))
  }

  // One more of our links: what it becomes is first of its key when none was.
  lemma OurNext(base: seq<DraftLink>, ours: seq<DraftLink>, theirs: seq<DraftLink>, n: nat, k: string)
    requires n < |ours| && PlainTypes(ours) && PlainTypes(theirs)
    ensures var again := LinkKey(ours[n]) in Keys(ours[..n]);
            var b := Becomes(base, ours, theirs, ours[n], again);
            var f, g := First(OurMerged(base, ours, theirs, n), k), First(OurMerged(base, ours, theirs, n + 1), k);
            g == if f.Some? then f else if LinkKey(ours[n]) == k then b else None
    ensures First(ours[..n + 1], k) ==
            if First(ours[..n], k).Some? then First(ours[..n], k) else if LinkKey(ours[n]) == k then Some(ours[n]) else None
    ensures First(ours[..n], k).Some? <==> k in Keys(ours[..n])
    ensures Twice(ours[..n + 1], k) <==> Twice(ours[..n], k) || (LinkKey(ours[n]) == k && First(ours[..n], k).Some?)
  {
    var l, again := ours[n], LinkKey(ours[n]) in Keys(ours[..n]);
    var b := Becomes(base, ours, theirs, l, again);
    assert ours[..n + 1] == ours[..n] + [l] && l in ours;
    OurMergedGrows(base, ours, theirs, n);
    BecomesKeepsKey(base, ours, theirs, l, again);
    FirstGrows(ours[..n], l, k);
    FirstHasKey(ours[..n], k);
    TwiceGrows(ours[..n], l, k);
    if b.Some? { FirstGrows(OurMerged(base, ours, theirs, n), b.value, k); }
  }

  lemma OurFirstStep(base: seq<DraftLink>, ours: seq<DraftLink>, theirs: seq<DraftLink>, n: nat, k: string)
    requires n < |ours| && PlainTypes(ours) && PlainTypes(theirs) && OurFirstIs(base, ours, theirs, n, k)
    ensures OurFirstIs(base, ours, theirs, n + 1, k)
  {
    OurNext(base, ours, theirs, n, k);
  }

  lemma {:induction false} OurFirst(base: seq<DraftLink>, ours: seq<DraftLink>, theirs: seq<DraftLink>, n: nat, k: string)
    requires n <= |ours| && PlainTypes(ours) && PlainTypes(theirs)
    ensures OurFirstIs(base, ours, theirs, n, k)
    decreases n
  {
    if n > 0 {
      OurFirst(base, ours, theirs, n - 1, k);
      OurFirstStep(base, ours, theirs, n - 1, k);
    }
  }

  lemma TwiceGrows(ls: seq<DraftLink>, l: DraftLink, k: string)
    ensures Twice(ls + [l], k) <==> Twice(ls, k) || (LinkKey(l) == k && First(ls, k).Some?)
  {
    assert (ls + [l])[..|ls|] == ls;
    FirstHasKey(ls, k);
  }

  lemma {:induction false} NewFirst(theirs: seq<DraftLink>, added: seq<string>, k: string)
    requires forall a :: a in added ==> First(theirs, a).Some?
    ensures First(NewLinks(theirs, added), k) == if k in added then Some(NewLink(First(theirs, k).value)) else None
  {
    if added != [] {
      var n := |added| - 1;
      assert added == added[..n] + [added[n]];
      NewFirst(theirs, added[..n], k);
      var t := First(theirs, added[n]).value;
      FirstHasKey(theirs, added[n]);
      FirstGrows(NewLinks(theirs, added[..n]), NewLink(t), k);
    }
  }

  /**
   * Each key of the links is merged as one value: the side that moved wins, ours when both did. The one exception is
   * a key theirs removed while ours, not moving it, holds a second link of it: that link is left.
   */
  lemma LinksMergeByKey(base: seq<DraftLink>, ours: seq<DraftLink>, theirs: seq<DraftLink>, k: string)
    requires PlainTypes(ours) && PlainTypes(theirs)
    ensures ValueAt(MergedLinks(base, ours, theirs), k) == Merge3(ValueAt(base, k), ValueAt(ours, k), ValueAt(theirs, k))
       <==> !(Dropped(base, ours, theirs, k) && Twice(ours, k))
  {
    var added := SortedKeys(Added(base, ours, theirs));
    forall a | a in added ensures First(theirs, a).Some? { FirstHasKey(theirs, a); }
    assert ours[..|ours|] == ours;
    OurFirst(base, ours, theirs, |ours|, k);
    NewFirst(theirs, added, k);
    FirstOfSum(OurMerged(base, ours, theirs, |ours|), NewLinks(theirs, added), k);
    FirstHasKey(ours, k);
    FirstHasKey(theirs, k);
    TwiceIsHeld(ours, k);
  }

  // A link to a node, under an id, with one property or none.
  function LinkTo(id: string, props: map<string, Json>): DraftLink { DraftLink(id, "uses", NodeRef("n", 1), NoUrl, props) }

  /**
   * A key theirs dropped while ours, not moving it, holds it twice: the second link stays with its value, where the merge
   * of the values is no link.
   */
  lemma SecondLinkStays(p: Json)
    ensures var l, again := LinkTo("a", map[]), LinkTo("b", map["p" := p]);
            var base, ours, k := [l], [l, again], LinkKey(l);
            Dropped(base, ours, [], k) && Twice(ours, k) &&
            Merge3(ValueAt(base, k), ValueAt(ours, k), ValueAt([], k)) == None &&
            MergedLinks(base, ours, []) == [again] && ValueAt(MergedLinks(base, ours, []), k) == ValueOf(Some(again))
  {
    var l, again := LinkTo("a", map[]), LinkTo("b", map["p" := p]);
    var ours, k := [l, again], LinkKey(l);
    assert LinkKey(again) == k;
    SecondIsTwice(l, again);
    SecondIsMerged(l, again);
    assert [again][..0] == [];
  }

  lemma SecondIsTwice(l: DraftLink, again: DraftLink)
    requires LinkKey(again) == LinkKey(l)
    ensures First([l], LinkKey(l)) == Some(l) && First([l, again], LinkKey(l)) == Some(l) && Twice([l, again], LinkKey(l))
  {
    var k := LinkKey(l);
    FirstGrows([], l, k);
    assert [] + [l] == [l] && [l] + [again] == [l, again];
    FirstGrows([l], again, k);
    TwiceGrows([l], again, k);
  }

  lemma SecondIsMerged(l: DraftLink, again: DraftLink)
    requires LinkKey(again) == LinkKey(l)
    ensures MergedLinks([l], [l, again], []) == [again]
  {
    var ours, k := [l, again], LinkKey(l);
    SecondIsTwice(l, again);
    FirstHasKey([l], k);
    assert ours[..0] == [] && ours[..1] == [l];
    OurMergedGrows([l], ours, [], 0);
    OurMergedGrows([l], ours, [], 1);
    assert OurMerged([l], ours, [], 1) == [];
    assert OurMerged([l], ours, [], 2) == [again];
    assert Added([l], ours, []) == {};
  }

  lemma {:induction false} TwiceIsHeld(ls: seq<DraftLink>, k: string)
    ensures Twice(ls, k) ==> k in Keys(ls)
  {
    if ls != [] {
      TwiceIsHeld(ls[..|ls| - 1], k);
      KeysGrow(ls, |ls| - 1);
      assert ls[..|ls|] == ls;
    }
  }

  // ---- the whole draft

  ghost predicate UniqueKeys(ls: seq<DraftLink>) { forall k :: !Twice(ls, k) }

  ghost predicate Mergeable(d: Draft) { PlainTypes(d.links) && UniqueKeys(d.links) }

  // Two drafts hold the same: their fields, and the value of each key of their links.
  ghost predicate SameContent(a: Draft, b: Draft) {
    a.props == b.props && a.owner == b.owner && a.state == b.state && a.deleted == b.deleted &&
    forall k :: ValueAt(a.links, k) == ValueAt(b.links, k)
  }

  ghost predicate NoConflict(base: Draft, ours: Draft, theirs: Draft) {
    forall name :: !Named(base, ours, theirs, name)
  }

  lemma MergedAt(base: Draft, ours: Draft, theirs: Draft, k: string)
    requires Mergeable(ours) && PlainTypes(theirs.links)
    ensures ValueAt(Merged(base, ours, theirs).links, k)
         == Merge3(ValueAt(base.links, k), ValueAt(ours.links, k), ValueAt(theirs.links, k))
    ensures Lookup(Merged(base, ours, theirs).props, k)
         == Merge3(Lookup(base.props, k), Lookup(ours.props, k), Lookup(theirs.props, k))
  {
    LinksMergeByKey(base.links, ours.links, theirs.links, k);
    MergedPropsAt(base.props, ours.props, theirs.props, k);
  }

  /** Theirs did not move from the fork: the merge is ours, with no conflict. */
  lemma MergeWithUnmovedTheirs(base: Draft, ours: Draft, theirs: Draft)
    requires Mergeable(ours) && PlainTypes(theirs.links) && SameContent(theirs, base)
    ensures SameContent(Merged(base, ours, theirs), ours) && NoConflict(base, ours, theirs)
  {
    var m := Merged(base, ours, theirs);
    forall k ensures ValueAt(m.links, k) == ValueAt(ours.links, k) && Lookup(m.props, k) == Lookup(ours.props, k) {
      MergedAt(base, ours, theirs, k);
    }
    SameLookups(m.props, ours.props);
  }

  /** Ours did not move from the fork: the merge is theirs, with no conflict. */
  lemma MergeWithUnmovedOurs(base: Draft, ours: Draft, theirs: Draft)
    requires Mergeable(ours) && PlainTypes(theirs.links) && SameContent(ours, base)
    ensures SameContent(Merged(base, ours, theirs), theirs) && NoConflict(base, ours, theirs)
  {
    var m := Merged(base, ours, theirs);
    forall k ensures ValueAt(m.links, k) == ValueAt(theirs.links, k) && Lookup(m.props, k) == Lookup(theirs.props, k) {
      MergedAt(base, ours, theirs, k);
    }
    SameLookups(m.props, theirs.props);
  }

  /** The conflicts do not depend on whose side is whose; with none, neither does what the merge holds. */
  lemma MergeIsSymmetric(base: Draft, ours: Draft, theirs: Draft)
    requires Mergeable(ours) && Mergeable(theirs)
    ensures forall name :: Named(base, ours, theirs, name) <==> Named(base, theirs, ours, name)
    ensures NoConflict(base, ours, theirs) ==> SameContent(Merged(base, ours, theirs), Merged(base, theirs, ours))
  {
    if NoConflict(base, ours, theirs) {
      var m, w := Merged(base, ours, theirs), Merged(base, theirs, ours);
      assert !Named(base, ours, theirs, ConflictOwner) && !Named(base, ours, theirs, ConflictState);
      forall k ensures ValueAt(m.links, k) == ValueAt(w.links, k) && Lookup(m.props, k) == Lookup(w.props, k) {
        MergedAt(base, ours, theirs, k);
        MergedAt(base, theirs, ours, k);
        assert !Named(base, ours, theirs, k) && !Named(base, ours, theirs, ConflictProp(k));
      }
      SameLookups(m.props, w.props);
    }
  }

  // ---- the merge of links that name each target once names each once

  lemma {:induction false} TwiceInSum(a: seq<DraftLink>, b: seq<DraftLink>, k: string)
    ensures Twice(a + b, k) <==> Twice(a, k) || Twice(b, k) || (First(a, k).Some? && First(b, k).Some?)
  {
    if b == [] {
      assert a + b == a;
    } else {
      var n := |b| - 1;
      assert a + b == (a + b[..n]) + [b[n]] && b == b[..n] + [b[n]];
      TwiceInSum(a, b[..n], k);
      TwiceGrows(a + b[..n], b[n], k);
      TwiceGrows(b[..n], b[n], k);
      FirstOfSum(a, b[..n], k);
      FirstGrows(b[..n], b[n], k);
    }
  }

  // No key comes more often in the merge than in ours.
  ghost predicate OurOnce(base: seq<DraftLink>, ours: seq<DraftLink>, theirs: seq<DraftLink>, n: nat, k: string)
    requires n <= |ours|
  {
    (Twice(OurMerged(base, ours, theirs, n), k) ==> Twice(ours[..n], k)) &&
    (First(OurMerged(base, ours, theirs, n), k).Some? ==> First(ours[..n], k).Some?)
  }

  lemma OurKeysOnceStep(base: seq<DraftLink>, ours: seq<DraftLink>, theirs: seq<DraftLink>, n: nat, k: string)
    requires n < |ours| && PlainTypes(ours) && PlainTypes(theirs)
    requires OurOnce(base, ours, theirs, n, k)
    ensures OurOnce(base, ours, theirs, n + 1, k)
  {
    var l, again := ours[n], LinkKey(ours[n]) in Keys(ours[..n]);
    var b := Becomes(base, ours, theirs, l, again);
    OurNext(base, ours, theirs, n, k);
    OurMergedGrows(base, ours, theirs, n);
    BecomesKeepsKey(base, ours, theirs, l, again);
    if b.Some? { TwiceGrows(OurMerged(base, ours, theirs, n), b.value, k); }
  }

  lemma {:induction false} OurKeysOnce(base: seq<DraftLink>, ours: seq<DraftLink>, theirs: seq<DraftLink>, n: nat, k: string)
    requires n <= |ours| && PlainTypes(ours) && PlainTypes(theirs)
    ensures OurOnce(base, ours, theirs, n, k)
    decreases n
  {
    if n > 0 {
      OurKeysOnce(base, ours, theirs, n - 1, k);
      OurKeysOnceStep(base, ours, theirs, n - 1, k);
    }
  }

  lemma {:induction false} NewKeysOnce(theirs: seq<DraftLink>, added: seq<string>, k: string)
    requires forall a :: a in added ==> First(theirs, a).Some?
    requires forall i, j :: 0 <= i < j < |added| ==> added[i] != added[j]
    ensures !Twice(NewLinks(theirs, added), k)
  {
    if added != [] {
      var n := |added| - 1;
      assert added == added[..n] + [added[n]];
      NewKeysOnce(theirs, added[..n], k);
      NewFirst(theirs, added[..n], k);
      FirstHasKey(theirs, added[n]);
      TwiceGrows(NewLinks(theirs, added[..n]), NewLink(First(theirs, added[n]).value), k);
    }
  }

  /** When ours names each target once, so does the merge: its links are what their keys say. */
  lemma MergedKeysAreUnique(base: seq<DraftLink>, ours: seq<DraftLink>, theirs: seq<DraftLink>)
    requires PlainTypes(ours) && PlainTypes(theirs) && UniqueKeys(ours)
    ensures UniqueKeys(MergedLinks(base, ours, theirs))
  {
    var added := SortedKeys(Added(base, ours, theirs));
    forall a | a in added ensures First(theirs, a).Some? { FirstHasKey(theirs, a); }
    forall i, j | 0 <= i < j < |added| ensures added[i] != added[j] { SortedKeysOrdered(Added(base, ours, theirs), i, j); }
    assert ours[..|ours|] == ours;
    forall k ensures !Twice(MergedLinks(base, ours, theirs), k) {
      OurKeysOnce(base, ours, theirs, |ours|, k);
      NewKeysOnce(theirs, added, k);
      NewFirst(theirs, added, k);
      FirstHasKey(ours, k);
      TwiceInSum(OurMerged(base, ours, theirs, |ours|), NewLinks(theirs, added), k);
    }
  }

  // ---- a merged link keeps our id

  /**
   * Why a merge is renumbered before it is compared: a link theirs moved to another version keeps our id, and the patch
   * from ours to the merge adds the new link under the id it removes. Applied, it leaves no link at all.
   */
  lemma MergedLinkIsLostUnderItsId(ours: Draft, l: DraftLink, version: int)
    requires ours.links == [l] && !l.External() && version != l.to.version
    ensures var theirs := ours.(links := [l.(to := l.to.(version := version))]);
      var merged := Merged(ours, ours, theirs);
      merged.links == [l.(to := l.to.(version := version))] && merged.links[0].id == l.id &&
      Patched(ours, PatchBetween(ours, merged)).links == []
  {
    var moved := l.(to := l.to.(version := version));
    var theirs := ours.(links := [moved]);
    var k := LinkKey(l);
    assert LinkKey(moved) == k;
    FirstGrows([], l, k);
    FirstGrows([], moved, k);
    assert [] + [l] == [l] && [] + [moved] == [moved];
    assert ours.links[..0] == [];
    OurMergedGrows(ours.links, ours.links, theirs.links, 0);
    assert Added(ours.links, ours.links, theirs.links) == {} by {
      assert forall x :: x in theirs.links ==> x == moved;
      assert l in ours.links;
    }
    var merged := Merged(ours, ours, theirs);
    assert merged.links == [moved];
    LostUnderItsId(l, moved);
  }

  lemma LostUnderItsId(l: DraftLink, moved: DraftLink)
    requires moved.id == l.id && moved.to != l.to
    ensures LinkUpdates([l], [moved]) == [] && LinkRemoves([l], [moved]) == [l] && LinkAdds([l], [moved]) == [moved]
    ensures PatchedLinks([l], AddsOf([moved]), [], RemovesOf([l])) == []
  {
    NoMatch(l, moved);
    assert [] + [l] == [l] && [] + [-1] == [-1];
    UpdatesGrow([], [moved], [], l, -1);
    UnmatchedGrows([], [], l, -1);
    assert 0 !in [-1] + [-1] && [moved][..0] == [] && Free([], [-1] + [-1]) == [];
    LostWhenRemoved(l, moved);
  }

  lemma NoMatch(l: DraftLink, moved: DraftLink)
    requires moved.to != l.to
    ensures Exact([l], [moved]) == [-1] && Left([l], [moved]) == [l] && Loose([l], [moved]) == [-1]
  {
    assert [l] == [] + [l];
    MatchesGrows([], l, [moved], [], true);
    assert FirstFree([moved], [], l, true, 0) == -1;
    UnmatchedGrows([], [], l, -1);
    assert [] + [-1] == [-1];
    MatchesGrows([], l, [moved], [-1], false);
  }

  lemma LostWhenRemoved(l: DraftLink, moved: DraftLink)
    requires moved.id == l.id
    ensures PatchedLinks([l], AddsOf([moved]), [], RemovesOf([l])) == []
  {
    var links := [l] + LinksAdded(AddsOf([moved]));
    ReadBack([moved]);
    RemovesGrow([], l);
    assert [] + [l] == [l] && RemovesOf([l]) == [ById(l.id, map[])];
    var all := UpdatedAll(links, []);
    forall x | x in all ensures x.id == l.id {
      var i :| 0 <= i < |all| && all[i] == x;
      UpdatedIsTheLast(links[i], []);
    }
    NoneSurvive(all, RemovesOf([l]), l.id);
  }

  lemma {:induction false} NoneSurvive(ls: seq<DraftLink>, rs: seq<PatchLink>, id: string)
    requires forall l :: l in ls ==> l.id == id
    requires |rs| == 1 && rs[0].id == id
    ensures Surviving(ls, rs) == []
  {
    if ls != [] {
      assert ls[|ls| - 1] in ls && rs[0].id == ls[|ls| - 1].id;
      NoneSurvive(ls[..|ls| - 1], rs, id);
    }
  }
}
