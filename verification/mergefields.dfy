// What a three-way merge holds, field by field and link by link (contracts/domain/draftmerge.go).
module MergeFields {
  import opened Prelude
  import opened Domain
  import opened Drafts
  import opened DraftMerge

  // ---- fields

  /** The side that moved wins, ours when both did; the two conflict when both did, to different values. */
  predicate SideWins<T(==)>(base: T, ours: T, theirs: T, merged: T) {
    (ours != base ==> merged == ours) && (ours == base ==> merged == theirs)
  }

  predicate MovedTwice<T(==)>(base: T, ours: T, theirs: T) { base != ours && base != theirs && ours != theirs }

  /** The fields that merge, each on its own; all others are those of ours. */
  ghost predicate FieldsSay(base: Draft, ours: Draft, theirs: Draft, m: Draft) {
    m == ours.(props := m.props, owner := m.owner, state := m.state, deleted := m.deleted, links := m.links) &&
    SideWins(base.owner, ours.owner, theirs.owner, m.owner) && SideWins(base.state, ours.state, theirs.state, m.state) &&
    SideWins(base.deleted, ours.deleted, theirs.deleted, m.deleted) &&
    forall k :: SideWins(Lookup(base.props, k), Lookup(ours.props, k), Lookup(theirs.props, k), Lookup(m.props, k))
  }

  lemma MergedFieldsSay(base: Draft, ours: Draft, theirs: Draft)
    ensures FieldsSay(base, ours, theirs, Merged(base, ours, theirs))
  {
    forall k ensures SideWins(Lookup(base.props, k), Lookup(ours.props, k), Lookup(theirs.props, k), Lookup(Merged(base, ours, theirs).props, k)) {
      MergedPropsAt(base.props, ours.props, theirs.props, k);
    }
  }

  // ---- links

  // Two links are of one type, and of one node or one thing of another source whatever its version.
  function NameOf(l: DraftLink): string {
    "link:" + l.typ + ":" + if !l.to.IsZero() || l.target.IsZero() then l.to.id else "lnk:" + l.target.source + "/" + l.target.typ + "/" + l.target.key
  }

  lemma NameIsKey(l: DraftLink)
    ensures LinkKey(l) == NameOf(l)
  {
  }

  /** The links of a side with their names. */
  datatype Side = Side(links: seq<DraftLink>, names: seq<string>)

  ghost predicate IsSide(s: Side, ls: seq<DraftLink>) {
    s.links == ls && |s.names| == |ls| && forall i :: 0 <= i < |ls| ==> s.names[i] == NameOf(ls[i])
  }

  // The first link of a name stands at a position.
  predicate FirstAt(s: Side, name: string, i: nat) {
    i < |s.links| && i < |s.names| && s.names[i] == name && name !in s.names[..i]
  }

  // Two links are worth the same: the version of their target and their properties.
  predicate SameWorth(a: DraftLink, b: DraftLink) { a.to.version == b.to.version && a.target == b.target && a.props == b.props }

  /** A link name has first links of the same worth, or none, on two sides. */
  ghost predicate Agree(a: Side, b: Side, name: string) {
    (name !in a.names && name !in b.names) ||
    exists i: nat, j: nat :: FirstAt(a, name, i) && FirstAt(b, name, j) && SameWorth(a.links[i], b.links[j])
  }

  // What becomes of our i-th link: it stays when it is not the first of its name or when ours moved it; else it takes the
  // worth of theirs, and goes when theirs has none.
  ghost predicate FateIs(base: Side, ours: Side, theirs: Side, i: nat, fate: Option<DraftLink>) {
    i < |ours.links| && i < |ours.names| &&
    var l, name := ours.links[i], ours.names[i];
    if name in ours.names[..i] || !Agree(base, ours, name) then fate == Some(l)
    else if name !in theirs.names then fate == None
    else fate.Some? && TakesWorth(theirs, name, l, fate.value)
  }

  ghost predicate TakesWorth(theirs: Side, name: string, l: DraftLink, now: DraftLink) {
    exists j: nat :: FirstAt(theirs, name, j) && var t := theirs.links[j]; now == DraftLink(l.id, l.typ, t.to, t.target, t.props)
  }

  // A link that theirs added, that ours had not and had not removed.
  ghost predicate Brought(base: Side, ours: Side, theirs: Side, name: string) {
    name in theirs.names && name !in ours.names && Agree(base, ours, name)
  }

  // The fates of our first links, in order.
  ghost predicate OursSay(base: Side, ours: Side, theirs: Side, n: nat, at: seq<nat>, out: seq<DraftLink>) {
    |out| == |at| && (forall j, k :: 0 <= j < k < |at| ==> at[j] < at[k]) &&
    (forall k :: 0 <= k < |at| ==> at[k] < n && FateIs(base, ours, theirs, at[k], Some(out[k]))) &&
    forall i: nat :: i < n && i !in at ==> FateIs(base, ours, theirs, i, None)
  }

  // The links that theirs brings, by name, each without an id.
  ghost predicate BroughtSay(base: Side, ours: Side, theirs: Side, names: seq<string>, out: seq<DraftLink>) {
    |out| == |names| && (forall j, k :: 0 <= j < k < |names| ==> Leq(names[j], names[k]) && names[j] != names[k]) &&
    (forall name :: name in names <==> Brought(base, ours, theirs, name)) &&
    forall k :: 0 <= k < |names| ==> BroughtIs(theirs, names[k], out[k])
  }

  ghost predicate BroughtIs(theirs: Side, name: string, l: DraftLink) {
    exists j: nat :: FirstAt(theirs, name, j) && var t := theirs.links[j]; l == DraftLink("", t.typ, t.to, t.target, t.props)
  }

  /** The links of a merge: what becomes of ours, in their order, then what theirs brings. */
  ghost predicate LinksSay(base: Side, ours: Side, theirs: Side, out: seq<DraftLink>) {
    exists at: seq<nat>, names: seq<string> :: |out| == |at| + |names| &&
      OursSay(base, ours, theirs, |ours.links|, at, out[..|at|]) && BroughtSay(base, ours, theirs, names, out[|at|..])
  }

  // The names are the keys of the links.
  ghost predicate Keyed(s: Side) {
    |s.names| == |s.links| && forall i :: 0 <= i < |s.links| ==> s.names[i] == LinkKey(s.links[i])
  }

  lemma SideIsKeyed(s: Side, ls: seq<DraftLink>)
    requires IsSide(s, ls)
    ensures Keyed(s)
  {
    forall i | 0 <= i < |ls| ensures s.names[i] == LinkKey(ls[i]) { NameIsKey(ls[i]); }
  }

  function Less(s: Side, n: nat): Side
    requires n <= |s.links| && n <= |s.names|
  {
    Side(s.links[..n], s.names[..n])
  }

  lemma {:induction false} FirstIsAt(s: Side, name: string)
    requires Keyed(s)
    ensures FirstSays(s, name, First(s.links, name))
    decreases |s.links|
  {
    if s.links != [] {
      var n := |s.links| - 1;
      FirstIsAt(Less(s, n), name);
      FirstOfMore(s.links, n, s.names[n], name);
      FirstMore(s, n, name, First(s.links[..n], name), First(s.links, name));
    }
  }

  lemma FirstOfMore(ls: seq<DraftLink>, n: nat, key: string, name: string)
    requires |ls| == n + 1 && key == LinkKey(ls[n])
    ensures First(ls, name) == if First(ls[..n], name).Some? then First(ls[..n], name) else if key == name then Some(ls[n]) else None
  {
  }

  ghost predicate FirstSays(s: Side, name: string, first: Option<DraftLink>) {
    (first.None? <==> name !in s.names) && (first.Some? ==> exists i: nat :: FirstAt(s, name, i) && s.links[i] == first.value)
  }

  lemma FirstMore(s: Side, n: nat, name: string, before: Option<DraftLink>, now: Option<DraftLink>)
    requires |s.links| == |s.names| == n + 1 && FirstSays(Less(s, n), name, before)
    requires now == if before.Some? then before else if s.names[n] == name then Some(s.links[n]) else None
    ensures FirstSays(s, name, now)
  {
    LastSplits(s.names);
    if before.Some? {
      var i: nat :| FirstAt(Less(s, n), name, i) && s.links[..n][i] == before.value;
      assert s.names[..n][..i] == s.names[..i];
      assert FirstAt(s, name, i);
    } else if s.names[n] == name {
      assert FirstAt(s, name, n);
    }
  }

  lemma OneFirst(s: Side, name: string, i: nat)
    requires Keyed(s) && FirstAt(s, name, i)
    ensures First(s.links, name) == Some(s.links[i])
  {
    FirstIsAt(s, name);
    FirstIs(s, name, i, First(s.links, name));
  }

  lemma FirstIs(s: Side, name: string, i: nat, first: Option<DraftLink>)
    requires FirstSays(s, name, first) && FirstAt(s, name, i)
    ensures first == Some(s.links[i])
  {
    assert s.names[i] in s.names;
    var k: nat :| FirstAt(s, name, k) && s.links[k] == first.value;
    SameFirst(s, name, i, k);
    SameFirst(s, name, k, i);
  }

  lemma SameFirst(s: Side, name: string, i: nat, k: nat)
    requires FirstAt(s, name, i) && FirstAt(s, name, k)
    ensures k >= i
  {
    if k < i {
      InPrefix(s.names, i, k);
      assert false;
    }
  }

  lemma InPrefix(names: seq<string>, i: nat, k: nat)
    requires k < i <= |names|
    ensures names[k] in names[..i]
  {
    assert names[..i][k] == names[k];
  }

  lemma UntouchedAgree(base: Side, ours: Side, name: string)
    requires Keyed(base) && Keyed(ours)
    ensures Untouched(base.links, ours.links, name) <==> Agree(base, ours, name)
  {
    FirstIsAt(base, name);
    FirstIsAt(ours, name);
    forall i: nat, j: nat | FirstAt(base, name, i) && FirstAt(ours, name, j)
      ensures First(base.links, name) == Some(base.links[i]) && First(ours.links, name) == Some(ours.links[j])
    {
      OneFirst(base, name, i);
      OneFirst(ours, name, j);
    }
  }

  lemma KeyIsNamed(s: Side, name: string)
    requires Keyed(s)
    ensures name in Keys(s.links) <==> name in s.names
  {
    FirstHasKey(s.links, name);
    FirstIsAt(s, name);
  }

  // What the merge makes of a link of ours of some key.
  function FateOf(l: DraftLink, again: bool, untouched: bool, t: Option<DraftLink>): Option<DraftLink> {
    if again || !untouched then Some(l) else if t.Some? then Some(Take(l, t.value)) else None
  }

  ghost function FateAt(base: Side, ours: Side, theirs: Side, i: nat): Option<DraftLink>
    requires i < |ours.links| && i < |ours.names|
  {
    var name := ours.names[i];
    FateOf(ours.links[i], name in ours.names[..i], Untouched(base.links, ours.links, name), First(theirs.links, name))
  }

  lemma FateSays(base: Side, ours: Side, theirs: Side, i: nat)
    requires Keyed(base) && Keyed(ours) && Keyed(theirs) && i < |ours.links|
    ensures FateIs(base, ours, theirs, i, FateAt(base, ours, theirs, i))
  {
    var name := ours.names[i];
    UntouchedAgree(base, ours, name);
    FirstIsAt(theirs, name);
    if First(theirs.links, name).Some? {
      var j: nat :| FirstAt(theirs, name, j) && theirs.links[j] == First(theirs.links, name).value;
      assert TakesWorth(theirs, name, ours.links[i], Take(ours.links[i], theirs.links[j]));
    }
  }

  lemma OurMergedNext(base: Side, ours: Side, theirs: Side, last: nat, n: nat)
    requires Keyed(ours) && last < |ours.links| && n == last + 1
    ensures OurMerged(base.links, ours.links, theirs.links, n) ==
            Snoc(OurMerged(base.links, ours.links, theirs.links, last), FateAt(base, ours, theirs, last))
  {
    assert Keyed(Less(ours, last));
    KeyIsNamed(Less(ours, last), ours.names[last]);
    assert ours.names[last] == LinkKey(ours.links[last]);
  }

  function Snoc(ls: seq<DraftLink>, l: Option<DraftLink>): seq<DraftLink> { if l.Some? then ls + [l.value] else ls }

  lemma OursMore(base: Side, ours: Side, theirs: Side, last: nat, n: nat, at: seq<nat>, out: seq<DraftLink>, fate: Option<DraftLink>)
    requires OursSay(base, ours, theirs, last, at, out) && n == last + 1 && FateIs(base, ours, theirs, last, fate)
    ensures OursSay(base, ours, theirs, n, if fate.Some? then at + [last] else at, Snoc(out, fate))
  {
    if fate.Some? { OursKept(base, ours, theirs, last, n, at, out, fate.value); } else { OursGone(base, ours, theirs, last, n, at, out); }
  }

  lemma OursGone(base: Side, ours: Side, theirs: Side, last: nat, n: nat, at: seq<nat>, out: seq<DraftLink>)
    requires OursSay(base, ours, theirs, last, at, out) && n == last + 1 && FateIs(base, ours, theirs, last, None)
    ensures OursSay(base, ours, theirs, n, at, out)
  {
    forall i: nat | i < n && i !in at ensures FateIs(base, ours, theirs, i, None) {
      if i < last { assert FateIs(base, ours, theirs, i, None); }
    }
  }

  lemma OursKept(base: Side, ours: Side, theirs: Side, last: nat, n: nat, at: seq<nat>, out: seq<DraftLink>, l: DraftLink)
    requires OursSay(base, ours, theirs, last, at, out) && n == last + 1 && FateIs(base, ours, theirs, last, Some(l))
    ensures OursSay(base, ours, theirs, n, at + [last], out + [l])
  {
    forall k | 0 <= k <= |at| ensures (at + [last])[k] < n && FateIs(base, ours, theirs, (at + [last])[k], Some((out + [l])[k])) {
      if k < |at| { assert (at + [last])[k] == at[k] && (out + [l])[k] == out[k]; }
    }
    forall i: nat | i < n && i !in at + [last] ensures FateIs(base, ours, theirs, i, None) {
      assert i != last && i !in at;
    }
  }

  lemma {:induction false} OursAreSaid(base: Side, ours: Side, theirs: Side, n: nat) returns (at: seq<nat>)
    requires Keyed(base) && Keyed(ours) && Keyed(theirs) && n <= |ours.links|
    ensures OursSay(base, ours, theirs, n, at, OurMerged(base.links, ours.links, theirs.links, n))
    decreases n
  {
    if n == 0 {
      at := [];
    } else {
      var last := n - 1;
      at := OursAreSaid(base, ours, theirs, last);
      FateSays(base, ours, theirs, last);
      OurMergedNext(base, ours, theirs, last, n);
      var fate := FateAt(base, ours, theirs, last);
      OursMore(base, ours, theirs, last, n, at, OurMerged(base.links, ours.links, theirs.links, last), fate);
      if fate.Some? { at := at + [last]; }
    }
  }

  lemma {:induction false} NewLinksAre(theirs: Side, names: seq<string>)
    requires Keyed(theirs) && forall k :: k in names ==> First(theirs.links, k).Some?
    ensures |NewLinks(theirs.links, names)| == |names|
    ensures forall k :: 0 <= k < |names| ==> BroughtIs(theirs, names[k], NewLinks(theirs.links, names)[k])
  {
    if names != [] {
      var n := |names| - 1;
      assert names[n] in names;
      NewLinksAre(theirs, names[..n]);
      NewLinkIs(theirs, names[n]);
      NewLinksMore(theirs.links, names, n);
      BroughtMore(theirs, names, n, NewLinks(theirs.links, names[..n]), NewLink(First(theirs.links, names[n]).value));
    }
  }

  lemma NewLinksMore(theirs: seq<DraftLink>, names: seq<string>, n: nat)
    requires |names| == n + 1 && forall k :: k in names ==> First(theirs, k).Some?
    ensures names[n] in names && (forall k :: k in names[..n] ==> k in names)
    ensures NewLinks(theirs, names) == NewLinks(theirs, names[..n]) + [NewLink(First(theirs, names[n]).value)]
  {
  }

  lemma BroughtMore(theirs: Side, names: seq<string>, n: nat, before: seq<DraftLink>, l: DraftLink)
    requires |names| == n + 1 && |before| == n && BroughtIs(theirs, names[n], l)
    requires forall k :: 0 <= k < n ==> BroughtIs(theirs, names[k], before[k])
    ensures forall k :: 0 <= k <= n ==> BroughtIs(theirs, names[k], (before + [l])[k])
  {
  }

  lemma NewLinkIs(theirs: Side, name: string)
    requires Keyed(theirs) && First(theirs.links, name).Some?
    ensures BroughtIs(theirs, name, NewLink(First(theirs.links, name).value))
  {
    FirstIsAt(theirs, name);
  }

  lemma AddedIsBrought(base: Side, ours: Side, theirs: Side, name: string)
    requires Keyed(base) && Keyed(ours) && Keyed(theirs)
    ensures name in Added(base.links, ours.links, theirs.links) <==> Brought(base, ours, theirs, name)
  {
    KeyIsNamed(theirs, name);
    KeyIsNamed(ours, name);
    UntouchedAgree(base, ours, name);
  }

  lemma AddedSay(base: Side, ours: Side, theirs: Side)
    requires Keyed(base) && Keyed(ours) && Keyed(theirs)
    ensures var names := SortedKeys(Added(base.links, ours.links, theirs.links));
            (forall k :: k in names ==> First(theirs.links, k).Some?) &&
            BroughtSay(base, ours, theirs, names, NewLinks(theirs.links, names))
  {
    var added := Added(base.links, ours.links, theirs.links);
    var names := SortedKeys(added);
    forall name ensures name in names <==> Brought(base, ours, theirs, name) { AddedIsBrought(base, ours, theirs, name); }
    AddedAreFirst(base.links, ours.links, theirs.links);
    NewLinksAre(theirs, names);
    SortedAscend(added);
  }

  lemma AddedAreFirst(base: seq<DraftLink>, ours: seq<DraftLink>, theirs: seq<DraftLink>)
    ensures forall k :: k in SortedKeys(Added(base, ours, theirs)) ==> First(theirs, k).Some?
  {
    forall k | k in SortedKeys(Added(base, ours, theirs)) ensures First(theirs, k).Some? { FirstHasKey(theirs, k); }
  }

  lemma MergedLinksSay(base: Side, ours: Side, theirs: Side)
    requires Keyed(base) && Keyed(ours) && Keyed(theirs)
    ensures LinksSay(base, ours, theirs, MergedLinks(base.links, ours.links, theirs.links))
  {
    var names := SortedKeys(Added(base.links, ours.links, theirs.links));
    var at := OursAreSaid(base, ours, theirs, |ours.links|);
    AddedSay(base, ours, theirs);
    var mine, news := OurMerged(base.links, ours.links, theirs.links, |ours.links|), NewLinks(theirs.links, names);
    assert MergedLinks(base.links, ours.links, theirs.links) == mine + news;
    BothSay(base, ours, theirs, at, names, mine, news);
  }

  lemma BothSay(base: Side, ours: Side, theirs: Side, at: seq<nat>, names: seq<string>, mine: seq<DraftLink>, news: seq<DraftLink>)
    requires OursSay(base, ours, theirs, |ours.links|, at, mine) && BroughtSay(base, ours, theirs, names, news)
    ensures LinksSay(base, ours, theirs, mine + news)
  {
    assert (mine + news)[..|at|] == mine && (mine + news)[|at|..] == news;
  }

  // ---- conflicts

  /** The conflicts name the fields that both sides moved to different values, and the links whose worth they did. */
  ghost predicate ConflictSays(base: Draft, ours: Draft, theirs: Draft, b: Side, o: Side, t: Side, name: string) {
    (name == "owner" && MovedTwice(base.owner, ours.owner, theirs.owner)) ||
    (name == "state" && MovedTwice(base.state, ours.state, theirs.state)) ||
    (exists k :: name == "props." + k && MovedTwice(Lookup(base.props, k), Lookup(ours.props, k), Lookup(theirs.props, k))) ||
    (!Agree(b, o, name) && !Agree(b, t, name) && !Agree(o, t, name))
  }

  /** A merge holds what its sides say, field by field and link by link, and names exactly what they moved apart. */
  lemma MergeSays(base: Draft, ours: Draft, theirs: Draft, b: Side, o: Side, t: Side, name: string)
    requires IsSide(b, base.links) && IsSide(o, ours.links) && IsSide(t, theirs.links)
    ensures FieldsSay(base, ours, theirs, Merged(base, ours, theirs))
    ensures LinksSay(b, o, t, Merged(base, ours, theirs).links)
    ensures Named(base, ours, theirs, name) <==> ConflictSays(base, ours, theirs, b, o, t, name)
  {
    MergedFieldsSay(base, ours, theirs);
    SideIsKeyed(b, base.links);
    SideIsKeyed(o, ours.links);
    SideIsKeyed(t, theirs.links);
    MergedLinksSay(b, o, t);
    ConflictIsNamed(base, ours, theirs, b, o, t, name);
  }

  lemma ConflictIsNamed(base: Draft, ours: Draft, theirs: Draft, b: Side, o: Side, t: Side, name: string)
    requires Keyed(b) && Keyed(o) && Keyed(t) && b.links == base.links && o.links == ours.links && t.links == theirs.links
    ensures Named(base, ours, theirs, name) <==> ConflictSays(base, ours, theirs, b, o, t, name)
  {
    LinkApart(b, o, t, name);
    PropsApart(base, ours, theirs, name);
    FieldsApart(base, ours, theirs, name, LinkConflicts(b.links, o.links, t.links, name));
  }

  lemma FieldsApart(base: Draft, ours: Draft, theirs: Draft, name: string, apart: bool)
    requires apart <==> LinkConflicts(base.links, ours.links, theirs.links, name)
    ensures Named(base, ours, theirs, name) <==>
      (exists k :: PropConflicts(base.props, ours.props, theirs.props, k) && name == ConflictProp(k)) ||
      (MovedTwice(base.owner, ours.owner, theirs.owner) && name == "owner") ||
      (MovedTwice(base.state, ours.state, theirs.state) && name == "state") || apart
  {
  }

  lemma LinkApart(b: Side, o: Side, t: Side, name: string)
    requires Keyed(b) && Keyed(o) && Keyed(t)
    ensures LinkConflicts(b.links, o.links, t.links, name) <==> !Agree(b, o, name) && !Agree(b, t, name) && !Agree(o, t, name)
  {
    UntouchedAgree(b, o, name);
    UntouchedAgree(b, t, name);
    UntouchedAgree(o, t, name);
  }

  lemma PropsApart(base: Draft, ours: Draft, theirs: Draft, name: string)
    ensures (exists k :: PropConflicts(base.props, ours.props, theirs.props, k) && name == ConflictProp(k)) <==>
            exists k :: name == "props." + k && MovedTwice(Lookup(base.props, k), Lookup(ours.props, k), Lookup(theirs.props, k))
  {
    forall k ensures ConflictProp(k) == "props." + k { }
  }
}
