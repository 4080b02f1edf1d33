// Applying the patch between two drafts to the first gives the second: when, and with which link ids.
module DiffApply {
  import opened Prelude
  import opened Domain
  import opened Drafts

  // ---- what a draft's links hold, their ids aside

  datatype Content = Content(typ: string, to: NodeRef, target: Url, props: map<string, Json>)

  ghost function ContentOf(l: DraftLink): Content { Content(l.typ, l.to, l.target, l.props) }

  ghost function Bag(ls: seq<DraftLink>): multiset<Content> {
    if ls == [] then multiset{} else Bag(ls[..|ls| - 1]) + multiset{ContentOf(ls[|ls| - 1])}
  }

  lemma BagGrows(ls: seq<DraftLink>, l: DraftLink)
    ensures Bag(ls + [l]) == Bag(ls) + multiset{ContentOf(l)}
  {
    assert (ls + [l])[..|ls|] == ls;
  }

  lemma {:induction false} BagSize(ls: seq<DraftLink>)
    ensures |Bag(ls)| == |ls|
  {
    if ls != [] { BagSize(ls[..|ls| - 1]); }
  }

  lemma {:induction false} InBag(ls: seq<DraftLink>, c: Content)
    requires c in Bag(ls)
    ensures exists l :: l in ls && ContentOf(l) == c
  {
    var n := |ls| - 1;
    if ContentOf(ls[n]) != c {
      InBag(ls[..n], c);
      var l :| l in ls[..n] && ContentOf(l) == c;
      assert l in ls;
    } else {
      assert ls[n] in ls;
    }
  }

  // ---- the links of the target are the matched ones and the free ones

  // The links of the target the matches took.
  ghost function Taken(to: seq<DraftLink>, m: seq<int>): seq<DraftLink> {
    if m == [] then []
    else
      var i := m[|m| - 1];
      if 0 <= i < |to| then Taken(to, m[..|m| - 1]) + [to[i]] else Taken(to, m[..|m| - 1])
  }

  lemma {:induction false} FreeOfNothing(to: seq<DraftLink>)
    ensures Free(to, []) == to
  {
    if to != [] { FreeOfNothing(to[..|to| - 1]); }
  }

  lemma {:induction false} FreeUnchanged(to: seq<DraftLink>, taken: seq<int>, i: int)
    requires i < 0 || i >= |to| || i in taken
    ensures Free(to, taken + [i]) == Free(to, taken)
  {
    if to != [] { FreeUnchanged(to[..|to| - 1], taken, i); }
  }

  lemma BagFreeGrows(to: seq<DraftLink>, taken: seq<int>)
    requires to != []
    ensures var n := |to| - 1;
      Bag(Free(to, taken)) ==
        if n in taken then Bag(Free(to[..n], taken)) else Bag(Free(to[..n], taken)) + multiset{ContentOf(to[n])}
  {
    BagGrows(Free(to[..|to| - 1], taken), to[|to| - 1]);
  }

  lemma FreeLosesLast(to: seq<DraftLink>, taken: seq<int>)
    requires to != [] && |to| - 1 !in taken
    ensures Bag(Free(to, taken)) == Bag(Free(to, taken + [|to| - 1])) + multiset{ContentOf(to[|to| - 1])}
  {
    var n := |to| - 1;
    BagFreeGrows(to, taken);
    BagFreeGrows(to, taken + [n]);
    FreeUnchanged(to[..n], taken, n);
    assert n in taken + [n];
  }

  lemma PlusOne<T>(a: multiset<T>, b: multiset<T>, x: T, y: T)
    requires a == b + multiset{x}
    ensures a + multiset{y} == (b + multiset{y}) + multiset{x}
  {
  }

  lemma {:induction false} FreeLosesOne(to: seq<DraftLink>, taken: seq<int>, i: int)
    requires 0 <= i < |to| && i !in taken
    ensures Bag(Free(to, taken)) == Bag(Free(to, taken + [i])) + multiset{ContentOf(to[i])}
  {
    var n := |to| - 1;
    if i == n {
      FreeLosesLast(to, taken);
    } else {
      var more := taken + [i];
      FreeLosesOne(to[..n], taken, i);
      assert n in more <==> n in taken;
      BagFreeGrows(to, taken);
      BagFreeGrows(to, more);
      PlusOne(Bag(Free(to[..n], taken)), Bag(Free(to[..n], more)), ContentOf(to[i]), ContentOf(to[n]));
    }
  }

  lemma {:induction false} MatchesTake(ls: seq<DraftLink>, to: seq<DraftLink>, before: seq<int>, sameProps: bool)
    ensures var m := Matches(ls, to, before, sameProps);
      Bag(Free(to, before)) == Bag(Taken(to, m)) + Bag(Free(to, before + m))
  {
    var m := Matches(ls, to, before, sameProps);
    if ls == [] {
      assert before + m == before;
    } else {
      var n := |ls| - 1;
      MatchesTake(ls[..n], to, before, sameProps);
      assert before + m == (before + m[..n]) + [m[n]];
      if m[n] >= 0 {
        FreeLosesOne(to, before + m[..n], m[n]);
        BagGrows(Taken(to, m[..n]), to[m[n]]);
      } else {
        FreeUnchanged(to, before + m[..n], m[n]);
      }
    }
  }

  // The links of a list that found a match, as they are and with the properties of their match.
  ghost function Matched(ls: seq<DraftLink>, m: seq<int>): seq<DraftLink>
    requires |m| == |ls|
  {
    if ls == [] then []
    else
      var n := |ls| - 1;
      if m[n] >= 0 then Matched(ls[..n], m[..n]) + [ls[n]] else Matched(ls[..n], m[..n])
  }

  ghost function Rewritten(ls: seq<DraftLink>, to: seq<DraftLink>, m: seq<int>): seq<DraftLink>
    requires |m| == |ls|
  {
    if ls == [] then []
    else
      var n := |ls| - 1;
      if 0 <= m[n] < |to| then Rewritten(ls[..n], to, m[..n]) + [ls[n].(props := to[m[n]].props)]
      else Rewritten(ls[..n], to, m[..n])
  }

  lemma {:induction false} TakenAlike(ls: seq<DraftLink>, to: seq<DraftLink>, before: seq<int>, sameProps: bool)
    ensures var m := Matches(ls, to, before, sameProps);
      Bag(Rewritten(ls, to, m)) == Bag(Taken(to, m)) && (sameProps ==> Bag(Matched(ls, m)) == Bag(Taken(to, m)))
  {
    if ls != [] {
      var n := |ls| - 1;
      TakenAlike(ls[..n], to, before, sameProps);
      var m := Matches(ls, to, before, sameProps);
      assert m[..n] == Matches(ls[..n], to, before, sameProps);
      if m[n] >= 0 {
        BagGrows(Rewritten(ls[..n], to, m[..n]), ls[n].(props := to[m[n]].props));
        BagGrows(Matched(ls[..n], m[..n]), ls[n]);
        BagGrows(Taken(to, m[..n]), to[m[n]]);
      }
    }
  }

  // The links the patch means to leave: the ones held alike, the ones updated, the ones added.
  ghost function Kept(from: seq<DraftLink>, to: seq<DraftLink>): seq<DraftLink> { Matched(from, Exact(from, to)) }

  ghost function Reworked(from: seq<DraftLink>, to: seq<DraftLink>): seq<DraftLink> {
    Rewritten(Left(from, to), to, Loose(from, to))
  }

  lemma KeptIsTaken(from: seq<DraftLink>, to: seq<DraftLink>)
    ensures Bag(to) == Bag(Kept(from, to)) + Bag(Free(to, Exact(from, to)))
  {
    MatchesTake(from, to, [], true);
    TakenAlike(from, to, [], true);
    FreeOfNothing(to);
    assert [] + Exact(from, to) == Exact(from, to);
  }

  lemma ReworkedIsTaken(from: seq<DraftLink>, to: seq<DraftLink>)
    ensures Bag(Free(to, Exact(from, to))) == Bag(Reworked(from, to)) + Bag(LinkAdds(from, to))
  {
    MatchesTake(Left(from, to), to, Exact(from, to), false);
    TakenAlike(Left(from, to), to, Exact(from, to), false);
  }

  /** The links the patch means to leave hold what the target's links hold. */
  lemma MeantIsTheTarget(from: seq<DraftLink>, to: seq<DraftLink>)
    ensures Bag(Kept(from, to)) + Bag(Reworked(from, to)) + Bag(LinkAdds(from, to)) == Bag(to)
  {
    KeptIsTaken(from, to);
    ReworkedIsTaken(from, to);
  }

  // ---- no patch, no difference

  lemma {:induction false} BagSplits(ls: seq<DraftLink>, m: seq<int>)
    requires |m| == |ls|
    ensures Bag(ls) == Bag(Matched(ls, m)) + Bag(Unmatched(ls, m))
  {
    if ls != [] {
      var n := |ls| - 1;
      BagSplits(ls[..n], m[..n]);
      BagGrows(Matched(ls[..n], m[..n]), ls[n]);
      BagGrows(Unmatched(ls[..n], m[..n]), ls[n]);
    }
  }

  lemma {:induction false} UnmatchedHasNoTwin(ls: seq<DraftLink>, to: seq<DraftLink>, l: DraftLink, j: nat)
    requires l in Unmatched(ls, Matches(ls, to, [], true)) && j < |to| && j !in Matches(ls, to, [], true)
    ensures ContentOf(to[j]) != ContentOf(l)
  {
    var n := |ls| - 1;
    var m := Matches(ls, to, [], true);
    assert m[..n] == Matches(ls[..n], to, [], true) && [] + m[..n] == m[..n];
    assert j !in m[..n];
    if l in Unmatched(ls[..n], m[..n]) {
      UnmatchedHasNoTwin(ls[..n], to, l, j);
    }
  }

  lemma {:induction false} FreeIsFree(to: seq<DraftLink>, taken: seq<int>, l: DraftLink)
    requires l in Free(to, taken)
    ensures exists j: nat :: j < |to| && to[j] == l && j !in taken
  {
    var n := |to| - 1;
    if n in taken || l != to[n] {
      FreeIsFree(to[..n], taken, l);
      var j: nat :| j < n && to[..n][j] == l && j !in taken;
      assert to[j] == l;
    }
  }

  // A link left over has no twin among the free links of the target.
  lemma LeftHasNoTwin(from: seq<DraftLink>, to: seq<DraftLink>, c: Content)
    requires c in Bag(Left(from, to))
    ensures c !in Bag(Free(to, Exact(from, to)))
  {
    var left, free := Left(from, to), Free(to, Exact(from, to));
    if c in Bag(free) {
      InBag(left, c);
      var l :| l in left && ContentOf(l) == c;
      InBag(free, c);
      var twin :| twin in free && ContentOf(twin) == c;
      FreeIsFree(to, Exact(from, to), twin);
      var j: nat :| j < |to| && to[j] == twin && j !in Exact(from, to);
      UnmatchedHasNoTwin(from, to, l, j);
    }
  }

  lemma SharedAndLeft(from: seq<DraftLink>, to: seq<DraftLink>)
    ensures Bag(from) == Bag(Kept(from, to)) + Bag(Left(from, to))
    ensures Bag(to) == Bag(Kept(from, to)) + Bag(Free(to, Exact(from, to)))
  {
    BagSplits(from, Exact(from, to));
    MatchesTake(from, to, [], true);
    TakenAlike(from, to, [], true);
    FreeOfNothing(to);
    assert [] + Exact(from, to) == Exact(from, to);
  }

  lemma Cancel<T>(a: multiset<T>, b: multiset<T>, c: multiset<T>)
    ensures a + b == a + c <==> b == c
  {
    assert (a + b) - a == b && (a + c) - a == c;
  }

  lemma LeftIsNotFree(from: seq<DraftLink>, to: seq<DraftLink>)
    ensures Bag(from) == Bag(to) <==> Left(from, to) == [] && Free(to, Exact(from, to)) == []
  {
    var left, free := Left(from, to), Free(to, Exact(from, to));
    SharedAndLeft(from, to);
    Cancel(Bag(Kept(from, to)), Bag(left), Bag(free));
    BagSize(left);
    BagSize(free);
    if Bag(left) == Bag(free) && |left| > 0 {
      var c :| c in Bag(left);
      LeftHasNoTwin(from, to, c);
    }
  }

  lemma {:induction false} LeftIsPatched(left: seq<DraftLink>, to: seq<DraftLink>, before: seq<int>)
    ensures var m := Matches(left, to, before, false);
      |UpdatesOf(left, to, m)| + |RemovesOf(Unmatched(left, m))| == |left|
  {
    if left != [] {
      var n := |left| - 1;
      LeftIsPatched(left[..n], to, before);
      var m := Matches(left, to, before, false);
      assert m[..n] == Matches(left[..n], to, before, false);
      var gone := Unmatched(left[..n], m[..n]);
      RemovesGrow(gone, left[n]);
    }
  }

  lemma AddsSize(ls: seq<DraftLink>)
    ensures |AddsOf(ls)| == |ls|
  {
  }

  /** The diff is nil exactly when the two drafts hold the same: no link moves, none is touched, none is missing. */
  lemma DiffIsNilWhenNothingDiffers(from: Draft, to: Draft)
    ensures Diff(from, to) == None <==>
      from.props == to.props && from.owner == to.owner && from.state == to.state && from.deleted == to.deleted &&
      Bag(from.links) == Bag(to.links)
  {
    var p := PatchBetween(from, to);
    LeftIsNotFree(from.links, to.links);
    LeftIsPatched(Left(from.links, to.links), to.links, Exact(from.links, to.links));
    AddsSize(LinkAdds(from.links, to.links));
    assert p.addLinks == [] && p.updateLinks == [] && p.removeLinks == [] <==> Bag(from.links) == Bag(to.links) by {
      if Left(from.links, to.links) == [] {
        assert Exact(from.links, to.links) + Loose(from.links, to.links) == Exact(from.links, to.links);
      }
    }
    PropsDiffEmpty(from.props, to.props);
  }

  lemma PropsDiffEmpty(from: map<string, Json>, to: map<string, Json>)
    ensures PropsDiff(from, to) == map[] && SortedKeys(from.Keys - to.Keys) == [] <==> from == to
  {
    if PropsDiff(from, to) == map[] && SortedKeys(from.Keys - to.Keys) == [] {
      forall k | k in from.Keys + to.Keys ensures Lookup(from, k) == Lookup(to, k) {
        if k in to { assert k !in PropsDiff(from, to); }
        assert k in SortedKeys(from.Keys - to.Keys) <==> k in from && k !in to;
      }
      SameLookups(from, to);
    }
  }

  // ---- applying the patch

  ghost predicate DistinctIds(ls: seq<DraftLink>) {
    forall i, j :: 0 <= i < j < |ls| ==> ls[i].id != ls[j].id
  }

  ghost predicate HasId(ls: seq<DraftLink>, id: string) { exists l :: l in ls && l.id == id }

  // An added link says one target only, as a link read back from a patch does.
  predicate OneTarget(l: DraftLink) {
    if l.External() then l.to == NodeRef("", 0) else l.target == NoUrl
  }

  // An added link survives the updates and the removals of its patch, which name links by their id.
  ghost predicate Stands(l: DraftLink, us: seq<PatchLink>, rs: seq<PatchLink>) {
    OneTarget(l) && !Names(rs, l.id) && Updated(l, us) == l
  }

  ghost function LastFor(us: seq<PatchLink>, id: string): Option<map<string, Json>> {
    if us == [] then None
    else if us[|us| - 1].id == id then Some(us[|us| - 1].props)
    else LastFor(us[..|us| - 1], id)
  }

  lemma {:induction false} UpdatedIsTheLast(l: DraftLink, us: seq<PatchLink>)
    ensures Updated(l, us) == if LastFor(us, l.id).Some? then l.(props := LastFor(us, l.id).value) else l
  {
    if us != [] { UpdatedIsTheLast(l, us[..|us| - 1]); }
  }

  lemma {:induction false} LastForNamed(us: seq<PatchLink>, id: string)
    ensures LastFor(us, id).Some? ==> Names(us, id)
  {
    if us != [] {
      var n := |us| - 1;
      LastForNamed(us[..n], id);
      if Names(us[..n], id) {
        var i :| 0 <= i < n && us[..n][i].id == id;
        assert us[i].id == id;
      }
    }
  }

  lemma {:induction false} SurvivingSplits(a: seq<DraftLink>, b: seq<DraftLink>, rs: seq<PatchLink>)
    ensures Surviving(a + b, rs) == Surviving(a, rs) + Surviving(b, rs)
  {
    if b == [] {
      assert a + b == a;
    } else {
      var n := |b| - 1;
      assert (a + b)[..|a + b| - 1] == a + b[..n];
      SurvivingSplits(a, b[..n], rs);
    }
  }

  lemma {:induction false} SurvivorsAreUnnamed(ls: seq<DraftLink>, rs: seq<PatchLink>, l: DraftLink)
    requires l in Surviving(ls, rs)
    ensures l in ls && !Names(rs, l.id)
  {
    var n := |ls| - 1;
    if Names(rs, ls[n].id) || l != ls[n] { SurvivorsAreUnnamed(ls[..n], rs, l); }
  }

  lemma {:induction false} AllSurvive(ls: seq<DraftLink>, rs: seq<PatchLink>)
    requires forall l :: l in ls ==> !Names(rs, l.id)
    ensures Surviving(ls, rs) == ls
  {
    if ls != [] {
      assert forall l :: l in ls[..|ls| - 1] ==> l in ls;
      AllSurvive(ls[..|ls| - 1], rs);
    }
  }

  lemma {:induction false} ReadBack(ls: seq<DraftLink>)
    ensures |LinksAdded(AddsOf(ls))| == |ls|
    ensures forall i :: 0 <= i < |ls| ==> LinksAdded(AddsOf(ls))[i] == AsLink(AsAdded(ls[i]))
  {
    if ls != [] {
      var n := |ls| - 1;
      ReadBack(ls[..n]);
      assert AddsOf(ls)[..|AddsOf(ls)| - 1] == AddsOf(ls[..n]);
    }
  }

  lemma ReadBackHasOneTarget(l: DraftLink)
    ensures OneTarget(AsLink(AsAdded(l))) && AsLink(AsAdded(l)).id == l.id
    ensures AsLink(AsAdded(l)) == l <==> OneTarget(l)
  {
  }

  // What the patch makes of the links it adds.
  ghost function AddsAfter(ls: seq<DraftLink>, us: seq<PatchLink>, rs: seq<PatchLink>): seq<DraftLink> {
    Surviving(UpdatedAll(LinksAdded(AddsOf(ls)), us), rs)
  }

  lemma AddedLinksStand(ls: seq<DraftLink>, us: seq<PatchLink>, rs: seq<PatchLink>)
    ensures multiset(AddsAfter(ls, us, rs)) == multiset(ls) <==> forall l :: l in ls ==> Stands(l, us, rs)
  {
    ReadBack(ls);
    var back := UpdatedAll(LinksAdded(AddsOf(ls)), us);
    if forall l :: l in ls ==> Stands(l, us, rs) {
      forall i | 0 <= i < |ls| ensures back[i] == ls[i] {
        ReadBackHasOneTarget(ls[i]);
        assert ls[i] in ls;
      }
      assert back == ls;
      AllSurvive(ls, rs);
    }
    if multiset(AddsAfter(ls, us, rs)) == multiset(ls) {
      forall l | l in ls ensures Stands(l, us, rs) {
        assert l in multiset(AddsAfter(ls, us, rs));
        KeptLinkStands(ls, us, rs, l);
      }
    }
  }

  lemma KeptLinkStands(ls: seq<DraftLink>, us: seq<PatchLink>, rs: seq<PatchLink>, l: DraftLink)
    requires l in AddsAfter(ls, us, rs)
    ensures Stands(l, us, rs)
  {
    ReadBack(ls);
    var back := UpdatedAll(LinksAdded(AddsOf(ls)), us);
    SurvivorsAreUnnamed(back, rs, l);
    var i :| 0 <= i < |back| && back[i] == l;
    ReadBackHasOneTarget(ls[i]);
    UpdatedIsTheLast(LinksAdded(AddsOf(ls))[i], us);
    UpdatedIsTheLast(l, us);
  }

  // ---- what the patch makes of the links of the first draft

  lemma {:induction false} UpdatesNameLeft(left: seq<DraftLink>, to: seq<DraftLink>, m: seq<int>, id: string)
    requires |m| == |left| && Names(UpdatesOf(left, to, m), id)
    ensures HasId(left, id)
  {
    var n := |left| - 1;
    var before := UpdatesOf(left[..n], to, m[..n]);
    if left[n].id == id {
      assert left[n] in left;
    } else {
      var i :| 0 <= i < |UpdatesOf(left, to, m)| && UpdatesOf(left, to, m)[i].id == id;
      assert before[i].id == id;
      UpdatesNameLeft(left[..n], to, m[..n], id);
      var l :| l in left[..n] && l.id == id;
      assert l in left;
    }
  }

  lemma {:induction false} RemovesAt(ls: seq<DraftLink>, i: nat)
    requires i < |ls|
    ensures |RemovesOf(ls)| == |ls| && RemovesOf(ls)[i].id == ls[i].id
  {
    AddsSizeOfRemoves(ls);
    AddsSizeOfRemoves(ls[..|ls| - 1]);
    if i < |ls| - 1 { RemovesAt(ls[..|ls| - 1], i); }
  }

  lemma RemovesName(ls: seq<DraftLink>, id: string)
    ensures Names(RemovesOf(ls), id) <==> HasId(ls, id)
  {
    AddsSizeOfRemoves(ls);
    forall i: nat | i < |ls| ensures RemovesOf(ls)[i].id == ls[i].id { RemovesAt(ls, i); }
    if HasId(ls, id) {
      var l :| l in ls && l.id == id;
      var i :| 0 <= i < |ls| && ls[i] == l;
      assert RemovesOf(ls)[i].id == id;
    }
    if Names(RemovesOf(ls), id) {
      var i :| 0 <= i < |ls| && RemovesOf(ls)[i].id == id;
      assert ls[i] in ls;
    }
  }

  lemma {:induction false} AddsSizeOfRemoves(ls: seq<DraftLink>)
    ensures |RemovesOf(ls)| == |ls|
  {
    if ls != [] { AddsSizeOfRemoves(ls[..|ls| - 1]); }
  }

  lemma {:induction false} UnmatchedIn(ls: seq<DraftLink>, m: seq<int>, l: DraftLink)
    requires |m| == |ls| && l in Unmatched(ls, m)
    ensures exists i :: 0 <= i < |ls| && ls[i] == l && m[i] < 0
  {
    var n := |ls| - 1;
    if m[n] >= 0 || l != ls[n] {
      UnmatchedIn(ls[..n], m[..n], l);
      var i :| 0 <= i < n && ls[..n][i] == l && m[..n][i] < 0;
      assert ls[i] == l && m[i] < 0;
    }
  }

  lemma {:induction false} UnmatchedHas(ls: seq<DraftLink>, m: seq<int>, i: nat)
    requires |m| == |ls| && i < |ls| && m[i] < 0
    ensures ls[i] in Unmatched(ls, m)
  {
    var n := |ls| - 1;
    if i < n { UnmatchedHas(ls[..n], m[..n], i); }
  }

  // The one update a link left over gets is its own.
  lemma LastUpdate(left: seq<DraftLink>, to: seq<DraftLink>, m: seq<int>, n: nat)
    requires |m| == |left| && DistinctIds(left) && n == |left| - 1
    ensures Updated(left[n], UpdatesOf(left[..n], to, m[..n])) == left[n]
  {
    var us := UpdatesOf(left[..n], to, m[..n]);
    if Names(us, left[n].id) { UpdatesNameLeft(left[..n], to, m[..n], left[n].id); }
    LastForNamed(us, left[n].id);
    UpdatedIsTheLast(left[n], us);
  }

  lemma {:induction false} OwnUpdate(left: seq<DraftLink>, to: seq<DraftLink>, m: seq<int>, j: nat)
    requires |m| == |left| && DistinctIds(left) && j < |left|
    ensures Updated(left[j], UpdatesOf(left, to, m)) == if 0 <= m[j] < |to| then left[j].(props := to[m[j]].props) else left[j]
  {
    var n := |left| - 1;
    if j < n { OwnUpdate(left[..n], to, m[..n], j); } else { LastUpdate(left, to, m, n); }
    if 0 <= m[n] < |to| { UpdatedGrows(left[j], UpdatesOf(left[..n], to, m[..n]), ById(left[n].id, to[m[n]].props)); }
  }

  lemma {:induction false} LeftKeepsIds(ls: seq<DraftLink>, m: seq<int>)
    requires |m| == |ls| && DistinctIds(ls)
    ensures DistinctIds(Unmatched(ls, m))
  {
    if ls != [] {
      var n := |ls| - 1;
      LeftKeepsIds(ls[..n], m[..n]);
      if m[n] < 0 {
        forall i | 0 <= i < |Unmatched(ls[..n], m[..n])| ensures Unmatched(ls[..n], m[..n])[i].id != ls[n].id {
          UnmatchedIn(ls[..n], m[..n], Unmatched(ls[..n], m[..n])[i]);
        }
      }
    }
  }

  ghost predicate LeftOver(from: seq<DraftLink>, to: seq<DraftLink>, rs: seq<PatchLink>, us: seq<PatchLink>) {
    DistinctIds(from) && us == LinkUpdates(from, to) && rs == RemovesOf(LinkRemoves(from, to))
  }

  // A link held alike is neither updated nor removed.
  lemma KeptIsUntouched(from: seq<DraftLink>, to: seq<DraftLink>, us: seq<PatchLink>, rs: seq<PatchLink>, k: nat)
    requires LeftOver(from, to, rs, us) && k < |from| && Exact(from, to)[k] >= 0
    ensures Updated(from[k], us) == from[k] && !Names(rs, from[k].id)
  {
    var left := Left(from, to);
    forall l | l in left ensures l.id != from[k].id {
      UnmatchedIn(from, Exact(from, to), l);
    }
    if Names(us, from[k].id) { UpdatesNameLeft(left, to, Loose(from, to), from[k].id); }
    LastForNamed(us, from[k].id);
    UpdatedIsTheLast(from[k], us);
    RemovesName(LinkRemoves(from, to), from[k].id);
    forall l | l in LinkRemoves(from, to) ensures l.id != from[k].id {
      UnmatchedIn(left, Loose(from, to), l);
    }
  }

  // A link left over that is matched is not among those removed.
  lemma MatchedIsNotRemoved(from: seq<DraftLink>, to: seq<DraftLink>, j: nat)
    requires DistinctIds(Left(from, to)) && j < |Left(from, to)| && Loose(from, to)[j] >= 0
    ensures !HasId(LinkRemoves(from, to), Left(from, to)[j].id)
  {
    forall l | l in LinkRemoves(from, to) ensures l.id != Left(from, to)[j].id {
      UnmatchedIn(Left(from, to), Loose(from, to), l);
    }
  }

  // A link left over is updated with the properties of its match, or removed when it has none.
  lemma LeftIsReworked(from: seq<DraftLink>, to: seq<DraftLink>, us: seq<PatchLink>, rs: seq<PatchLink>, j: nat)
    requires LeftOver(from, to, rs, us) && j < |Left(from, to)|
    ensures var l, i := Left(from, to)[j], Loose(from, to)[j];
      (Names(rs, l.id) <==> i < 0) && (0 <= i < |to| ==> Updated(l, us) == l.(props := to[i].props)) && i < |to|
  {
    var left, m := Left(from, to), Loose(from, to);
    LeftKeepsIds(from, Exact(from, to));
    OwnUpdate(left, to, m, j);
    RemovesName(LinkRemoves(from, to), left[j].id);
    if m[j] < 0 { UnmatchedHas(left, m, j); } else { MatchedIsNotRemoved(from, to, j); }
    MatchIsInRange(left, to, Exact(from, to), j);
  }

  lemma {:induction false} MatchIsInRange(ls: seq<DraftLink>, to: seq<DraftLink>, before: seq<int>, j: nat)
    requires j < |ls|
    ensures Matches(ls, to, before, false)[j] < |to|
  {
    if j < |ls| - 1 { MatchIsInRange(ls[..|ls| - 1], to, before, j); }
  }

  lemma {:induction false} UnmatchedPrefix(ls: seq<DraftLink>, m: seq<int>, n: nat)
    requires |m| == |ls| && n <= |ls|
    ensures Unmatched(ls[..n], m[..n]) <= Unmatched(ls, m)
  {
    if n < |ls| {
      var k := |ls| - 1;
      UnmatchedPrefix(ls[..k], m[..k], n);
      assert ls[..k][..n] == ls[..n] && m[..k][..n] == m[..n];
    } else {
      assert ls[..n] == ls && m[..n] == m;
    }
  }

  // What the patch leaves of a list of links.
  ghost function After(ls: seq<DraftLink>, us: seq<PatchLink>, rs: seq<PatchLink>): seq<DraftLink> {
    Surviving(UpdatedAll(ls, us), rs)
  }

  lemma AfterGrows(ls: seq<DraftLink>, l: DraftLink, us: seq<PatchLink>, rs: seq<PatchLink>)
    ensures After(ls + [l], us, rs) == if Names(rs, l.id) then After(ls, us, rs) else After(ls, us, rs) + [Updated(l, us)]
  {
    UpdatedIsTheLast(l, us);
    assert UpdatedAll(ls + [l], us) == UpdatedAll(ls, us) + [Updated(l, us)];
    assert (UpdatedAll(ls, us) + [Updated(l, us)])[..|ls|] == UpdatedAll(ls, us);
  }

  lemma RewrittenSnoc(ls: seq<DraftLink>, l: DraftLink, to: seq<DraftLink>, m: seq<int>, i: int)
    requires |m| == |ls|
    ensures Rewritten(ls + [l], to, m + [i]) ==
            if 0 <= i < |to| then Rewritten(ls, to, m) + [l.(props := to[i].props)] else Rewritten(ls, to, m)
  {
    assert (ls + [l])[..|ls|] == ls && (m + [i])[..|m|] == m;
  }

  lemma RewrittenGrows(ls: seq<DraftLink>, to: seq<DraftLink>, m: seq<int>, p: nat)
    requires |m| == |ls| && p < |ls| && m[p] < |to|
    ensures Rewritten(ls[..p + 1], to, m[..p + 1]) ==
            if m[p] >= 0 then Rewritten(ls[..p], to, m[..p]) + [ls[p].(props := to[m[p]].props)] else Rewritten(ls[..p], to, m[..p])
  {
    PrefixGrows(ls, p);
    PrefixGrows(m, p);
    RewrittenSnoc(ls[..p], ls[p], to, m[..p], m[p]);
  }

  lemma MatchedGrows(ls: seq<DraftLink>, m: seq<int>, n: nat)
    requires |m| == |ls| && n < |ls|
    ensures Matched(ls[..n + 1], m[..n + 1]) == if m[n] >= 0 then Matched(ls[..n], m[..n]) + [ls[n]] else Matched(ls[..n], m[..n])
    ensures Unmatched(ls[..n + 1], m[..n + 1]) == if m[n] >= 0 then Unmatched(ls[..n], m[..n]) else Unmatched(ls[..n], m[..n]) + [ls[n]]
  {
    assert ls[..n + 1][..n] == ls[..n] && m[..n + 1][..n] == m[..n];
  }

  ghost function LeftCount(from: seq<DraftLink>, to: seq<DraftLink>, n: nat): nat
    requires n <= |from|
  {
    |Unmatched(from[..n], Exact(from, to)[..n])|
  }

  lemma LeftCountGrows(from: seq<DraftLink>, to: seq<DraftLink>, n: nat)
    requires n < |from|
    ensures LeftCount(from, to, n) <= LeftCount(from, to, n + 1) <= |Left(from, to)|
    ensures LeftCount(from, to, n + 1) == if Exact(from, to)[n] >= 0 then LeftCount(from, to, n) else LeftCount(from, to, n) + 1
    ensures Exact(from, to)[n] < 0 ==> Left(from, to)[LeftCount(from, to, n)] == from[n]
  {
    UnmatchedCount(from, Exact(from, to), n, n + 1);
  }

  lemma UnmatchedCount(ls: seq<DraftLink>, m: seq<int>, n: nat, next: nat)
    requires |m| == |ls| && n < |ls| && next == n + 1
    ensures |Unmatched(ls[..next], m[..next])| == |Unmatched(ls[..n], m[..n])| + if m[n] >= 0 then 0 else 1
    ensures |Unmatched(ls[..next], m[..next])| <= |Unmatched(ls, m)|
    ensures m[n] < 0 ==> Unmatched(ls, m)[|Unmatched(ls[..n], m[..n])|] == ls[n]
  {
    MatchedGrows(ls, m, n);
    UnmatchedPrefix(ls, m, next);
    var before, after := Unmatched(ls[..n], m[..n]), Unmatched(ls[..next], m[..next]);
    assert m[n] < 0 ==> after[|before|] == ls[n];
  }

  // What the patch means to leave of the first links of the first draft.
  ghost function Meant(from: seq<DraftLink>, to: seq<DraftLink>, n: nat): multiset<DraftLink>
    requires n <= |from| && LeftCount(from, to, n) <= |Left(from, to)|
  {
    var p := LeftCount(from, to, n);
    multiset(Matched(from[..n], Exact(from, to)[..n])) + multiset(Rewritten(Left(from, to)[..p], to, Loose(from, to)[..p]))
  }

  // A link kept as it was.
  lemma MeantKeeps(from: seq<DraftLink>, to: seq<DraftLink>, us: seq<PatchLink>, rs: seq<PatchLink>, k: nat)
    requires LeftOver(from, to, rs, us) && k < |from| && Exact(from, to)[k] >= 0
    ensures LeftCount(from, to, k) == LeftCount(from, to, k + 1) <= |Left(from, to)|
    ensures !Names(rs, from[k].id) && Meant(from, to, k + 1) == Meant(from, to, k) + multiset{Updated(from[k], us)}
  {
    LeftCountGrows(from, to, k);
    MatchedGrows(from, Exact(from, to), k);
    KeptIsUntouched(from, to, us, rs, k);
    MultisetSnoc(Matched(from[..k], Exact(from, to)[..k]), from[k]);
  }

  // A link left over: reworked or removed.
  lemma MeantReworks(from: seq<DraftLink>, to: seq<DraftLink>, us: seq<PatchLink>, rs: seq<PatchLink>, k: nat)
    requires LeftOver(from, to, rs, us) && k < |from| && Exact(from, to)[k] < 0
    ensures LeftCount(from, to, k) <= LeftCount(from, to, k + 1) <= |Left(from, to)|
    ensures Meant(from, to, k + 1) ==
            if Names(rs, from[k].id) then Meant(from, to, k) else Meant(from, to, k) + multiset{Updated(from[k], us)}
  {
    var p := LeftCount(from, to, k);
    LeftCountGrows(from, to, k);
    MatchedGrows(from, Exact(from, to), k);
    LeftIsReworked(from, to, us, rs, p);
    RewrittenGrows(Left(from, to), to, Loose(from, to), p);
    MultisetSnoc(Rewritten(Left(from, to)[..p], to, Loose(from, to)[..p]), Updated(from[k], us));
  }

  lemma MeantGrows(from: seq<DraftLink>, to: seq<DraftLink>, us: seq<PatchLink>, rs: seq<PatchLink>, k: nat)
    requires LeftOver(from, to, rs, us) && k < |from|
    ensures LeftCount(from, to, k) <= LeftCount(from, to, k + 1) <= |Left(from, to)|
    ensures Meant(from, to, k + 1) ==
            if Names(rs, from[k].id) then Meant(from, to, k) else Meant(from, to, k) + multiset{Updated(from[k], us)}
  {
    if Exact(from, to)[k] >= 0 { MeantKeeps(from, to, us, rs, k); } else { MeantReworks(from, to, us, rs, k); }
  }

  lemma MeantOfNone(from: seq<DraftLink>, to: seq<DraftLink>, us: seq<PatchLink>, rs: seq<PatchLink>)
    ensures LeftCount(from, to, 0) <= |Left(from, to)|
    ensures multiset(After(from[..0], us, rs)) == Meant(from, to, 0)
  {
    assert UpdatedAll(from[..0], us) == [];
  }

  // The links of the first draft, after the patch: the ones held alike and the ones updated.
  lemma MultisetSnoc<T>(s: seq<T>, x: T)
    ensures multiset(s + [x]) == multiset(s) + multiset{x}
  {
  }

  // One more link of the source, kept or reworked in both.
  lemma FromAfterOne(from: seq<DraftLink>, to: seq<DraftLink>, us: seq<PatchLink>, rs: seq<PatchLink>, k: nat)
    requires LeftOver(from, to, rs, us) && k < |from| && LeftCount(from, to, k) <= |Left(from, to)|
    requires multiset(After(from[..k], us, rs)) == Meant(from, to, k)
    ensures LeftCount(from, to, k + 1) <= |Left(from, to)|
    ensures multiset(After(from[..k + 1], us, rs)) == Meant(from, to, k + 1)
  {
    MeantGrows(from, to, us, rs, k);
    PrefixGrows(from, k);
    AfterGrows(from[..k], from[k], us, rs);
    MultisetSnoc(After(from[..k], us, rs), Updated(from[k], us));
  }

  lemma {:induction false} FromAfter(from: seq<DraftLink>, to: seq<DraftLink>, us: seq<PatchLink>, rs: seq<PatchLink>, n: nat)
    requires LeftOver(from, to, rs, us) && n <= |from|
    ensures LeftCount(from, to, n) <= |Left(from, to)|
    ensures multiset(After(from[..n], us, rs)) == Meant(from, to, n)
    decreases n
  {
    if n == 0 {
      MeantOfNone(from, to, us, rs);
    } else {
      FromAfter(from, to, us, rs, n - 1);
      FromAfterOne(from, to, us, rs, n - 1);
    }
  }

  // ---- the theorem

  ghost function LinksAfter(from: Draft, to: Draft): seq<DraftLink> { Patched(from, PatchBetween(from, to)).links }

  // No added link takes the id of a link the patch removes, or of one it updates to other properties.
  ghost predicate AddsStand(from: seq<DraftLink>, to: seq<DraftLink>) {
    forall l :: l in LinkAdds(from, to) ==> Stands(l, LinkUpdates(from, to), RemovesOf(LinkRemoves(from, to)))
  }

  lemma AfterSplits(a: seq<DraftLink>, b: seq<DraftLink>, us: seq<PatchLink>, rs: seq<PatchLink>)
    ensures After(a + b, us, rs) == After(a, us, rs) + After(b, us, rs)
  {
    assert UpdatedAll(a + b, us) == UpdatedAll(a, us) + UpdatedAll(b, us);
    SurvivingSplits(UpdatedAll(a, us), UpdatedAll(b, us), rs);
  }

  lemma MeantOfAll(f: seq<DraftLink>, t: seq<DraftLink>)
    ensures LeftCount(f, t, |f|) <= |Left(f, t)|
    ensures Meant(f, t, |f|) == multiset(Kept(f, t)) + multiset(Reworked(f, t))
  {
    assert f[..|f|] == f && Exact(f, t)[..|f|] == Exact(f, t);
    assert Left(f, t)[..|Left(f, t)|] == Left(f, t) && Loose(f, t)[..|Left(f, t)|] == Loose(f, t);
  }

  lemma LinksAfterPatch(from: Draft, to: Draft)
    requires DistinctIds(from.links)
    ensures multiset(LinksAfter(from, to)) ==
      multiset(Kept(from.links, to.links)) + multiset(Reworked(from.links, to.links))
      + multiset(AddsAfter(LinkAdds(from.links, to.links), LinkUpdates(from.links, to.links), RemovesOf(LinkRemoves(from.links, to.links))))
  {
    var f, t := from.links, to.links;
    var us, rs, adds := LinkUpdates(f, t), RemovesOf(LinkRemoves(f, t)), LinksAdded(AddsOf(LinkAdds(f, t)));
    FromAfter(f, t, us, rs, |f|);
    MeantOfAll(f, t);
    assert f[..|f|] == f;
    AfterSplits(f, adds, us, rs);
    assert LinksAfter(from, to) == After(f, us, rs) + After(adds, us, rs);
  }

  /**
   * Applying the patch between two drafts to the first. The properties, the state and the deletion are the second's.
   * The owner is, unless it was cleared. The links left are the matched ones under the id they have in the first draft
   * and the added ones, exactly when no added link clashes with the ids the patch updates or removes.
   */
  lemma DiffThenApply(from: Draft, to: Draft)
    requires DistinctIds(from.links)
    ensures var d := Patched(from, PatchBetween(from, to));
      d.props == to.props && d.state == to.state && d.deleted == to.deleted
    ensures Patched(from, PatchBetween(from, to)).owner == to.owner <==> to.owner == from.owner || !to.owner.IsZero()
    ensures multiset(LinksAfter(from, to)) ==
      multiset(Kept(from.links, to.links)) + multiset(Reworked(from.links, to.links)) + multiset(LinkAdds(from.links, to.links))
      <==> AddsStand(from.links, to.links)
    ensures AddsStand(from.links, to.links) ==> Bag(LinksAfter(from, to)) == Bag(to.links)
  {
    var f, t := from.links, to.links;
    var us, rs := LinkUpdates(f, t), RemovesOf(LinkRemoves(f, t));
    PropsRoundTrip(from.props, to.props);
    LinksAfterPatch(from, to);
    AddedLinksStand(LinkAdds(f, t), us, rs);
    Cancel(multiset(Kept(f, t)) + multiset(Reworked(f, t)), multiset(AddsAfter(LinkAdds(f, t), us, rs)), multiset(LinkAdds(f, t)));
    if AddsStand(f, t) {
      BagIsOfTheMultiset(LinksAfter(from, to), Kept(f, t) + Reworked(f, t) + LinkAdds(f, t));
      BagOfSum(Kept(f, t) + Reworked(f, t), LinkAdds(f, t));
      BagOfSum(Kept(f, t), Reworked(f, t));
      MeantIsTheTarget(f, t);
    }
  }

  /** The usual case: added links that name one target each, under ids the first draft does not use. */
  lemma FreshAddsStand(from: seq<DraftLink>, to: seq<DraftLink>)
    requires forall l :: l in LinkAdds(from, to) ==> OneTarget(l) && !HasId(from, l.id)
    ensures AddsStand(from, to)
  {
    var left, us, rs := Left(from, to), LinkUpdates(from, to), RemovesOf(LinkRemoves(from, to));
    forall l | l in LinkAdds(from, to) ensures Stands(l, us, rs) {
      forall k | k in left ensures k.id != l.id {
        UnmatchedIn(from, Exact(from, to), k);
      }
      if Names(us, l.id) { UpdatesNameLeft(left, to, Loose(from, to), l.id); }
      LastForNamed(us, l.id);
      UpdatedIsTheLast(l, us);
      RemovesName(LinkRemoves(from, to), l.id);
      forall k | k in LinkRemoves(from, to) ensures k.id != l.id {
        UnmatchedIn(left, Loose(from, to), k);
      }
    }
  }

  lemma PropRoundTrip(from: map<string, Json>, to: map<string, Json>, k: string)
    ensures Lookup((from + PropsDiff(from, to)) - SetOf(SortedKeys(from.Keys - to.Keys)), k) == Lookup(to, k)
  {
    var diff, gone := PropsDiff(from, to), SetOf(SortedKeys(from.Keys - to.Keys));
    assert k in gone <==> k in from && k !in to;
    assert k in diff <==> k in to && Lookup(from, k) != Some(to[k]);
  }

  lemma PropsRoundTrip(from: map<string, Json>, to: map<string, Json>)
    ensures (from + PropsDiff(from, to)) - SetOf(SortedKeys(from.Keys - to.Keys)) == to
  {
    var back := (from + PropsDiff(from, to)) - SetOf(SortedKeys(from.Keys - to.Keys));
    forall k ensures Lookup(back, k) == Lookup(to, k) { PropRoundTrip(from, to, k); }
    SameLookups(back, to);
  }

  lemma {:induction false} BagOfSum(a: seq<DraftLink>, b: seq<DraftLink>)
    ensures Bag(a + b) == Bag(a) + Bag(b)
  {
    if b == [] {
      assert a + b == a;
    } else {
      assert (a + b)[..|a + b| - 1] == a + b[..|b| - 1];
      BagOfSum(a, b[..|b| - 1]);
    }
  }

  lemma SplitAt<T>(s: seq<T>, i: nat)
    requires i < |s|
    ensures s == (s[..i] + [s[i]]) + s[i + 1..]
  {
  }

  lemma BagRemoves(ls: seq<DraftLink>, i: nat)
    requires i < |ls|
    ensures Bag(ls) == Bag(ls[..i] + ls[i + 1..]) + multiset{ContentOf(ls[i])}
  {
    SplitAt(ls, i);
    BagOfSum(ls[..i] + [ls[i]], ls[i + 1..]);
    BagGrows(ls[..i], ls[i]);
    BagOfSum(ls[..i], ls[i + 1..]);
  }

  lemma MultisetRemoves<T>(s: seq<T>, i: nat)
    requires i < |s|
    ensures multiset(s[..i] + s[i + 1..]) == multiset(s) - multiset{s[i]}
  {
    assert s == s[..i] + [s[i]] + s[i + 1..];
  }

  lemma {:induction false} BagIsOfTheMultiset(a: seq<DraftLink>, b: seq<DraftLink>)
    requires multiset(a) == multiset(b)
    ensures Bag(a) == Bag(b)
  {
    if a == [] {
      assert |multiset(b)| == 0;
    } else {
      var n := |a| - 1;
      assert a[n] in multiset(a);
      assert a[n] in multiset(b);
      var i :| 0 <= i < |b| && b[i] == a[n];
      MultisetRemoves(a, n);
      MultisetRemoves(b, i);
      BagRemoves(a, n);
      BagRemoves(b, i);
      BagIsOfTheMultiset(a[..n] + a[n + 1..], b[..i] + b[i + 1..]);
    }
  }
}
