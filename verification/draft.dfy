// The drafts of a change (contracts/domain/draft.go): the patch between two drafts, and what an event leaves of a draft.
module Drafts {
  import opened Prelude
  import opened Domain

  // ---- matching the links of two drafts

  predicate Alike(a: DraftLink, b: DraftLink, sameProps: bool) {
    a.typ == b.typ && a.to == b.to && a.target == b.target && (sameProps ==> a.props == b.props)
  }

  // The first link alike from a position on that no earlier match took; -1 when there is none.
  ghost function FirstFree(to: seq<DraftLink>, taken: seq<int>, l: DraftLink, sameProps: bool, i: nat): (m: int)
    requires i <= |to|
    ensures m == -1 || (i <= m < |to| && m !in taken && Alike(to[m], l, sameProps))
    ensures forall j :: i <= j < (if m < 0 then |to| else m) ==> j in taken || !Alike(to[j], l, sameProps)
    decreases |to| - i
  {
    if i == |to| then -1
    else if i !in taken && Alike(to[i], l, sameProps) then i
    else FirstFree(to, taken, l, sameProps, i + 1)
  }

  // The match of each link of a list, one after the other, beside what was taken before.
  ghost function Matches(ls: seq<DraftLink>, to: seq<DraftLink>, before: seq<int>, sameProps: bool): (m: seq<int>)
    ensures |m| == |ls|
  {
    if ls == [] then []
    else
      var m := Matches(ls[..|ls| - 1], to, before, sameProps);
      m + [FirstFree(to, before + m, ls[|ls| - 1], sameProps, 0)]
  }

  ghost function Exact(from: seq<DraftLink>, to: seq<DraftLink>): (m: seq<int>)
    ensures |m| == |from|
  {
    Matches(from, to, [], true)
  }

  // The links with no match.
  ghost function Unmatched(ls: seq<DraftLink>, m: seq<int>): seq<DraftLink>
    requires |m| == |ls|
  {
    if ls == [] then []
    else
      var n := |ls| - 1;
      if m[n] >= 0 then Unmatched(ls[..n], m[..n]) else Unmatched(ls[..n], m[..n]) + [ls[n]]
  }

  ghost function Left(from: seq<DraftLink>, to: seq<DraftLink>): seq<DraftLink> {
    Unmatched(from, Exact(from, to))
  }

  ghost function Loose(from: seq<DraftLink>, to: seq<DraftLink>): (m: seq<int>)
    ensures |m| == |Left(from, to)|
  {
    Matches(Left(from, to), to, Exact(from, to), false)
  }

  // The links of a list no match took.
  ghost function Free(to: seq<DraftLink>, taken: seq<int>): seq<DraftLink> {
    if to == [] then []
    else
      var n := |to| - 1;
      if n in taken then Free(to[..n], taken) else Free(to[..n], taken) + [to[n]]
  }

  // ---- the patch

  function AsAdded(l: DraftLink): PatchLink {
    if l.External() then PatchLink(l.id, l.typ, "", 0, l.target, l.props)
    else PatchLink(l.id, l.typ, l.to.id, l.to.version, NoUrl, l.props)
  }

  function ById(id: string, props: map<string, Json>): PatchLink { PatchLink(id, "", "", 0, NoUrl, props) }

  ghost function AddsOf(ls: seq<DraftLink>): seq<PatchLink> {
    if ls == [] then [] else AddsOf(ls[..|ls| - 1]) + [AsAdded(ls[|ls| - 1])]
  }

  ghost function UpdatesOf(left: seq<DraftLink>, to: seq<DraftLink>, m: seq<int>): seq<PatchLink>
    requires |m| == |left|
  {
    if left == [] then []
    else
      var n := |left| - 1;
      if 0 <= m[n] < |to| then UpdatesOf(left[..n], to, m[..n]) + [ById(left[n].id, to[m[n]].props)]
      else UpdatesOf(left[..n], to, m[..n])
  }

  ghost function RemovesOf(ls: seq<DraftLink>): seq<PatchLink> {
    if ls == [] then [] else RemovesOf(ls[..|ls| - 1]) + [ById(ls[|ls| - 1].id, map[])]
  }

  ghost function PropsDiff(from: map<string, Json>, to: map<string, Json>): map<string, Json> {
    map k | k in to && Lookup(from, k) != Some(to[k]) :: to[k]
  }

  ghost function LinkAdds(from: seq<DraftLink>, to: seq<DraftLink>): seq<DraftLink> {
    Free(to, Exact(from, to) + Loose(from, to))
  }

  ghost function LinkUpdates(from: seq<DraftLink>, to: seq<DraftLink>): seq<PatchLink> {
    UpdatesOf(Left(from, to), to, Loose(from, to))
  }

  ghost function LinkRemoves(from: seq<DraftLink>, to: seq<DraftLink>): seq<DraftLink> {
    Unmatched(Left(from, to), Loose(from, to))
  }

  ghost function PatchBetween(from: Draft, to: Draft): Patch {
    EmptyPatch.(props := PropsDiff(from.props, to.props),
                unset := SortedKeys(from.props.Keys - to.props.Keys),
                owner := if to.owner != from.owner then to.owner else NoUrl,
                state := if to.state != from.state then Some(StateMove(from.state, to.state)) else None,
                deleted := if to.deleted != from.deleted then Some(to.deleted) else None,
                addLinks := AddsOf(LinkAdds(from.links, to.links)),
                updateLinks := LinkUpdates(from.links, to.links),
                removeLinks := RemovesOf(LinkRemoves(from.links, to.links)))
  }

  // Nothing is written in the patch: an owner cleared is, though it reads back as none.
  ghost predicate SameDraft(from: Draft, to: Draft) {
    PatchBetween(from, to) == EmptyPatch && to.owner == from.owner
  }

  ghost function Diff(from: Draft, to: Draft): Option<Patch> {
    if SameDraft(from, to) then None else Some(PatchBetween(from, to))
  }

  method Match(to: seq<DraftLink>, used: array<bool>, l: DraftLink, sameProps: bool, ghost taken: seq<int>) returns (i: int)
    requires used.Length == |to| && forall j :: 0 <= j < |to| ==> used[j] == (j in taken)
    ensures i == FirstFree(to, taken, l, sameProps, 0)
  {
    for k := 0 to |to|
      invariant FirstFree(to, taken, l, sameProps, 0) == FirstFree(to, taken, l, sameProps, k)
    {
      if !used[k] && to[k].typ == l.typ && to[k].to == l.to && to[k].target == l.target && (!sameProps || to[k].props == l.props) {
        return k;
      }
    }
    return -1;
  }

  // The match of a link, used from then on.
  method TakeMatch(to: seq<DraftLink>, used: array<bool>, l: DraftLink, sameProps: bool, ghost taken: seq<int>) returns (i: int)
    requires used.Length == |to| && forall j :: 0 <= j < |to| ==> used[j] == (j in taken)
    modifies used
    ensures i == FirstFree(to, taken, l, sameProps, 0)
    ensures forall j :: 0 <= j < |to| ==> used[j] == (j in taken + [i])
  {
    i := Match(to, used, l, sameProps, taken);
    if i >= 0 { used[i] := true; }
  }

  // The properties of a draft that another does not hold alike.
  method ChangedProps(from: map<string, Json>, to: map<string, Json>) returns (props: map<string, Json>)
    ensures props == PropsDiff(from, to)
  {
    props := map[];
    var keys := to.Keys;
    while keys != {}
      invariant keys <= to.Keys && props.Keys <= to.Keys
      invariant forall k :: k in to ==> Lookup(props, k) == if k !in keys && Lookup(from, k) != Some(to[k]) then Some(to[k]) else None
      decreases |keys|
    {
      var k :| k in keys;
      if k !in from || from[k] != to[k] {
        props := props[k := to[k]];
      }
      keys := keys - {k};
    }
    forall k | k in props.Keys + PropsDiff(from, to).Keys ensures Lookup(props, k) == Lookup(PropsDiff(from, to), k) {
      assert k in to;
    }
    SameLookups(props, PropsDiff(from, to));
  }

  method UnsetProps(from: map<string, Json>, to: map<string, Json>) returns (sorted: seq<string>)
    ensures sorted == SortedKeys(from.Keys - to.Keys)
  {
    var unset: set<string> := {};
    var keys := from.Keys;
    while keys != {}
      invariant keys <= from.Keys && unset <= from.Keys
      invariant forall k :: k in from ==> (k in unset <==> k !in keys && k !in to)
      decreases |keys|
    {
      var k :| k in keys;
      if k !in to {
        unset := unset + {k};
      }
      keys := keys - {k};
    }
    assert unset == from.Keys - to.Keys;
    sorted := Sort(unset);
  }

  lemma UpdatesGrow(ls: seq<DraftLink>, to: seq<DraftLink>, m: seq<int>, l: DraftLink, i: int)
    requires |m| == |ls| && i < |to|
    ensures UpdatesOf(ls + [l], to, m + [i]) ==
            if i >= 0 then UpdatesOf(ls, to, m) + [ById(l.id, to[i].props)] else UpdatesOf(ls, to, m)
  {
    assert (ls + [l])[..|ls|] == ls && (m + [i])[..|m|] == m;
  }

  lemma RemovesGrow(ls: seq<DraftLink>, l: DraftLink)
    ensures RemovesOf(ls + [l]) == RemovesOf(ls) + [ById(l.id, map[])]
  {
    assert (ls + [l])[..|ls|] == ls;
  }

  lemma UnmatchedGrows(ls: seq<DraftLink>, m: seq<int>, l: DraftLink, i: int)
    requires |m| == |ls|
    ensures Unmatched(ls + [l], m + [i]) == if i >= 0 then Unmatched(ls, m) else Unmatched(ls, m) + [l]
  {
    assert (ls + [l])[..|ls|] == ls && (m + [i])[..|m|] == m;
  }

  lemma MatchesGrows(ls: seq<DraftLink>, l: DraftLink, to: seq<DraftLink>, before: seq<int>, sameProps: bool)
    ensures Matches(ls + [l], to, before, sameProps)
         == Matches(ls, to, before, sameProps) + [FirstFree(to, before + Matches(ls, to, before, sameProps), l, sameProps, 0)]
  {
    assert (ls + [l])[..|ls|] == ls;
  }

  // First, the links held alike, properties included.
  method MatchExactly(from: seq<DraftLink>, to: seq<DraftLink>, used: array<bool>) returns (left: seq<DraftLink>)
    requires used.Length == |to| && forall j :: 0 <= j < |to| ==> !used[j]
    modifies used
    ensures left == Left(from, to)
    ensures forall j :: 0 <= j < |to| ==> used[j] == (j in Exact(from, to))
  {
    left := [];
    ghost var exact: seq<int> := [];
    for k := 0 to |from|
      invariant exact == Exact(from[..k], to)
      invariant left == Unmatched(from[..k], exact)
      invariant forall j :: 0 <= j < |to| ==> used[j] == (j in exact)
    {
      assert from[..k + 1] == from[..k] + [from[k]];
      assert [] + exact == exact;
      MatchesGrows(from[..k], from[k], to, [], true);
      var i := TakeMatch(to, used, from[k], true, exact);
      UnmatchedGrows(from[..k], exact, from[k], i);
      exact := exact + [i];
      if i < 0 { left := left + [from[k]]; }
    }
    assert from[..|from|] == from;
  }

  lemma LooseStep(left: seq<DraftLink>, k: nat, to: seq<DraftLink>, exact: seq<int>, i: int)
    requires k < |left|
    requires var m := Matches(left[..k], to, exact, false); i == FirstFree(to, exact + m, left[k], false, 0)
    ensures var m := Matches(left[..k], to, exact, false);
      Matches(left[..k + 1], to, exact, false) == m + [i] &&
      UpdatesOf(left[..k + 1], to, m + [i]) ==
        (if i >= 0 then UpdatesOf(left[..k], to, m) + [ById(left[k].id, to[i].props)] else UpdatesOf(left[..k], to, m)) &&
      RemovesOf(Unmatched(left[..k + 1], m + [i])) ==
        (if i >= 0 then RemovesOf(Unmatched(left[..k], m)) else RemovesOf(Unmatched(left[..k], m)) + [ById(left[k].id, map[])])
  {
    var m := Matches(left[..k], to, exact, false);
    assert left[..k + 1] == left[..k] + [left[k]];
    MatchesGrows(left[..k], left[k], to, exact, false);
    UnmatchedGrows(left[..k], m, left[k], i);
    UpdatesGrow(left[..k], to, m, left[k], i);
    RemovesGrow(Unmatched(left[..k], m), left[k]);
  }

  // Then the links left with the same target: updated, or removed when there is none.
  method MatchLoosely(left: seq<DraftLink>, to: seq<DraftLink>, used: array<bool>, ghost exact: seq<int>)
    returns (updates: seq<PatchLink>, removes: seq<PatchLink>)
    requires used.Length == |to| && forall j :: 0 <= j < |to| ==> used[j] == (j in exact)
    modifies used
    ensures forall j :: 0 <= j < |to| ==> used[j] == (j in exact + Matches(left, to, exact, false))
    ensures updates == UpdatesOf(left, to, Matches(left, to, exact, false))
    ensures removes == RemovesOf(Unmatched(left, Matches(left, to, exact, false)))
  {
    updates, removes := [], [];
    ghost var m: seq<int> := [];
    for k := 0 to |left|
      invariant m == Matches(left[..k], to, exact, false)
      invariant updates == UpdatesOf(left[..k], to, m)
      invariant removes == RemovesOf(Unmatched(left[..k], m))
      invariant forall j :: 0 <= j < |to| ==> used[j] == (j in exact + m)
    {
      var i := TakeMatch(to, used, left[k], false, exact + m);
      LooseStep(left, k, to, exact, i);
      assert exact + (m + [i]) == (exact + m) + [i];
      m := m + [i];
      if i >= 0 {
        updates := updates + [ById(left[k].id, to[i].props)];
      } else {
        removes := removes + [ById(left[k].id, map[])];
      }
    }
    assert left[..|left|] == left;
  }

  // Last, the links nothing matched.
  method Unused(to: seq<DraftLink>, used: array<bool>, ghost taken: seq<int>) returns (adds: seq<PatchLink>)
    requires used.Length == |to| && forall j :: 0 <= j < |to| ==> used[j] == (j in taken)
    ensures adds == AddsOf(Free(to, taken))
  {
    adds := [];
    for i := 0 to |to|
      invariant adds == AddsOf(Free(to[..i], taken))
    {
      assert to[..i + 1][..i] == to[..i];
      ghost var free := Free(to[..i], taken);
      assert (free + [to[i]])[..|free|] == free;
      if !used[i] {
        adds := adds + [AsAdded(to[i])];
      }
    }
    assert to[..|to|] == to;
  }

  method DiffLinks(from: seq<DraftLink>, to: seq<DraftLink>)
    returns (adds: seq<PatchLink>, updates: seq<PatchLink>, removes: seq<PatchLink>)
    ensures adds == AddsOf(LinkAdds(from, to))
    ensures updates == LinkUpdates(from, to)
    ensures removes == RemovesOf(LinkRemoves(from, to))
  {
    var used := new bool[|to|](_ => false);
    var left := MatchExactly(from, to, used);
    updates, removes := MatchLoosely(left, to, used, Exact(from, to));
    adds := Unused(to, used, Exact(from, to) + Loose(from, to));
  }

  method DraftDiff(from: Draft, to: Draft) returns (patch: Option<Patch>)
    ensures patch == Diff(from, to)
  {
    var p := EmptyPatch;
    var props := ChangedProps(from.props, to.props);
    var unset := UnsetProps(from.props, to.props);
    p := p.(props := props, unset := unset);
    if to.owner != from.owner { p := p.(owner := to.owner); }
    if to.state != from.state { p := p.(state := Some(StateMove(from.state, to.state))); }
    if to.deleted != from.deleted { p := p.(deleted := Some(to.deleted)); }
    var adds, updates, removes := DiffLinks(from.links, to.links);
    p := p.(addLinks := adds, updateLinks := updates, removeLinks := removes);
    if p == EmptyPatch && to.owner == from.owner {
      return None;
    }
    return Some(p);
  }

  // ---- what an event leaves of a draft

  function AsLink(a: PatchLink): DraftLink {
    DraftLink(a.id, a.typ, NodeRef(a.toId, a.toVersion), if a.toId == "" && !a.target.IsZero() then a.target else NoUrl, a.props)
  }

  function LinksOf(one: Option<PatchLink>, many: seq<PatchLink>): seq<PatchLink> {
    if one.None? then many else [one.value] + many
  }

  ghost function LinksAdded(adds: seq<PatchLink>): seq<DraftLink> {
    if adds == [] then [] else LinksAdded(adds[..|adds| - 1]) + [AsLink(adds[|adds| - 1])]
  }

  function Update(l: DraftLink, u: PatchLink): DraftLink { if l.id == u.id then l.(props := u.props) else l }

  // The updates of a link, in order: the last that names it stays.
  ghost function Updated(l: DraftLink, us: seq<PatchLink>): DraftLink {
    if us == [] then l else Update(Updated(l, us[..|us| - 1]), us[|us| - 1])
  }

  ghost function UpdatedAll(ls: seq<DraftLink>, us: seq<PatchLink>): (out: seq<DraftLink>)
    ensures |out| == |ls|
    ensures forall i :: 0 <= i < |ls| ==> out[i] == Updated(ls[i], us)
  {
    seq(|ls|, i requires 0 <= i < |ls| => Updated(ls[i], us))
  }

  predicate Names(rs: seq<PatchLink>, id: string) { exists i :: 0 <= i < |rs| && rs[i].id == id }

  ghost function Surviving(ls: seq<DraftLink>, rs: seq<PatchLink>): seq<DraftLink> {
    if ls == [] then []
    else if Names(rs, ls[|ls| - 1].id) then Surviving(ls[..|ls| - 1], rs)
    else Surviving(ls[..|ls| - 1], rs) + [ls[|ls| - 1]]
  }

  ghost function PatchedLinks(ls: seq<DraftLink>, adds: seq<PatchLink>, us: seq<PatchLink>, rs: seq<PatchLink>): seq<DraftLink> {
    Surviving(UpdatedAll(ls + LinksAdded(adds), us), rs)
  }

  ghost function Patched(d: Draft, p: Patch): Draft {
    d.(props := (d.props + p.props) - SetOf(p.unset),
       owner := if p.owner.IsZero() then d.owner else p.owner,
       state := if p.state.Some? then p.state.value.to else d.state,
       deleted := if p.deleted.Some? then p.deleted.value else d.deleted,
       links := PatchedLinks(d.links, LinksOf(p.addLink, p.addLinks), LinksOf(p.updateLink, p.updateLinks),
                             LinksOf(p.removeLink, p.removeLinks)))
  }

  method DeleteLink(ls: seq<DraftLink>, id: string) returns (out: seq<DraftLink>)
    ensures out == Surviving(ls, [ById(id, map[])])
  {
    out := [];
    for i := 0 to |ls|
      invariant out == Surviving(ls[..i], [ById(id, map[])])
    {
      assert ls[..i + 1][..i] == ls[..i];
      assert Names([ById(id, map[])], ls[i].id) <==> ls[i].id == id by { assert [ById(id, map[])][0].id == id; }
      if ls[i].id != id { out := out + [ls[i]]; }
    }
    assert ls[..|ls|] == ls;
  }

  lemma {:induction false} SurvivingTwice(ls: seq<DraftLink>, rs: seq<PatchLink>, r: PatchLink)
    ensures Surviving(Surviving(ls, rs), [ById(r.id, map[])]) == Surviving(ls, rs + [r])
  {
    if ls != [] {
      var n := |ls| - 1;
      SurvivingTwice(ls[..n], rs, r);
      var kept := Surviving(ls[..n], rs);
      assert Names(rs + [r], ls[n].id) <==> Names(rs, ls[n].id) || r.id == ls[n].id by {
        assert (rs + [r])[|rs|] == r;
        if Names(rs, ls[n].id) {
          var i :| 0 <= i < |rs| && rs[i].id == ls[n].id;
          assert (rs + [r])[i].id == ls[n].id;
        }
      }
      assert Names([ById(r.id, map[])], ls[n].id) <==> r.id == ls[n].id by { assert [ById(r.id, map[])][0].id == r.id; }
      assert (kept + [ls[n]])[..|kept|] == kept;
    }
  }

  lemma {:induction false} SurvivingNone(ls: seq<DraftLink>)
    ensures Surviving(ls, []) == ls
  {
    if ls != [] {
      SurvivingNone(ls[..|ls| - 1]);
    }
  }

  method UpdateLinks(ls: seq<DraftLink>, u: PatchLink) returns (links: seq<DraftLink>)
    ensures |links| == |ls| && forall k :: 0 <= k < |ls| ==> links[k] == Update(ls[k], u)
  {
    links := ls;
    for j := 0 to |links|
      invariant |links| == |ls|
      invariant forall k :: 0 <= k < j ==> links[k] == Update(ls[k], u)
      invariant forall k :: j <= k < |ls| ==> links[k] == ls[k]
    {
      if links[j].id == u.id {
        links := links[j := links[j].(props := u.props)];
      }
    }
  }

  lemma UpdatedGrows(l: DraftLink, us: seq<PatchLink>, u: PatchLink)
    ensures Updated(l, us + [u]) == Update(Updated(l, us), u)
  {
    assert (us + [u])[..|us|] == us;
  }

  method AddLinks(ls: seq<DraftLink>, adds: seq<PatchLink>) returns (links: seq<DraftLink>)
    ensures links == ls + LinksAdded(adds)
  {
    links := ls;
    for i := 0 to |adds|
      invariant links == ls + LinksAdded(adds[..i])
    {
      assert adds[..i + 1][..i] == adds[..i];
      links := links + [AsLink(adds[i])];
    }
    assert adds[..|adds|] == adds;
  }

  method UpdateAll(ls: seq<DraftLink>, us: seq<PatchLink>) returns (links: seq<DraftLink>)
    ensures links == UpdatedAll(ls, us)
  {
    links := ls;
    for i := 0 to |us|
      invariant links == UpdatedAll(ls, us[..i])
    {
      PrefixGrows(us, i);
      forall k | 0 <= k < |ls| { UpdatedGrows(ls[k], us[..i], us[i]); }
      links := UpdateLinks(links, us[i]);
    }
    WholePrefix(us);
  }

  method DeleteAll(ls: seq<DraftLink>, rs: seq<PatchLink>) returns (links: seq<DraftLink>)
    ensures links == Surviving(ls, rs)
  {
    links := ls;
    SurvivingNone(ls);
    for i := 0 to |rs|
      invariant links == Surviving(ls, rs[..i])
    {
      PrefixGrows(rs, i);
      SurvivingTwice(ls, rs[..i], rs[i]);
      links := DeleteLink(links, rs[i].id);
    }
    WholePrefix(rs);
  }

  method PatchLinks(ls: seq<DraftLink>, adds: seq<PatchLink>, us: seq<PatchLink>, rs: seq<PatchLink>)
    returns (links: seq<DraftLink>)
    ensures links == PatchedLinks(ls, adds, us, rs)
  {
    links := AddLinks(ls, adds);
    links := UpdateAll(links, us);
    links := DeleteAll(links, rs);
  }

  method DeleteKeys(m: map<string, Json>, keys: seq<string>) returns (out: map<string, Json>)
    ensures out == m - SetOf(keys)
  {
    out := m;
    for i := 0 to |keys|
      invariant out == m - SetOf(keys[..i])
    {
      SetOfGrows(keys[..i], keys[i]);
      WithoutMore(m, SetOf(keys[..i]), keys[i]);
      assert keys[..i + 1] == keys[..i] + [keys[i]];
      out := out - {keys[i]};
    }
    assert keys[..|keys|] == keys;
  }

  method PatchProps(was: map<string, Json>, p: Patch) returns (props: map<string, Json>)
    ensures props == (was + p.props) - SetOf(p.unset)
  {
    props := was;
    if |p.props| > 0 || |p.unset| > 0 {
      props := DeleteKeys(was + p.props, p.unset);
    }
  }

  ghost function PatchOf(p: Option<Patch>): Patch { if p.None? then EmptyPatch else p.value }

  ghost function Installed(e: ImpactEvent): Draft
    requires e.draft.Some?
  {
    var d := e.draft.value;
    d.(change := e.change, impact := e.impact, flow := e.flow,
       creator := if e.op == ImpactCreated && d.creator == "" then e.Author() else d.creator,
       editor := if e.Author() != "" then e.Author() else d.editor)
  }

  // What an event of its impact and flow leaves of a draft.
  ghost function DraftAfter(d: Option<Draft>, e: ImpactEvent): Option<Draft> {
    if e.op.WritesPost() && e.draft.Some? then Some(Installed(e))
    else if d.None? then None
    else if e.op == ImpactUpdated || e.op == ImpactTransitioned then
      var n := Patched(d.value, PatchOf(e.patch));
      Some(if e.Author() != "" then n.(editor := e.Author()) else n)
    else if e.op == ImpactCancelled then None
    else d
  }

  method PatchDraft(d: Draft, p: Patch) returns (n: Draft)
    ensures n == Patched(d, p)
  {
    n := d;
    var props := PatchProps(n.props, p);
    n := n.(props := props);
    if !p.owner.IsZero() { n := n.(owner := p.owner); }
    if p.state.Some? { n := n.(state := p.state.value.to); }
    if p.deleted.Some? { n := n.(deleted := p.deleted.value); }
    var links := PatchLinks(n.links, LinksOf(p.addLink, p.addLinks), LinksOf(p.updateLink, p.updateLinks),
                            LinksOf(p.removeLink, p.removeLinks));
    n := n.(links := links);
  }

  method ApplyDraft(d: Option<Draft>, e: ImpactEvent) returns (r: Option<Draft>)
    ensures r == DraftAfter(d, e)
  {
    if e.op.WritesPost() && e.draft.Some? {
      var n := e.draft.value.(change := e.change, impact := e.impact, flow := e.flow);
      if e.op == ImpactCreated && n.creator == "" { n := n.(creator := e.Author()); }
      if e.Author() != "" { n := n.(editor := e.Author()); }
      return Some(n);
    }
    if d.None? { return None; }
    if e.op == ImpactUpdated || e.op == ImpactTransitioned {
      var n := PatchDraft(d.value, if e.patch.None? then EmptyPatch else e.patch.value);
      if e.Author() != "" { n := n.(editor := e.Author()); }
      return Some(n);
    }
    if e.op == ImpactCancelled { return None; }
    return d;
  }
}
