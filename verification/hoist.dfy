// What a batch of log entries shares (contracts/domain/impactpayload.go, hoist and unhoist): taken out of the parts,
// object by object, and put back.
module Hoist {
  import opened Prelude

  type Fields = map<string, Json>

  // The key every part keeps for itself.
  const ImpactKey := "impactId"

  // Every part holds the key with one value.
  predicate Shared(parts: seq<Fields>, k: string) {
    parts != [] && k in parts[0] && k != ImpactKey && forall i :: 0 <= i < |parts| ==> Lookup(parts[i], k) == Some(parts[0][k])
  }

  predicate IsObject(j: Option<Json>) { j.Some? && j.value.Object? }

  // Every part holds an object under the key, two parts at least.
  predicate Objects(parts: seq<Fields>, k: string) {
    |parts| >= 2 && k != ImpactKey && forall i :: 0 <= i < |parts| ==> IsObject(Lookup(parts[i], k))
  }

  function Under(parts: seq<Fields>, k: string): (subs: seq<Fields>)
    requires Objects(parts, k)
    ensures |subs| == |parts|
    ensures forall i :: 0 <= i < |parts| ==> subs[i] == Lookup(parts[i], k).value.fields
  {
    seq(|parts|, i requires 0 <= i < |parts| => Lookup(parts[i], k).value.fields)
  }

  // The common part: equal values, and of objects that differ the common part of their own.
  ghost function Top(parts: seq<Fields>): Fields
    requires parts != []
    decreases Object(parts[0]), 1
  {
    map k | k in parts[0] && TopAt(parts, k).Some? :: TopAt(parts, k).value
  }

  ghost function TopAt(parts: seq<Fields>, k: string): Option<Json>
    requires parts != []
    decreases Object(parts[0]), 0
  {
    if Shared(parts, k) then Some(parts[0][k])
    else if Objects(parts, k) && Top(Under(parts, k)) != map[] then Some(Object(Top(Under(parts, k))))
    else None
  }

  // What a part keeps once that is taken out.
  ghost function Rest(parts: seq<Fields>, i: nat): Fields
    requires i < |parts|
    decreases Object(parts[0]), 1
  {
    map k | k in parts[i] && RestAt(parts, i, k).Some? :: RestAt(parts, i, k).value
  }

  ghost function RestAt(parts: seq<Fields>, i: nat, k: string): Option<Json>
    requires i < |parts|
    decreases Object(parts[0]), 0
  {
    if Shared(parts, k) then None
    else if Objects(parts, k) && Top(Under(parts, k)) != map[] then Some(Object(Rest(Under(parts, k), i)))
    else Lookup(parts[i], k)
  }

  lemma RestLookup(parts: seq<Fields>, i: nat, k: string)
    requires i < |parts|
    ensures Lookup(Rest(parts, i), k) == RestAt(parts, i, k)
  {
    if Objects(parts, k) { assert IsObject(Lookup(parts[i], k)); }
  }

  lemma TopLookup(parts: seq<Fields>, k: string)
    requires parts != []
    ensures Lookup(Top(parts), k) == TopAt(parts, k)
  {
    if Objects(parts, k) { assert IsObject(Lookup(parts[0], k)); }
  }

  // ---- putting back

  // The part with what was taken out of it; None: an object is not there to receive its share.
  ghost function PutBack(top: Fields, part: Fields): Option<Fields>
    decreases Object(top), 1
  {
    if forall k :: k in top ==> PutBackAt(top, part, k).Some?
    then Some(map k | k in top.Keys + part.Keys :: if k in top then PutBackAt(top, part, k).value else part[k])
    else None
  }

  // A null stands for an object with nothing in it, which takes nothing.
  ghost function PutBackAt(top: Fields, part: Fields, k: string): Option<Json>
    requires k in top
    decreases Object(top), 0
  {
    if k !in part then Some(top[k])
    else if top[k].Leaf? || part[k].Leaf? then None
    else if top[k].Null? || (part[k].Null? && top[k].fields == map[]) then Some(part[k])
    else if part[k].Null? || PutBack(top[k].fields, part[k].fields).None? then None
    else Some(Object(PutBack(top[k].fields, part[k].fields).value))
  }

  lemma {:induction false} KeyComesBack(parts: seq<Fields>, i: nat, k: string)
    requires i < |parts| && k in Top(parts)
    ensures PutBackAt(Top(parts), Rest(parts, i), k).Some?
    ensures Lookup(parts[i], k) == PutBackAt(Top(parts), Rest(parts, i), k)
    decreases Object(parts[0]), 0
  {
    TopLookup(parts, k);
    RestLookup(parts, i, k);
    if !Shared(parts, k) {
      assert IsObject(Lookup(parts[0], k)) && IsObject(Lookup(parts[i], k));
      HoistThenUnhoist(Under(parts, k), i);
    }
  }

  /** Putting the top back into what a part kept gives the part, at every depth, and never fails. */
  lemma {:induction false} HoistThenUnhoist(parts: seq<Fields>, i: nat)
    requires i < |parts|
    ensures PutBack(Top(parts), Rest(parts, i)) == Some(parts[i])
    decreases Object(parts[0]), 1
  {
    var top, rest := Top(parts), Rest(parts, i);
    forall k | k in top ensures PutBackAt(top, rest, k).Some? && Lookup(parts[i], k) == PutBackAt(top, rest, k) {
      KeyComesBack(parts, i, k);
    }
    var back := PutBack(top, rest).value;
    forall k ensures Lookup(back, k) == Lookup(parts[i], k) {
      TopLookup(parts, k);
      RestLookup(parts, i, k);
    }
    SameLookups(back, parts[i]);
  }

  // ---- in place

  method IsShared(parts: array<Fields>, k: string) returns (shared: bool)
    requires parts.Length > 0 && k in parts[0] && k != ImpactKey
    ensures shared == Shared(parts[..], k)
  {
    for i := 1 to parts.Length
      invariant forall j :: 0 <= j < i ==> Lookup(parts[..][j], k) == Some(parts[0][k])
    {
      if k !in parts[i] || parts[i][k] != parts[0][k] {
        assert Lookup(parts[..][i], k) != Some(parts[0][k]);
        return false;
      }
    }
    return true;
  }

  // The objects of the parts under a key, when every part holds one.
  method ObjectsUnder(parts: array<Fields>, k: string) returns (all: bool, subs: array<Fields>)
    requires k != ImpactKey
    ensures fresh(subs)
    ensures all == Objects(parts[..], k)
    ensures all ==> subs[..] == Under(parts[..], k)
  {
    subs := new Fields[parts.Length](_ => map[]);
    for i := 0 to parts.Length
      invariant fresh(subs) && parts[..] == old(parts[..])
      invariant forall j :: 0 <= j < i ==> IsObject(Lookup(parts[..][j], k)) && subs[j] == Lookup(parts[..][j], k).value.fields
    {
      if k !in parts[i] || !parts[i][k].Object? {
        assert !IsObject(Lookup(parts[..][i], k));
        return false, subs;
      }
      subs[i] := parts[i][k].fields;
    }
    all := parts.Length >= 2;
  }

  // The parts once some of their keys are dealt with.
  ghost predicate PartOf(was: seq<Fields>, now: Fields, done: set<string>, i: nat)
    requires i < |was|
  {
    forall k :: Lookup(now, k) == if k in done then RestAt(was, i, k) else Lookup(was[i], k)
  }

  ghost predicate TopOf(was: seq<Fields>, top: Fields, done: set<string>)
    requires was != []
  {
    forall k :: Lookup(top, k) == if k in done then TopAt(was, k) else None
  }

  ghost predicate Partly(was: seq<Fields>, now: seq<Fields>, top: Fields, done: set<string>) {
    was != [] && |now| == |was| && TopOf(was, top, done) && forall i: nat :: i < |was| ==> PartOf(was, now[i], done, i)
  }

  lemma ThereAtTheEnd(was: seq<Fields>, now: seq<Fields>, top: Fields)
    requires was != [] && Partly(was, now, top, was[0].Keys)
    ensures top == Top(was) && forall i :: 0 <= i < |was| ==> now[i] == Rest(was, i)
  {
    forall k ensures k !in was[0] ==> !Shared(was, k) && !Objects(was, k) {
      assert Objects(was, k) ==> IsObject(Lookup(was[0], k));
    }
    forall k ensures Lookup(top, k) == Lookup(Top(was), k) { TopLookup(was, k); }
    SameLookups(top, Top(was));
    forall i: nat | i < |was| ensures now[i] == Rest(was, i) {
      assert PartOf(was, now[i], was[0].Keys, i);
      forall k ensures Lookup(now[i], k) == Lookup(Rest(was, i), k) { RestLookup(was, i, k); }
      SameLookups(now[i], Rest(was, i));
    }
  }

  // A key no one hoists is dealt with as it is.
  lemma LeftAsItIs(was: seq<Fields>, now: seq<Fields>, top: Fields, done: set<string>, k: string)
    requires Partly(was, now, top, done) && TopAt(was, k).None?
    ensures Partly(was, now, top, done + {k})
  {
    forall i: nat | i < |was| ensures PartOf(was, now[i], done + {k}, i) {
      assert PartOf(was, now[i], done, i);
    }
  }

  // A hoisted key: its share goes to the top, and each part keeps what is left of it.
  lemma Hoisted(was: seq<Fields>, now: seq<Fields>, after: seq<Fields>, top: Fields, done: set<string>, k: string)
    requires Partly(was, now, top, done) && TopAt(was, k).Some? && |after| == |was|
    requires forall i: nat :: i < |was| ==>
      after[i] == if RestAt(was, i, k).Some? then now[i][k := RestAt(was, i, k).value] else now[i] - {k}
    ensures Partly(was, after, top[k := TopAt(was, k).value], done + {k})
  {
    forall i: nat | i < |was| ensures PartOf(was, after[i], done + {k}, i) {
      assert PartOf(was, now[i], done, i);
    }
  }

  lemma KeyUntouched(was: seq<Fields>, now: seq<Fields>, top: Fields, done: set<string>, k: string)
    requires Partly(was, now, top, done) && k !in done
    ensures forall i: nat :: i < |was| ==> Lookup(now[i], k) == Lookup(was[i], k)
    ensures k != ImpactKey ==> (Shared(now, k) <==> Shared(was, k)) && (Objects(now, k) <==> Objects(was, k))
    ensures Objects(was, k) && Objects(now, k) ==> Under(now, k) == Under(was, k)
  {
    forall i: nat | i < |was| ensures Lookup(now[i], k) == Lookup(was[i], k) {
      assert PartOf(was, now[i], done, i);
    }
  }

  method TakeShared(parts: array<Fields>, k: string)
    modifies parts
    ensures forall i :: 0 <= i < parts.Length ==> parts[i] == old(parts[i]) - {k}
  {
    for i := 0 to parts.Length
      invariant forall j :: 0 <= j < i ==> parts[j] == old(parts[j]) - {k}
      invariant forall j :: i <= j < parts.Length ==> parts[j] == old(parts[j])
    {
      parts[i] := parts[i] - {k};
    }
  }

  method WriteBack(parts: array<Fields>, k: string, subs: array<Fields>)
    requires subs.Length == parts.Length && subs != parts
    modifies parts
    ensures forall i :: 0 <= i < parts.Length ==> parts[i] == old(parts[i])[k := Object(subs[i])]
  {
    for i := 0 to parts.Length
      invariant forall j :: 0 <= j < i ==> parts[j] == old(parts[j])[k := Object(subs[j])]
      invariant forall j :: i <= j < parts.Length ==> parts[j] == old(parts[j])
    {
      parts[i] := parts[i][k := Object(subs[i])];
    }
  }

  /** Moves the common part out of each part, in place. */
  method HoistParts(parts: array<Fields>) returns (top: Fields)
    requires parts.Length > 0
    modifies parts
    ensures top == Top(old(parts[..]))
    ensures forall i :: 0 <= i < parts.Length ==> parts[i] == Rest(old(parts[..]), i)
    decreases Object(parts[0]), 2
  {
    ghost var was := parts[..];
    top := map[];
    var keys := parts[0].Keys;
    ghost var done: set<string> := {};
    while keys != {}
      invariant keys !! done && keys + done == was[0].Keys
      invariant Partly(was, parts[..], top, done)
      decreases |keys|
    {
      var k :| k in keys;
      top := HoistAny(parts, k, top, was, done);
      keys, done := keys - {k}, done + {k};
    }
    assert done == was[0].Keys;
    ThereAtTheEnd(was, parts[..], top);
  }

  // A key of the parts: the impact of each stays with it.
  method HoistAny(parts: array<Fields>, k: string, top0: Fields, ghost was: seq<Fields>, ghost done: set<string>)
    returns (top: Fields)
    requires parts.Length > 0 && Partly(was, parts[..], top0, done) && k !in done && k in was[0]
    modifies parts
    ensures Partly(was, parts[..], top, done + {k})
    decreases Object(was[0]), 1
  {
    top := top0;
    if k == ImpactKey {
      LeftAsItIs(was, parts[..], top, done, k);
    } else {
      top := HoistKey(parts, k, top, was, done);
    }
  }

  method HoistKey(parts: array<Fields>, k: string, top0: Fields, ghost was: seq<Fields>, ghost done: set<string>)
    returns (top: Fields)
    requires parts.Length > 0 && Partly(was, parts[..], top0, done)
    requires k !in done && k != ImpactKey && k in was[0]
    modifies parts
    ensures Partly(was, parts[..], top, done + {k})
    decreases Object(was[0]), 0
  {
    top := top0;
    ghost var now := parts[..];
    KeyUntouched(was, now, top, done, k);
    var shared := IsShared(parts, k);
    if shared {
      top := top[k := parts[0][k]];
      TakeShared(parts, k);
      Hoisted(was, now, parts[..], top0, done, k);
      return;
    }
    var all, subs := ObjectsUnder(parts, k);
    if !all {
      LeftAsItIs(was, now, top, done, k);
      return;
    }
    assert subs[..] == Under(was, k);
    var share := HoistParts(subs);
    if share == map[] {
      LeftAsItIs(was, now, top, done, k);
      return;
    }
    top := top[k := Object(share)];
    WriteBack(parts, k, subs);
    Hoisted(was, now, parts[..], top0, done, k);
  }

  ghost predicate BackPartly(top: Fields, part: Fields, out: Fields, done: set<string>)
    requires done <= top.Keys
  {
    forall k :: Lookup(out, k) == if k in done then PutBackAt(top, part, k) else Lookup(part, k)
  }

  // Some keys are back, none of them in vain.
  ghost predicate BackSoFar(top: Fields, part: Fields, out: Fields, done: set<string>) {
    done <= top.Keys && BackPartly(top, part, out, done) && forall k :: k in done ==> PutBackAt(top, part, k).Some?
  }

  lemma BackAtTheEnd(top: Fields, part: Fields, out: Fields)
    requires BackSoFar(top, part, out, top.Keys)
    ensures PutBack(top, part) == Some(out)
  {
    var back := PutBack(top, part).value;
    forall k ensures Lookup(back, k) == Lookup(out, k) {
    }
    SameLookups(back, out);
  }

  // One more key is back.
  lemma BackOneMore(top: Fields, part: Fields, full: Fields, done: set<string>, k: string)
    requires done <= top.Keys && k in top && k !in done && BackPartly(top, part, full, done) && PutBackAt(top, part, k).Some?
    ensures BackPartly(top, part, full[k := PutBackAt(top, part, k).value], done + {k})
  {
  }

  /** Puts back into a part what was taken out of it; fails when an object is not there to receive its share. */
  method Unhoist(top: Fields, part: Fields) returns (out: Option<Fields>)
    ensures out == PutBack(top, part)
    decreases Object(top)
  {
    var full := part;
    var keys := top.Keys;
    ghost var done: set<string> := {};
    while keys != {}
      invariant keys !! done && keys + done == top.Keys
      invariant BackSoFar(top, part, full, done)
      decreases |keys|
    {
      var k :| k in keys;
      var back := UnhoistKey(top, part, k);
      if back.None? { return None; }
      BackOneMore(top, part, full, done, k);
      full := full[k := back.value];
      keys, done := keys - {k}, done + {k};
    }
    assert done == top.Keys;
    BackAtTheEnd(top, part, full);
    return Some(full);
  }

  method UnhoistKey(top: Fields, part: Fields, k: string) returns (back: Option<Json>)
    requires k in top
    ensures back == PutBackAt(top, part, k)
    decreases Object(top), 0
  {
    if k !in part { return Some(top[k]); }
    if top[k].Leaf? || part[k].Leaf? { return None; }
    if top[k].Null? || (part[k].Null? && top[k].fields == map[]) { return Some(part[k]); }
    if part[k].Null? { return None; }
    var sub := Unhoist(top[k].fields, part[k].fields);
    if sub.None? { return None; }
    return Some(Object(sub.value));
  }
}
