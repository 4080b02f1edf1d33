// The order in which changes merge, given the changes each depends on (contracts/domain/dependency.go).
module Dependencies {
  import opened Prelude

  datatype Change = Change(id: string, createdAt: int, dependsOn: seq<string>)

  // The order of the ties: by creation, then id.
  predicate Before(a: Change, b: Change) { a.createdAt < b.createdAt || (a.createdAt == b.createdAt && Leq(a.id, b.id)) }

  ghost predicate ByAge(cs: seq<Change>) { forall i: nat, j: nat :: i < j < |cs| ==> Before(cs[i], cs[j]) }

  function Ids(cs: seq<Change>): set<string> { set c | c in cs :: c.id }

  // Every change of the list it depends on is merged.
  predicate Ready(c: Change, known: set<string>, done: set<string>) {
    forall d :: d in c.dependsOn && d in known ==> d in done
  }

  // The first change that may merge, -1 when none may.
  function FirstReady(rest: seq<Change>, known: set<string>, done: set<string>): (i: int)
    ensures -1 <= i < |rest|
    ensures i >= 0 ==> Ready(rest[i], known, done) && forall k :: 0 <= k < i ==> !Ready(rest[k], known, done)
    ensures i < 0 ==> forall k :: 0 <= k < |rest| ==> !Ready(rest[k], known, done)
  {
    if rest == [] then -1
    else
      var i := FirstReady(rest[..|rest| - 1], known, done);
      if i >= 0 then i else if Ready(rest[|rest| - 1], known, done) then |rest| - 1 else -1
  }

  // The next to merge: the first that may, the oldest in a cycle.
  function Next(rest: seq<Change>, known: set<string>, done: set<string>): (i: nat)
    requires rest != []
    ensures i < |rest|
  {
    var i := FirstReady(rest, known, done);
    if i < 0 then 0 else i
  }

  function Removed(rest: seq<Change>, i: nat): (r: seq<Change>)
    requires i < |rest|
    ensures |r| == |rest| - 1
  {
    rest[..i] + rest[i + 1..]
  }

  // The order of what is left to merge.
  function Order(rest: seq<Change>, known: set<string>, done: set<string>): seq<Change>
    decreases |rest|
  {
    if rest == [] then []
    else
      var i := Next(rest, known, done);
      [rest[i]] + Order(Removed(rest, i), known, done + {rest[i].id})
  }

  // What is merged first, and the order of the rest after it.
  function Tail(rest: seq<Change>, known: set<string>, done: set<string>): seq<Change>
    requires rest != []
  {
    var i := Next(rest, known, done);
    Order(Removed(rest, i), known, done + {rest[i].id})
  }

  lemma MergeOne(out: seq<Change>, rest: seq<Change>, known: set<string>, done: set<string>)
    requires rest != []
    ensures out + Order(rest, known, done) == out + [rest[Next(rest, known, done)]] + Tail(rest, known, done)
  {
  }

  // ---- the code

  lemma BeforeTotal(a: Change, b: Change)
    ensures Before(a, b) || Before(b, a)
  {
    LeqTotal(a.id, b.id);
  }

  lemma BeforeTransitive(a: Change, b: Change, c: Change)
    requires Before(a, b) && Before(b, c)
    ensures Before(a, c)
  {
    if Leq(a.id, b.id) && Leq(b.id, c.id) { LeqTransitive(a.id, b.id, c.id); }
  }

  lemma PutInPlace(cs: seq<Change>, i: nat, c: Change)
    requires ByAge(cs) && i <= |cs|
    requires (forall k :: 0 <= k < i ==> Before(cs[k], c)) && forall k :: i <= k < |cs| ==> Before(c, cs[k])
    ensures ByAge(cs[..i] + [c] + cs[i..])
  {
    var out := cs[..i] + [c] + cs[i..];
    forall k: nat | k < |out| ensures out[k] == if k < i then cs[k] else if k == i then c else cs[k - 1] {}
  }

  // A change put in its place among the older and the younger.
  method Insert(cs: seq<Change>, c: Change) returns (out: seq<Change>)
    requires ByAge(cs)
    ensures ByAge(out) && multiset(out) == multiset(cs) + multiset{c}
  {
    var i := |cs|;
    while i > 0 && !Before(cs[i - 1], c)
      invariant 0 <= i <= |cs|
      invariant forall k :: i <= k < |cs| ==> Before(c, cs[k])
    {
      BeforeTotal(cs[i - 1], c);
      i := i - 1;
    }
    forall k | 0 <= k < i ensures Before(cs[k], c) {
      if k < i - 1 { BeforeTransitive(cs[k], cs[i - 1], c); }
    }
    PutInPlace(cs, i, c);
    out := cs[..i] + [c] + cs[i..];
    assert cs == cs[..i] + cs[i..];
  }

  method SortByAge(cs: seq<Change>) returns (out: seq<Change>)
    ensures ByAge(out) && multiset(out) == multiset(cs)
  {
    out := [];
    for i := 0 to |cs|
      invariant ByAge(out) && multiset(out) == multiset(cs[..i])
    {
      out := Insert(out, cs[i]);
      assert cs[..i + 1] == cs[..i] + [cs[i]];
    }
    assert cs[..|cs|] == cs;
  }

  method MayMerge(c: Change, known: set<string>, done: set<string>) returns (ready: bool)
    ensures ready == Ready(c, known, done)
  {
    for k := 0 to |c.dependsOn|
      invariant forall j :: 0 <= j < k && c.dependsOn[j] in known ==> c.dependsOn[j] in done
    {
      if c.dependsOn[k] in known && c.dependsOn[k] !in done { return false; }
    }
    return true;
  }

  method FindReady(rest: seq<Change>, known: set<string>, done: set<string>) returns (i: int)
    ensures i == FirstReady(rest, known, done)
  {
    for k := 0 to |rest|
      invariant forall j :: 0 <= j < k ==> !Ready(rest[j], known, done)
    {
      var ready := MayMerge(rest[k], known, done);
      if ready { return k; }
    }
    return -1;
  }

  /** The changes in the order they merge. */
  method DependencyOrder(cs: seq<Change>) returns (out: seq<Change>)
    ensures exists rest :: ByAge(rest) && multiset(rest) == multiset(cs) && out == Order(rest, Ids(cs), {})
  {
    var rest := SortByAge(cs);
    out := Merge(rest, Ids(cs));
  }

  method MergeNext(rest: seq<Change>, known: set<string>, done: set<string>)
    returns (c: Change, left: seq<Change>, merged: set<string>)
    requires rest != []
    ensures |left| < |rest| && c == rest[Next(rest, known, done)]
    ensures Order(left, known, merged) == Tail(rest, known, done)
  {
    var i := FindReady(rest, known, done);
    if i < 0 { i := 0; }
    c, left, merged := rest[i], rest[..i] + rest[i + 1..], done + {rest[i].id};
  }

  method Merge(all: seq<Change>, known: set<string>) returns (out: seq<Change>)
    ensures out == Order(all, known, {})
  {
    var rest, done: set<string> := all, {};
    out := [];
    while rest != []
      invariant out + Order(rest, known, done) == Order(all, known, {})
      decreases |rest|
    {
      var c, left, merged := MergeNext(rest, known, done);
      MergeOne(out, rest, known, done);
      out, rest, done := out + [c], left, merged;
    }
  }

  // ---- what the order promises

  lemma RemovedMultiset(rest: seq<Change>, i: nat)
    requires i < |rest|
    ensures multiset(rest) == multiset([rest[i]]) + multiset(Removed(rest, i))
  {
    assert rest == rest[..i] + [rest[i]] + rest[i + 1..];
  }

  /** Every change merges once. */
  lemma {:induction false} OrderIsPermutation(rest: seq<Change>, known: set<string>, done: set<string>)
    ensures multiset(Order(rest, known, done)) == multiset(rest)
    decreases |rest|
  {
    if rest != [] {
      var i := Next(rest, known, done);
      OrderIsPermutation(Removed(rest, i), known, done + {rest[i].id});
      RemovedMultiset(rest, i);
    }
  }

  // The changes of the list depend on each other downwards: no cycle.
  ghost predicate Acyclic(rest: seq<Change>, known: set<string>, rank: map<string, nat>) {
    (forall id :: id in known ==> id in rank) &&
    forall c :: c in rest ==> c.id in known && forall d :: d in c.dependsOn && d in known ==> rank[d] < rank[c.id]
  }

  // What is not merged is left to merge.
  ghost predicate Covered(rest: seq<Change>, known: set<string>, done: set<string>) {
    forall id :: id in known ==> id in done || id in Ids(rest)
  }

  lemma {:induction false} SomeIsReady(rest: seq<Change>, known: set<string>, done: set<string>, rank: map<string, nat>, c: Change)
    requires Acyclic(rest, known, rank) && Covered(rest, known, done) && c in rest
    ensures exists r :: r in rest && Ready(r, known, done)
    decreases rank[c.id]
  {
    if !Ready(c, known, done) {
      var d :| d in c.dependsOn && d in known && d !in done;
      var b :| b in rest && b.id == d;
      SomeIsReady(rest, known, done, rank, b);
    }
  }

  lemma NextIsReady(rest: seq<Change>, known: set<string>, done: set<string>, rank: map<string, nat>)
    requires rest != [] && Acyclic(rest, known, rank) && Covered(rest, known, done)
    ensures FirstReady(rest, known, done) >= 0
  {
    SomeIsReady(rest, known, done, rank, rest[0]);
    var r :| r in rest && Ready(r, known, done);
    var k :| 0 <= k < |rest| && rest[k] == r;
  }

  lemma RemovedHas(rest: seq<Change>, i: nat, c: Change)
    requires i < |rest|
    ensures c in Removed(rest, i) ==> c in rest
    ensures c in rest && c != rest[i] ==> c in Removed(rest, i)
  {
    assert rest == rest[..i] + [rest[i]] + rest[i + 1..];
  }

  lemma RemovedIsCovered(rest: seq<Change>, known: set<string>, done: set<string>, i: nat)
    requires i < |rest| && Covered(rest, known, done)
    ensures Covered(Removed(rest, i), known, done + {rest[i].id})
  {
    forall id | id in known && id !in done + {rest[i].id} ensures id in Ids(Removed(rest, i)) {
      var c :| c in rest && c.id == id;
      RemovedHas(rest, i, c);
    }
  }

  // The changes merged, counting some more.
  function Marked(done: set<string>, cs: seq<Change>): set<string>
    decreases |cs|
  {
    if cs == [] then done else Marked(done + {cs[0].id}, cs[1..])
  }

  // What is merged before the p-th change, when the first is counted as done.
  lemma MarkedCons(done: set<string>, first: Change, cs: seq<Change>)
    ensures Marked(done, [first] + cs) == Marked(done + {first.id}, cs)
  {
    assert ([first] + cs)[1..] == cs;
  }

  lemma OrderIsCons(rest: seq<Change>, known: set<string>, done: set<string>)
    requires rest != []
    ensures Order(rest, known, done) == [rest[Next(rest, known, done)]] + Tail(rest, known, done)
  {
  }

  lemma MergedBefore(rest: seq<Change>, known: set<string>, done: set<string>, p: nat)
    requires rest != [] && 0 < p <= |Order(rest, known, done)|
    ensures p - 1 <= |Tail(rest, known, done)|
    ensures p < |Order(rest, known, done)| ==> Order(rest, known, done)[p] == Tail(rest, known, done)[p - 1]
    ensures Marked(done, Order(rest, known, done)[..p])
         == Marked(done + {rest[Next(rest, known, done)].id}, Tail(rest, known, done)[..p - 1])
  {
    OrderIsCons(rest, known, done);
    var first, tail := rest[Next(rest, known, done)], Tail(rest, known, done);
    assert ([first] + tail)[..p] == [first] + tail[..p - 1];
    MarkedCons(done, first, tail[..p - 1]);
  }

  lemma {:induction false} MarkedHas(done: set<string>, cs: seq<Change>, id: string)
    ensures id in Marked(done, cs) <==> id in done || exists q :: 0 <= q < |cs| && cs[q].id == id
    decreases |cs|
  {
    if cs != [] {
      MarkedHas(done + {cs[0].id}, cs[1..], id);
      assert forall q :: 0 <= q < |cs| - 1 ==> cs[1..][q] == cs[q + 1];
      if id !in done && (exists q :: 0 <= q < |cs| && cs[q].id == id) {
        var q :| 0 <= q < |cs| && cs[q].id == id;
        assert q > 0 ==> cs[1..][q - 1].id == id;
      }
    }
  }

  lemma TailIsAcyclic(rest: seq<Change>, known: set<string>, rank: map<string, nat>, i: nat)
    requires i < |rest| && Acyclic(rest, known, rank)
    ensures Acyclic(Removed(rest, i), known, rank)
  {
    forall c | c in Removed(rest, i) ensures c in rest { RemovedHas(rest, i, c); }
  }

  /** With no cycle, each change merges after all those of the list it depends on. */
  lemma {:induction false} OrderIsTopological(rest: seq<Change>, known: set<string>, done: set<string>, rank: map<string, nat>, p: nat)
    requires Acyclic(rest, known, rank) && Covered(rest, known, done) && p < |Order(rest, known, done)|
    ensures Ready(Order(rest, known, done)[p], known, Marked(done, Order(rest, known, done)[..p]))
    decreases |rest|
  {
    var i := Next(rest, known, done);
    if p == 0 {
      NextIsReady(rest, known, done, rank);
    } else {
      TailIsAcyclic(rest, known, rank, i);
      RemovedIsCovered(rest, known, done, i);
      MergedBefore(rest, known, done, p);
      OrderIsTopological(Removed(rest, i), known, done + {rest[i].id}, rank, p - 1);
    }
  }

  lemma RemovedByAge(rest: seq<Change>, i: nat)
    requires i < |rest| && ByAge(rest)
    ensures ByAge(Removed(rest, i))
  {
  }

  // The order from a position on is the order of what is left there.
  lemma {:induction false} OrderFrom(rest: seq<Change>, known: set<string>, done: set<string>, p: nat) returns (left: seq<Change>)
    requires ByAge(rest) && p <= |Order(rest, known, done)|
    ensures ByAge(left)
    ensures Order(left, known, Marked(done, Order(rest, known, done)[..p])) == Order(rest, known, done)[p..]
    decreases |rest|
  {
    if p == 0 {
      left := rest;
    } else {
      var i := Next(rest, known, done);
      RemovedByAge(rest, i);
      MergedBefore(rest, known, done, p);
      left := OrderFrom(Removed(rest, i), known, done + {rest[i].id}, p - 1);
      assert Order(rest, known, done)[p..] == Tail(rest, known, done)[p - 1..];
    }
  }

  /** Each change is the oldest of those that could merge in its place: by creation, then id. */
  lemma OrderTakesTheOldest(rest: seq<Change>, known: set<string>, done: set<string>, p: nat, q: nat)
    requires ByAge(rest) && p < q < |Order(rest, known, done)|
    requires Ready(Order(rest, known, done)[q], known, Marked(done, Order(rest, known, done)[..p]))
    ensures Before(Order(rest, known, done)[p], Order(rest, known, done)[q])
  {
    var out := Order(rest, known, done);
    var left := OrderFrom(rest, known, done, p);
    assert out[p..][0] == out[p] && out[p..][q - p] == out[q];
    OldestComesFirst(left, known, Marked(done, out[..p]), out[p..], q - p);
  }

  lemma OldestComesFirst(rest: seq<Change>, known: set<string>, done: set<string>, out: seq<Change>, q: nat)
    requires ByAge(rest) && out == Order(rest, known, done) && 0 < q < |out|
    requires Ready(out[q], known, done)
    ensures Before(out[0], out[q])
  {
    var i := Next(rest, known, done);
    var tail := Tail(rest, known, done);
    MergedBefore(rest, known, done, q);
    OrderIsPermutation(Removed(rest, i), known, done + {rest[i].id});
    assert tail[q - 1] in multiset(tail);
    FirstIsOldest(rest, known, done, tail[q - 1]);
  }

  lemma FirstIsOldest(rest: seq<Change>, known: set<string>, done: set<string>, c: Change)
    requires rest != [] && ByAge(rest) && c in Removed(rest, Next(rest, known, done)) && Ready(c, known, done)
    ensures Before(rest[Next(rest, known, done)], c)
  {
    var i := Next(rest, known, done);
    var k :| 0 <= k < |rest| - 1 && Removed(rest, i)[k] == c;
    var at := if k < i then k else k + 1;
    assert rest[at] == c;
  }

  /** The order of a list: a permutation of it, each change after those of the list it depends on when there is no cycle. */
  lemma DependenciesMergeFirst(cs: seq<Change>, rest: seq<Change>, rank: map<string, nat>, p: nat)
    requires multiset(rest) == multiset(cs) && Acyclic(cs, Ids(cs), rank) && p < |cs|
    ensures |Order(rest, Ids(cs), {})| == |cs|
    ensures var out := Order(rest, Ids(cs), {});
            forall d :: d in out[p].dependsOn && d in Ids(cs) ==> exists q :: 0 <= q < p && out[q].id == d
  {
    var known := Ids(cs);
    SameChanges(cs, rest);
    OrderIsPermutation(rest, known, {});
    SameSize(Order(rest, known, {}), cs);
    OrderIsTopological(rest, known, {}, rank, p);
    ReadyMeansBefore(Order(rest, known, {}), known, p);
  }

  lemma SameChanges(cs: seq<Change>, rest: seq<Change>)
    requires multiset(rest) == multiset(cs)
    ensures forall c :: c in rest <==> c in cs
  {
    forall c ensures c in rest <==> c in cs { assert c in multiset(rest) <==> c in multiset(cs); }
  }

  lemma SameSize(a: seq<Change>, b: seq<Change>)
    requires multiset(a) == multiset(b)
    ensures |a| == |b|
  {
    assert |multiset(a)| == |a| && |multiset(b)| == |b|;
  }

  lemma ReadyMeansBefore(out: seq<Change>, known: set<string>, p: nat)
    requires p < |out| && Ready(out[p], known, Marked({}, out[..p]))
    ensures forall d :: d in out[p].dependsOn && d in known ==> exists q :: 0 <= q < p && out[q].id == d
  {
    forall d | d in out[p].dependsOn && d in known ensures exists q :: 0 <= q < p && out[q].id == d {
      MarkedHas({}, out[..p], d);
      var q :| 0 <= q < p && out[..p][q].id == d;
      assert out[q].id == d;
    }
  }
}
