// What every component shares: optional values, JSON as trees, and the order of Go strings.
module Prelude {

  datatype Option<+T> = None | Some(value: T)

  /** JSON as a tree. A leaf is anything that is not an object: a number, a string, a list... kept as its text. */
  datatype Json = Null | Leaf(text: string) | Object(fields: map<string, Json>)

  // The entry of a key of a Go map: the value and whether it is there.
  function Lookup<K, V>(m: map<K, V>, k: K): Option<V> {
    if k in m then Some(m[k]) else None
  }

  // Maps are compared key by key.
  lemma SameLookups<K, V>(a: map<K, V>, b: map<K, V>)
    requires forall k :: k in a.Keys + b.Keys ==> Lookup(a, k) == Lookup(b, k)
    ensures a == b
  {
    forall k ensures k in a <==> k in b {
      if k in a { assert Lookup(a, k) == Lookup(b, k); }
      if k in b { assert Lookup(a, k) == Lookup(b, k); }
    }
    forall k | k in a ensures a[k] == b[k] {
      assert Lookup(a, k) == Lookup(b, k);
    }
    assert a.Keys == b.Keys;
  }

  // A number in decimal (strconv.Itoa).
  function Itoa(n: nat): string {
    if n < 10 then ["0123456789"[n]] else Itoa(n / 10) + ["0123456789"[n % 10]]
  }

  function SetOf<T>(s: seq<T>): set<T> { set x | x in s }

  lemma SetOfGrows<T>(s: seq<T>, x: T)
    ensures SetOf(s + [x]) == SetOf(s) + {x}
  {
  }

  lemma WithoutMore<K, V>(m: map<K, V>, s: set<K>, k: K)
    ensures m - (s + {k}) == (m - s) - {k}
  {
  }

  lemma SnocEqual<T>(a: seq<T>, b: seq<T>, x: T, y: T)
    ensures a + [x] == b + [y] <==> a == b && x == y
  {
    if a + [x] == b + [y] {
      assert (a + [x])[..|a|] == a && (b + [y])[..|b|] == b;
      assert (a + [x])[|a|] == x && (b + [y])[|b|] == y;
    }
  }

  lemma PrefixGrows<T>(s: seq<T>, i: nat)
    requires i < |s|
    ensures s[..i + 1] == s[..i] + [s[i]]
    ensures SetOf(s[..i + 1]) == SetOf(s[..i]) + {s[i]}
  {
    SetOfGrows(s[..i], s[i]);
    assert s[..i + 1] == s[..i] + [s[i]];
  }

  lemma LastSplits<T>(s: seq<T>)
    requires s != []
    ensures s == s[..|s| - 1] + [s[|s| - 1]]
  {
  }

  lemma {:induction false} SubsetSize<T>(a: set<T>, b: set<T>)
    requires a <= b
    ensures |a| <= |b|
  {
    if a != {} {
      var x :| x in a;
      SubsetSize(a - {x}, b - {x});
    }
  }

  // The last element with a key, -1 when none has it: what a Go map from keys to positions remembers.
  function LastWith<T>(s: seq<T>, key: T -> string, k: string): (i: int)
    ensures -1 <= i < |s|
    ensures i >= 0 ==> key(s[i]) == k
    ensures i < 0 ==> forall j :: 0 <= j < |s| ==> key(s[j]) != k
  {
    if s == [] then -1
    else if key(s[|s| - 1]) == k then |s| - 1
    else LastWith(s[..|s| - 1], key, k)
  }

  lemma LastWithAdded<T>(s: seq<T>, key: T -> string, x: T, k: string)
    ensures LastWith(s + [x], key, k) == if key(x) == k then |s| else LastWith(s, key, k)
  {
    assert (s + [x])[..|s|] == s;
  }

  lemma {:induction false} LastWithUpdated<T>(s: seq<T>, key: T -> string, i: nat, x: T, k: string)
    requires i < |s| && key(x) == key(s[i])
    ensures LastWith(s[i := x], key, k) == LastWith(s, key, k)
  {
    var n := |s| - 1;
    if i < n {
      assert s[i := x][..n] == s[..n][i := x];
      LastWithUpdated(s[..n], key, i, x, k);
    } else {
      assert s[i := x][..n] == s[..n];
    }
  }

  // The last element of what follows a sequence.
  lemma MoreSplits<T>(a: seq<T>, b: seq<T>)
    requires b != []
    ensures a + b == (a + b[..|b| - 1]) + [b[|b| - 1]]
  {
  }

  // The positions of a sequence whose elements are kept, in order.
  ghost function Picked<T>(s: seq<T>, keep: T -> bool): seq<nat> {
    if s == [] then []
    else if keep(s[|s| - 1]) then Picked(s[..|s| - 1], keep) + [|s| - 1]
    else Picked(s[..|s| - 1], keep)
  }

  lemma {:induction false} PickedAre<T>(s: seq<T>, keep: T -> bool)
    ensures forall k :: 0 <= k < |Picked(s, keep)| ==> Picked(s, keep)[k] < |s| && keep(s[Picked(s, keep)[k]])
    ensures forall j, k :: 0 <= j < k < |Picked(s, keep)| ==> Picked(s, keep)[j] < Picked(s, keep)[k]
    ensures forall i: nat :: i < |s| && keep(s[i]) ==> i in Picked(s, keep)
  {
    if s != [] {
      PickedAre(s[..|s| - 1], keep);
      LastSplits(s);
    }
  }

  // Moving the head of a sequence to the end of another.
  lemma HeadMoves<T>(a: seq<T>, b: seq<T>)
    requires b != []
    ensures (a + [b[0]]) + b[1..] == a + b
  {
  }

  lemma WholePrefix<T>(s: seq<T>)
    ensures s[..|s|] == s
    ensures SetOf(s[..0]) == {}
  {
  }

  // The order of Go strings (sort.Strings, slices.Sort): lexicographic.
  predicate Leq(a: string, b: string) {
    a == [] || (b != [] && (a[0] < b[0] || (a[0] == b[0] && Leq(a[1..], b[1..]))))
  }

  lemma {:induction false} LeqTotal(a: string, b: string)
    ensures Leq(a, b) || Leq(b, a)
  {
    if a != [] && b != [] {
      LeqTotal(a[1..], b[1..]);
    }
  }

  lemma {:induction false} LeqTransitive(a: string, b: string, c: string)
    requires Leq(a, b) && Leq(b, c)
    ensures Leq(a, c)
  {
    if a != [] && b[0] == c[0] && a[0] == b[0] {
      LeqTransitive(a[1..], b[1..], c[1..]);
    }
  }

  lemma {:induction false} LeqAntisymmetric(a: string, b: string)
    requires Leq(a, b) && Leq(b, a)
    ensures a == b
  {
    if a != [] {
      LeqAntisymmetric(a[1..], b[1..]);
      assert a == [a[0]] + a[1..];
      assert b == [b[0]] + b[1..];
    }
  }

  ghost predicate IsLeast(m: string, s: set<string>) {
    m in s && forall x :: x in s ==> Leq(m, x)
  }

  lemma {:induction false} LeastExists(s: set<string>)
    requires s != {}
    ensures exists m :: IsLeast(m, s)
    decreases |s|
  {
    var x :| x in s;
    LeqTotal(x, x);
    if s == {x} {
      assert IsLeast(x, s);
    } else {
      LeastExists(s - {x});
      var m :| IsLeast(m, s - {x});
      LeqTotal(m, x);
      if Leq(m, x) {
        assert IsLeast(m, s);
      } else {
        forall y | y in s ensures Leq(x, y) {
          if y != x { LeqTransitive(x, m, y); }
        }
        assert IsLeast(x, s);
      }
    }
  }

  ghost function Least(s: set<string>): string
    requires s != {}
    ensures IsLeast(Least(s), s)
  {
    LeastExists(s);
    var m :| IsLeast(m, s); m
  }

  /** The elements of a set in order, each once. */
  ghost function SortedKeys(s: set<string>): (r: seq<string>)
    ensures |r| == |s|
    ensures forall x :: x in r <==> x in s
    decreases |s|
  {
    if s == {} then [] else [Least(s)] + SortedKeys(s - {Least(s)})
  }

  lemma SortedKeysFirst(s: set<string>, m: string)
    requires IsLeast(m, s)
    ensures SortedKeys(s) == [m] + SortedKeys(s - {m})
  {
    LeqAntisymmetric(m, Least(s));
  }

  lemma SortedKeysUnfold(s: set<string>)
    requires s != {}
    ensures SortedKeys(s) == [Least(s)] + SortedKeys(s - {Least(s)}) && |s - {Least(s)}| == |s| - 1
  {
  }

  lemma SortedKeysStep(s: set<string>, i: nat)
    requires i < |s|
    ensures |s - {Least(s)}| == |s| - 1
    ensures SortedKeys(s)[i] == if i == 0 then Least(s) else SortedKeys(s - {Least(s)})[i - 1]
  {
    SortedKeysUnfold(s);
  }

  lemma SortedKeysLeast(s: set<string>, j: nat)
    requires 0 < j < |s|
    ensures Leq(Least(s), SortedKeys(s)[j]) && Least(s) != SortedKeys(s)[j]
  {
    SortedKeysStep(s, j);
    assert SortedKeys(s - {Least(s)})[j - 1] in s - {Least(s)};
  }

  lemma {:induction false} SortedKeysAscend(s: set<string>, i: nat, j: nat, a: string, b: string)
    requires i < j < |s| && a == SortedKeys(s)[i] && b == SortedKeys(s)[j]
    ensures Leq(a, b) && a != b
    decreases |s|
  {
    if i == 0 {
      SortedKeysLeast(s, j);
      SortedKeysStep(s, i);
    } else {
      SortedKeysStep(s, i);
      SortedKeysStep(s, j);
      SortedKeysAscend(s - {Least(s)}, i - 1, j - 1, a, b);
    }
  }

  /** Sorted keys are in order, none twice. */
  lemma SortedKeysOrdered(s: set<string>, i: nat, j: nat)
    requires i < j < |s|
    ensures Leq(SortedKeys(s)[i], SortedKeys(s)[j]) && SortedKeys(s)[i] != SortedKeys(s)[j]
  {
    SortedKeysAscend(s, i, j, SortedKeys(s)[i], SortedKeys(s)[j]);
  }

  lemma SortedAscend(s: set<string>)
    ensures var names := SortedKeys(s); forall j, k :: 0 <= j < k < |names| ==> Leq(names[j], names[k]) && names[j] != names[k]
  {
    var names := SortedKeys(s);
    forall j: nat, k: nat | j < k < |names| ensures Leq(names[j], names[k]) && names[j] != names[k] { SortedKeysOrdered(s, j, k); }
  }

  // Go's sortedKeys: the keys of a map, read in any order, then sorted.
  lemma SetOfSorted(s: set<string>)
    ensures SetOf(SortedKeys(s)) == s
  {
  }

  method Sort(s: set<string>) returns (r: seq<string>)
    ensures r == SortedKeys(s)
  {
    r := [];
    var rest := s;
    assert r + SortedKeys(rest) == SortedKeys(s);
    while rest != {}
      invariant r + SortedKeys(rest) == SortedKeys(s)
      decreases |rest|
    {
      var least := MinOf(rest);
      SortedKeysFirst(rest, least);
      ghost var after := SortedKeys(rest - {least});
      assert r + ([least] + after) == (r + [least]) + after;
      r, rest := r + [least], rest - {least};
    }
  }

  method MinOf(s: set<string>) returns (m: string)
    requires s != {}
    ensures IsLeast(m, s)
  {
    m :| m in s;
    LeqTotal(m, m);
    var rest := s - {m};
    while rest != {}
      invariant rest <= s && m in s
      invariant forall x :: x in s - rest ==> Leq(m, x)
      decreases |rest|
    {
      var x :| x in rest;
      LeqTotal(m, x);
      LeqTotal(x, x);
      if !Leq(m, x) {
        forall y | y in s - rest ensures Leq(x, y) { LeqTransitive(x, m, y); }
        m := x;
      }
      rest := rest - {x};
    }
  }
}
