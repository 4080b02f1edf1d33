// What the data of a review item holds, and what data of any shape reads as (contracts/domain/reviewrecord.go).
module ReviewShapes {
  import opened Prelude
  import opened ReviewData
  import CodeText

  // ---- the defaults of entries

  // The entries that hold a value of a field, among the first ones.
  function Holders(ms: seq<Entry>, n: nat, f: Key, v: string): set<nat> {
    set i: nat | i < n && i < |ms| && Holds(ms[i], f, v)
  }

  // A value that most entries hold, two at least, and that was held so often before any other was.
  ghost predicate HeldMost(ms: seq<Entry>, f: Key, v: string) {
    |Holders(ms, |ms|, f, v)| >= 2 && (forall w :: |Holders(ms, |ms|, f, w)| <= |Holders(ms, |ms|, f, v)|) &&
    exists n: nat :: n <= |ms| && FirstHeld(ms, n, f, v)
  }

  ghost predicate FirstHeld(ms: seq<Entry>, n: nat, f: Key, v: string) {
    |Holders(ms, n, f, v)| == |Holders(ms, |ms|, f, v)| &&
    forall w :: w != v ==> |Holders(ms, n, f, w)| < |Holders(ms, |ms|, f, v)|
  }

  predicate IsField(f: Key) { f == KOutcome || f == KComment || f == KWriter }

  /**
   * Two entries or more share as default, for each of three fields, the value held most, when two hold it; an entry that holds
   * the default leaves it out, one that has no value says null, and all else stays.
   */
  ghost predicate DefaultsSay(ms: seq<Entry>, defaults: Entry, rest: seq<Entry>) {
    |rest| == |ms| && (forall f :: f in defaults ==> IsField(f) && |ms| >= 2 && DefaultIs(ms, f, defaults[f])) &&
    (forall f, v :: IsField(f) && |ms| >= 2 && HeldMost(ms, f, v) ==> f in defaults) &&
    forall i, g :: 0 <= i < |ms| ==> Lookup(rest[i], g) == Left(ms[i], defaults, g)
  }

  ghost predicate DefaultIs(ms: seq<Entry>, f: Key, d: Value) { d.Text? && HeldMost(ms, f, d.text) }

  // What an entry keeps under a key.
  function Left(m: Entry, defaults: Entry, g: Key): Option<Value> {
    if g !in defaults then Lookup(m, g)
    else if g !in m then Some(Value.Null)
    else if m[g] == defaults[g] then None else Some(m[g])
  }

  lemma HoldersMore(ms: seq<Entry>, n: nat, next: nat, f: Key, v: string)
    requires n < |ms| && next == n + 1
    ensures |Holders(ms, next, f, v)| == |Holders(ms, n, f, v)| + if Holds(ms[n], f, v) then 1 else 0
  {
    assert Holders(ms, next, f, v) == if Holds(ms[n], f, v) then Holders(ms, n, f, v) + {n} else Holders(ms, n, f, v);
  }

  lemma {:induction false} CountIsHolders(ms: seq<Entry>, n: nat, f: Key, v: string)
    requires n <= |ms|
    ensures CountOf(ms[..n], f, v) == |Holders(ms, n, f, v)|
  {
    if n == 0 {
      assert Holders(ms, 0, f, v) == {};
    } else {
      var last := n - 1;
      CountIsHolders(ms, last, f, v);
      assert ms[..n][..last] == ms[..last];
      HoldersMore(ms, last, n, f, v);
    }
  }

  // Among the first entries, the best value is held most, and was before any other.
  ghost predicate BestSays(ms: seq<Entry>, n: nat, f: Key, best: string, held: nat) {
    (forall w :: |Holders(ms, n, f, w)| <= held) &&
    (held > 0 ==> |Holders(ms, n, f, best)| == held && exists k: nat :: k <= n && BestAt(ms, k, f, best, held))
  }

  ghost predicate BestAt(ms: seq<Entry>, k: nat, f: Key, best: string, held: nat) {
    |Holders(ms, k, f, best)| == held && forall w :: w != best ==> |Holders(ms, k, f, w)| < held
  }

  lemma BestMore(ms: seq<Entry>, n: nat, next: nat, f: Key, best: string, held: nat)
    requires n < |ms| && next == n + 1 && BestSays(ms, n, f, best, held)
    ensures if f in ms[n] && ms[n][f].Text? && |Holders(ms, next, f, ms[n][f].text)| > held
            then BestSays(ms, next, f, ms[n][f].text, |Holders(ms, next, f, ms[n][f].text)|)
            else BestSays(ms, next, f, best, held)
  {
    forall w ensures |Holders(ms, next, f, w)| == |Holders(ms, n, f, w)| + if Holds(ms[n], f, w) then 1 else 0 {
      HoldersMore(ms, n, next, f, w);
    }
    if f in ms[n] && ms[n][f].Text? && |Holders(ms, next, f, ms[n][f].text)| > held {
      assert BestAt(ms, next, f, ms[n][f].text, |Holders(ms, next, f, ms[n][f].text)|);
    } else if held > 0 {
      var k: nat :| k <= n && BestAt(ms, k, f, best, held);
      assert !Holds(ms[n], f, best);
    }
  }

  lemma {:induction false} MostIsBest(ms: seq<Entry>, n: nat, f: Key)
    requires n <= |ms|
    ensures BestSays(ms, n, f, Most(ms[..n], f).0, Most(ms[..n], f).1)
  {
    if n == 0 {
      forall w ensures Holders(ms, 0, f, w) == {} { }
    } else {
      var last := n - 1;
      MostIsBest(ms, last, f);
      assert ms[..n][..last] == ms[..last];
      var (best, held) := Most(ms[..last], f);
      BestMore(ms, last, n, f, best, held);
      if f in ms[last] && ms[last][f].Text? { CountIsHolders(ms, n, f, ms[last][f].text); }
    }
  }

  lemma MostIsHeldMost(ms: seq<Entry>, f: Key)
    ensures Most(ms, f).1 >= 2 ==> HeldMost(ms, f, Most(ms, f).0)
    ensures Most(ms, f).1 < 2 ==> forall v :: !HeldMost(ms, f, v)
  {
    assert ms[..|ms|] == ms;
    MostIsBest(ms, |ms|, f);
    var (best, held) := Most(ms, f);
    if held >= 2 {
      var n: nat :| n <= |ms| && BestAt(ms, n, f, best, held);
      assert FirstHeld(ms, n, f, best);
    }
  }

  // ---- one field after another

  ghost predicate FactoredSay(ms: seq<Entry>, n: nat, defaults: Entry, rest: seq<Entry>) {
    n <= |EntryFields| && |rest| == |ms| && (forall f :: f in defaults ==> f in EntryFields[..n] && DefaultIs(ms, f, defaults[f])) &&
    (forall f, v :: f in EntryFields[..n] && HeldMost(ms, f, v) ==> f in defaults) &&
    forall i, g :: 0 <= i < |ms| ==> Lookup(rest[i], g) == Left(ms[i], defaults, g)
  }

  lemma {:induction false} CountAlike(a: seq<Entry>, b: seq<Entry>, f: Key, v: string)
    requires |a| == |b| && forall i :: 0 <= i < |a| ==> Lookup(a[i], f) == Lookup(b[i], f)
    ensures CountOf(a, f, v) == CountOf(b, f, v)
  {
    if a != [] {
      var n := |a| - 1;
      CountAlike(a[..n], b[..n], f, v);
      assert Lookup(a[n], f) == Lookup(b[n], f);
    }
  }

  lemma {:induction false} MostAlike(a: seq<Entry>, b: seq<Entry>, f: Key)
    requires |a| == |b| && forall i :: 0 <= i < |a| ==> Lookup(a[i], f) == Lookup(b[i], f)
    ensures Most(a, f) == Most(b, f)
  {
    if a != [] {
      var n := |a| - 1;
      MostAlike(a[..n], b[..n], f);
      assert Lookup(a[n], f) == Lookup(b[n], f);
      if f in a[n] && a[n][f].Text? { CountAlike(a, b, f, a[n][f].text); }
    }
  }

  lemma WithoutLeaves(m: Entry, now: Entry, defaults: Entry, f: Key, best: string, g: Key)
    requires f !in defaults && (forall k :: Lookup(now, k) == Left(m, defaults, k))
    ensures Lookup(Without(now, f, best), g) == Left(m, defaults[f := Text(best)], g)
  {
    assert Lookup(now, f) == Left(m, defaults, f) && Lookup(now, g) == Left(m, defaults, g);
    WithoutAt(now, f, best, g);
    LeftAt(m, defaults, f, best, g);
  }

  // What is left of a value once the default is taken out.
  function Taken(v: Option<Value>, best: string): Option<Value> {
    if v.None? then Some(Value.Null) else if v.value == Text(best) then None else v
  }

  lemma WithoutAt(m: Entry, f: Key, best: string, g: Key)
    ensures Lookup(Without(m, f, best), g) == if g == f then Taken(Lookup(m, f), best) else Lookup(m, g)
  {
  }

  lemma LeftAt(m: Entry, defaults: Entry, f: Key, best: string, g: Key)
    requires f !in defaults
    ensures Left(m, defaults[f := Text(best)], g) == if g == f then Taken(Lookup(m, f), best) else Left(m, defaults, g)
    ensures Left(m, defaults, f) == Lookup(m, f)
  {
  }

  lemma FieldsDiffer(n: nat)
    requires 0 < n <= |EntryFields|
    ensures EntryFields[n - 1] !in EntryFields[..n - 1]
    ensures forall f :: f in EntryFields[..n] <==> f in EntryFields[..n - 1] || f == EntryFields[n - 1]
    ensures forall f :: f in EntryFields <==> IsField(f)
  {
    LastSplits(EntryFields[..n]);
    assert EntryFields[..n][..n - 1] == EntryFields[..n - 1];
    forall f ensures f in EntryFields <==> IsField(f) {
      assert EntryFields[0] == KOutcome && EntryFields[1] == KComment && EntryFields[2] == KWriter;
    }
  }

  lemma FactoredMore(ms: seq<Entry>, last: nat, n: nat, defaults: Entry, rest: seq<Entry>, best: string)
    requires n == last + 1 <= |EntryFields| && FactoredSay(ms, last, defaults, rest) && HeldMost(ms, EntryFields[last], best)
    ensures FactoredSay(ms, n, defaults[EntryFields[last] := Text(best)], AllWithout(rest, EntryFields[last], best))
  {
    var f := EntryFields[last];
    FieldsDiffer(n);
    var now := AllWithout(rest, f, best);
    forall i, g | 0 <= i < |ms| ensures Lookup(now[i], g) == Left(ms[i], defaults[f := Text(best)], g) {
      WithoutLeaves(ms[i], rest[i], defaults, f, best, g);
    }
  }

  lemma {:induction false} FactoredIsSaid(ms: seq<Entry>, n: nat)
    requires n <= |EntryFields|
    ensures FactoredSay(ms, n, Factored(ms, n).0, Factored(ms, n).1)
  {
    if n > 0 {
      var last := n - 1;
      FactoredIsSaid(ms, last);
      FieldsDiffer(n);
      var (defaults, rest) := Factored(ms, last);
      var f := EntryFields[last];
      MostAlike(rest, ms, f);
      MostIsHeldMost(ms, f);
      if Most(rest, f).1 >= 2 { FactoredMore(ms, last, n, defaults, rest, Most(rest, f).0); }
    }
  }

  /** What the entries share is taken out of them, and nothing else. */
  lemma DefaultsAreShared(ms: seq<Entry>)
    ensures DefaultsSay(ms, Defaults(ms).0, Defaults(ms).1)
  {
    if |ms| >= 2 {
      FactoredIsSaid(ms, |EntryFields|);
      FieldsDiffer(|EntryFields|);
      assert EntryFields[..|EntryFields|] == EntryFields;
    }
  }

  // ---- data of any shape

  // A text without the spaces around it, none: "".
  function TextIn(v: Option<Value>): string {
    if v.Some? && v.value.Text? then CodeText.TrimSpace(v.value.text) else ""
  }

  // A part that is given: not when it is left out or null, and empty when it is no text.
  function GivenIn(v: Option<Value>): Option<string> {
    if v.None? || v.value.Null? then None else Some(TextIn(v))
  }

  // A field of an entry: its own, or the default.
  function FieldOf(m: Entry, defaults: Entry, k: Key): Option<Value> {
    if k in m then Some(m[k]) else Lookup(defaults, k)
  }

  /** The edit of an entry: its impact, and what it or the defaults give of its parts. */
  predicate EditSays(m: Entry, defaults: Entry, e: Edit) {
    e == Edit(TextIn(FieldOf(m, defaults, KImpact)), GivenIn(FieldOf(m, defaults, KComment)), GivenIn(FieldOf(m, defaults, KOutcome)),
              TextIn(FieldOf(m, defaults, KWriter)))
  }

  // An element is an entry, or the text of an impact.
  predicate IsEdit(v: Value) { v.Fields? || v.Text? }

  predicate ElementSays(v: Value, defaults: Entry, e: Edit) {
    (v.Fields? && EditSays(v.fields, defaults, e)) || (v.Text? && EditSays(map[KImpact := v], defaults, e))
  }

  ghost predicate EditsSay(vs: seq<Value>, defaults: Entry, at: seq<nat>, es: seq<Edit>) {
    |es| == |at| && (forall j, k :: 0 <= j < k < |at| ==> at[j] < at[k]) &&
    (forall k :: 0 <= k < |at| ==> at[k] < |vs| && ElementSays(vs[at[k]], defaults, es[k])) &&
    forall i: nat :: i < |vs| && IsEdit(vs[i]) ==> i in at
  }

  ghost predicate StringsSay(vs: seq<Value>, at: seq<nat>, ss: seq<string>) {
    |ss| == |at| && (forall j, k :: 0 <= j < k < |at| ==> at[j] < at[k]) &&
    (forall k :: 0 <= k < |at| ==> at[k] < |vs| && vs[at[k]].Text? && ss[k] == CodeText.TrimSpace(vs[at[k]].text)) &&
    forall i: nat :: i < |vs| && vs[i].Text? ==> i in at
  }

  // The elements of a list, none of anything else.
  function Elements(v: Option<Value>): seq<Value> { if v.Some? && v.value.List? then v.value.list else [] }

  function FieldsIn(v: Option<Value>): Entry { if v.Some? && v.value.Fields? then v.value.fields else map[] }

  /** The delta of data of any shape: its texts, the texts of its removals and the edits of its entries, each in order. */
  ghost predicate DeltaSays(m: Entry, d: Delta, removed: seq<nat>, edited: seq<nat>) {
    d.key == TextIn(Lookup(m, KKey)) && d.status == TextIn(Lookup(m, KStatus)) && d.comment == GivenIn(Lookup(m, KComment)) &&
    d.writer == TextIn(Lookup(m, KWriter)) && StringsSay(Elements(Lookup(m, KRemove)), removed, d.remove) &&
    EditsSay(Elements(Lookup(m, KEntries)), FieldsIn(Lookup(m, KDefaults)), edited, d.entries)
  }

  lemma {:induction false} StringsAre(vs: seq<Value>) returns (at: seq<nat>)
    ensures StringsSay(vs, at, StringsOf(vs))
  {
    if vs == [] {
      at := [];
    } else {
      var n := |vs| - 1;
      at := StringsAre(vs[..n]);
      if vs[n].Text? {
        StringsMore(vs, n, at, StringsOf(vs[..n]), CodeText.TrimSpace(vs[n].text));
        at := at + [n];
      } else {
        StringsLess(vs, n, at, StringsOf(vs[..n]));
      }
    }
  }

  lemma StringsMore(vs: seq<Value>, n: nat, at: seq<nat>, ss: seq<string>, t: string)
    requires |vs| == n + 1 && StringsSay(vs[..n], at, ss) && vs[n].Text? && t == CodeText.TrimSpace(vs[n].text)
    ensures StringsSay(vs, at + [n], ss + [t])
  {
    forall i: nat | i < n ensures vs[..n][i] == vs[i] { }
  }

  lemma StringsLess(vs: seq<Value>, n: nat, at: seq<nat>, ss: seq<string>)
    requires |vs| == n + 1 && StringsSay(vs[..n], at, ss) && !vs[n].Text?
    ensures StringsSay(vs, at, ss)
  {
    forall i: nat | i < n ensures vs[..n][i] == vs[i] { }
  }

  lemma EditIs(m: Entry, defaults: Entry)
    ensures EditSays(m, defaults, EditOf(m, defaults))
  {
    forall k ensures Lookup(Filled(m, defaults), k) == FieldOf(m, defaults, k) { }
    ReadsAt(Filled(m, defaults), KImpact);
    ReadsAt(Filled(m, defaults), KComment);
    ReadsAt(Filled(m, defaults), KOutcome);
    ReadsAt(Filled(m, defaults), KWriter);
  }

  lemma ReadsAt(m: Entry, k: Key)
    ensures StringAt(m, k) == TextIn(Lookup(m, k)) && OptionalAt(m, k) == GivenIn(Lookup(m, k))
  {
  }

  lemma ElementIs(v: Value, defaults: Entry)
    ensures OneEdit(v, defaults).Some? <==> IsEdit(v)
    ensures IsEdit(v) ==> ElementSays(v, defaults, OneEdit(v, defaults).value)
  {
    if v.Fields? { EditIs(v.fields, defaults); }
    if v.Text? { EditIs(map[KImpact := v], defaults); }
  }

  lemma {:induction false} EditsAre(vs: seq<Value>, defaults: Entry) returns (at: seq<nat>)
    ensures EditsSay(vs, defaults, at, EditsOf(vs, defaults))
  {
    if vs == [] {
      at := [];
    } else {
      var n := |vs| - 1;
      at := EditsAre(vs[..n], defaults);
      ElementIs(vs[n], defaults);
      EditsMore(vs, n, defaults, at, EditsOf(vs[..n], defaults), OneEdit(vs[n], defaults));
      if IsEdit(vs[n]) { at := at + [n]; }
    }
  }

  lemma EditsMore(vs: seq<Value>, n: nat, defaults: Entry, at: seq<nat>, es: seq<Edit>, e: Option<Edit>)
    requires |vs| == n + 1 && EditsSay(vs[..n], defaults, at, es) && (e.Some? <==> IsEdit(vs[n]))
    requires e.Some? ==> ElementSays(vs[n], defaults, e.value)
    ensures e.Some? ==> EditsSay(vs, defaults, at + [n], es + [e.value])
    ensures e.None? ==> EditsSay(vs, defaults, at, es)
  {
    forall i: nat | i < n ensures vs[..n][i] == vs[i] { }
  }

  /** Data of any shape reads as what its fields say. */
  lemma DeltaIsItsData(m: Entry) returns (removed: seq<nat>, edited: seq<nat>)
    ensures DeltaSays(m, DeltaOf(m), removed, edited)
  {
    ReadsAt(m, KKey);
    ReadsAt(m, KStatus);
    ReadsAt(m, KComment);
    ReadsAt(m, KWriter);
    removed := StringsAre(ListAt(m, KRemove));
    edited := EditsAre(ListAt(m, KEntries), DefaultsAt(m));
  }
}
