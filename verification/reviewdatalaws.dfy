// What is written of a review delta reads back (contracts/domain/reviewrecord.go).
module ReviewDataLaws {
  import opened Prelude
  import opened ReviewData
  import CodeText

  // ---- the defaults

  /** The value taken as a default is held by the most entries. */
  lemma {:induction false} MostIsHeldMost(ms: seq<Entry>, f: Key, v: string)
    ensures CountOf(ms, f, v) <= Most(ms, f).1
    ensures Most(ms, f).1 > 0 ==> CountOf(ms, f, Most(ms, f).0) == Most(ms, f).1
  {
    if ms != [] {
      var n := |ms| - 1;
      MostIsHeldMost(ms[..n], f, v);
      if f in ms[n] && ms[n][f].Text? { MostIsHeldMost(ms[..n], f, ms[n][f].text); }
    }
  }

  // Two entries that give the same of every field.
  ghost predicate ReadsAlike(a: Entry, b: Entry) {
    forall f :: StringAt(a, f) == StringAt(b, f) && OptionalAt(a, f) == OptionalAt(b, f)
  }

  lemma WithoutReadsAlike(m: Entry, defaults: Entry, f: Key, best: string)
    requires f !in defaults
    ensures ReadsAlike(Filled(Without(m, f, best), defaults[f := Text(best)]), Filled(m, defaults))
  {
    var full, was := Filled(Without(m, f, best), defaults[f := Text(best)]), Filled(m, defaults);
    forall g ensures StringAt(full, g) == StringAt(was, g) && OptionalAt(full, g) == OptionalAt(was, g) {
      WithoutAt(m, defaults, f, best, g);
      SameGives(full, was, g);
    }
  }

  lemma WithoutAt(m: Entry, defaults: Entry, f: Key, best: string, g: Key)
    requires f !in defaults
    ensures var full, was := Filled(Without(m, f, best), defaults[f := Text(best)]), Filled(m, defaults);
            Lookup(full, g) == Lookup(was, g) || (Lookup(full, g) == Some(Value.Null) && g !in was)
  {
  }

  lemma SameGives(a: Entry, b: Entry, g: Key)
    requires Lookup(a, g) == Lookup(b, g) || (Lookup(a, g) == Some(Value.Null) && g !in b)
    ensures StringAt(a, g) == StringAt(b, g) && OptionalAt(a, g) == OptionalAt(b, g)
  {
  }

  // Entries and their defaults against the entries they were taken out of, for the first fields.
  ghost predicate FactoredFrom(ms: seq<Entry>, defaults: Entry, rest: seq<Entry>, n: nat)
    requires n <= |EntryFields| && |rest| == |ms|
  {
    (forall g :: g !in EntryFields[..n] ==> g !in defaults) &&
    forall i :: 0 <= i < |ms| ==> FactoredEntry(ms[i], defaults, rest[i], n)
  }

  ghost predicate FactoredEntry(m: Entry, defaults: Entry, rest: Entry, n: nat)
    requires n <= |EntryFields|
  {
    ReadsAlike(Filled(rest, defaults), m) && forall g :: g !in EntryFields[..n] ==> Lookup(rest, g) == Lookup(m, g)
  }

  lemma FieldIsNext(n: nat)
    requires 0 < n <= |EntryFields|
    ensures EntryFields[n - 1] !in EntryFields[..n - 1]
    ensures forall g :: g in EntryFields[..n] <==> g in EntryFields[..n - 1] || g == EntryFields[n - 1]
  {
    assert EntryFields[..n] == EntryFields[..n - 1] + [EntryFields[n - 1]];
  }

  lemma EntryStep(m: Entry, defaults: Entry, rest: Entry, n: nat, best: string)
    requires 0 < n <= |EntryFields| && FactoredEntry(m, defaults, rest, n - 1) && EntryFields[n - 1] !in defaults
    ensures FactoredEntry(m, defaults[EntryFields[n - 1] := Text(best)], Without(rest, EntryFields[n - 1], best), n)
  {
    FieldIsNext(n);
    WithoutReadsAlike(rest, defaults, EntryFields[n - 1], best);
  }

  lemma EntryStays(m: Entry, defaults: Entry, rest: Entry, n: nat)
    requires 0 < n <= |EntryFields| && FactoredEntry(m, defaults, rest, n - 1)
    ensures FactoredEntry(m, defaults, rest, n)
  {
    FieldIsNext(n);
  }

  lemma {:induction false} FactoredReadsAlike(ms: seq<Entry>, n: nat)
    requires n <= |EntryFields|
    ensures var (defaults, rest) := Factored(ms, n); FactoredFrom(ms, defaults, rest, n)
  {
    if n == 0 {
      forall i | 0 <= i < |ms| ensures FactoredEntry(ms[i], map[], ms[i], 0) { assert Filled(ms[i], map[]) == ms[i]; }
    } else {
      FactoredReadsAlike(ms, n - 1);
      FieldIsNext(n);
      var (defaults, rest) := Factored(ms, n - 1);
      var (best, held) := Most(rest, EntryFields[n - 1]);
      forall i | 0 <= i < |ms| ensures FactoredEntry(ms[i], Factored(ms, n).0, Factored(ms, n).1[i], n) {
        if held < 2 { EntryStays(ms[i], defaults, rest[i], n); } else { EntryStep(ms[i], defaults, rest[i], n, best); }
      }
    }
  }

  lemma DefaultsReadAlike(ms: seq<Entry>, i: nat)
    requires i < |ms|
    ensures var (defaults, rest) := Defaults(ms);
            ReadsAlike(Filled(rest[i], defaults), ms[i]) && Lookup(rest[i], KImpact) == Lookup(ms[i], KImpact)
  {
    if |ms| < 2 {
      assert Filled(ms[i], map[]) == ms[i];
    } else {
      FactoredReadsAlike(ms, |EntryFields|);
    }
  }

  // ---- the entries

  function Trimmed(o: Option<string>): Option<string> { if o.None? then None else Some(CodeText.TrimSpace(o.value)) }

  function TrimmedEdit(e: Edit): Edit {
    Edit(CodeText.TrimSpace(e.impact), Trimmed(e.comment), Trimmed(e.outcome), CodeText.TrimSpace(e.writer))
  }

  function TrimmedStrings(ss: seq<string>): (out: seq<string>)
    ensures |out| == |ss| && forall i :: 0 <= i < |ss| ==> out[i] == CodeText.TrimSpace(ss[i])
  {
    seq(|ss|, i requires 0 <= i < |ss| => CodeText.TrimSpace(ss[i]))
  }

  function TrimmedEdits(es: seq<Edit>): (out: seq<Edit>)
    ensures |out| == |es| && forall i :: 0 <= i < |es| ==> out[i] == TrimmedEdit(es[i])
  {
    seq(|es|, i requires 0 <= i < |es| => TrimmedEdit(es[i]))
  }

  function TrimmedDelta(d: Delta): Delta {
    Delta(CodeText.TrimSpace(d.key), CodeText.TrimSpace(d.status), Trimmed(d.comment), CodeText.TrimSpace(d.writer),
          TrimmedStrings(d.remove), TrimmedEdits(d.entries))
  }

  lemma EntryGives(e: Edit)
    ensures var m := EntryOf(e);
            StringAt(m, KImpact) == CodeText.TrimSpace(e.impact) && OptionalAt(m, KComment) == Trimmed(e.comment) &&
            OptionalAt(m, KOutcome) == Trimmed(e.outcome) && StringAt(m, KWriter) == CodeText.TrimSpace(e.writer)
    ensures Lookup(EntryOf(e), KImpact) == Some(Text(e.impact))
  {
  }

  lemma OnlyKey<K, V>(m: map<K, V>, k: K)
    requires |m| == 1 && k in m
    ensures m == map[k := m[k]]
  {
    assert |m.Keys| == |m|;
    assert |m.Keys - {k}| == 0;
    forall x | x in m ensures x == k { assert x != k ==> x in m.Keys - {k}; }
  }

  lemma ShortenedReads(m: Entry, defaults: Entry)
    requires KImpact in m && m[KImpact].Text?
    ensures OneEdit(Shortened(m), defaults) == Some(EditOf(m, defaults))
  {
    if |m| == 1 { OnlyKey(m, KImpact); }
  }

  lemma {:induction false} EachEdit(vs: seq<Value>, defaults: Entry, es: seq<Edit>)
    requires |es| == |vs| && forall i :: 0 <= i < |vs| ==> OneEdit(vs[i], defaults) == Some(es[i])
    ensures EditsOf(vs, defaults) == es
  {
    if vs != [] {
      var n := |vs| - 1;
      EachEdit(vs[..n], defaults, es[..n]);
      assert es == es[..n] + [es[n]];
    }
  }

  // An entry that reads as an edit, trimmed, under some defaults.
  ghost predicate Reads(m: Entry, defaults: Entry, e: Edit) {
    KImpact in m && m[KImpact].Text? && EditOf(m, defaults) == TrimmedEdit(e)
  }

  lemma EntryReadsBack(es: seq<Edit>, i: nat)
    requires i < |es|
    ensures var (defaults, rest) := Defaults(EntriesOf(es)); Reads(rest[i], defaults, es[i])
  {
    DefaultsReadAlike(EntriesOf(es), i);
    EntryGives(es[i]);
  }

  lemma EntriesReadBack(es: seq<Edit>)
    ensures var (defaults, rest) := Defaults(EntriesOf(es)); EditsOf(ShortenedAll(rest), defaults) == TrimmedEdits(es)
  {
    var (defaults, rest) := Defaults(EntriesOf(es));
    forall i: nat | i < |es| ensures OneEdit(ShortenedAll(rest)[i], defaults) == Some(TrimmedEdits(es)[i]) {
      EntryReadsBack(es, i);
      ShortenedReads(rest[i], defaults);
    }
    EachEdit(ShortenedAll(rest), defaults, TrimmedEdits(es));
  }

  // ---- the whole delta

  lemma {:induction false} TextsReadBack(ss: seq<string>, n: nat)
    requires n <= |ss|
    ensures StringsOf(Texts(ss)[..n]) == TrimmedStrings(ss)[..n]
  {
    if n > 0 {
      TextsReadBack(ss, n - 1);
      assert Texts(ss)[..n][..n - 1] == Texts(ss)[..n - 1];
    }
  }

  lemma HeadGives(d: Delta)
    ensures var m := HeadOf(d);
            StringAt(m, KKey) == CodeText.TrimSpace(d.key) && StringAt(m, KStatus) == CodeText.TrimSpace(d.status) &&
            OptionalAt(m, KComment) == Trimmed(d.comment) && StringAt(m, KWriter) == CodeText.TrimSpace(d.writer)
    ensures KRemove !in HeadOf(d) && KDefaults !in HeadOf(d) && KEntries !in HeadOf(d)
  {
    HeadHolds(d);
    EmptyTrims();
  }

  lemma EmptyTrims()
    ensures CodeText.TrimSpace("") == ""
  {
  }

  lemma HeadHolds(d: Delta)
    ensures var m := HeadOf(d);
            Lookup(m, KKey) == Some(Text(d.key)) && Lookup(m, KStatus) == (if d.status == "" then None else Some(Text(d.status))) &&
            Lookup(m, KComment) == (if d.comment.None? then None else Some(Text(d.comment.value))) &&
            Lookup(m, KWriter) == (if d.writer == "" then None else Some(Text(d.writer)))
    ensures KRemove !in HeadOf(d) && KDefaults !in HeadOf(d) && KEntries !in HeadOf(d)
  {
  }

  predicate HeadKey(k: Key) { k == KKey || k == KStatus || k == KComment || k == KWriter }

  lemma EntriesGive(m: Entry, es: seq<Edit>)
    requires KDefaults !in m && KEntries !in m
    ensures forall k :: HeadKey(k) || k == KRemove ==> Lookup(WithEntries(m, es), k) == Lookup(m, k)
    ensures var (defaults, rest) := Defaults(EntriesOf(es));
            DefaultsAt(WithEntries(m, es)) == defaults && ListAt(WithEntries(m, es), KEntries) == ShortenedAll(rest)
  {
    assert es == [] ==> EntriesOf(es) == [];
  }

  // The keys of the head are the head's, whatever the entries and the removals add.
  lemma DataGives(d: Delta)
    ensures var m := DataOf(d);
            (forall k :: HeadKey(k) ==> Lookup(m, k) == Lookup(HeadOf(d), k)) && ListAt(m, KRemove) == Texts(d.remove) &&
            (var (defaults, rest) := Defaults(EntriesOf(d.entries));
             DefaultsAt(m) == defaults && ListAt(m, KEntries) == ShortenedAll(rest))
  {
    HeadGives(d);
    var removed := if d.remove == [] then HeadOf(d) else HeadOf(d)[KRemove := List(Texts(d.remove))];
    EntriesGive(removed, d.entries);
    assert Lookup(DataOf(d), KRemove) == Lookup(removed, KRemove);
    assert d.remove == [] ==> Texts(d.remove) == [];
  }

  lemma ListsReadBack(d: Delta)
    ensures StringsOf(ListAt(DataOf(d), KRemove)) == TrimmedStrings(d.remove)
    ensures EditsOf(ListAt(DataOf(d), KEntries), DefaultsAt(DataOf(d))) == TrimmedEdits(d.entries)
  {
    DataGives(d);
    TextsReadBack(d.remove, |d.remove|);
    assert Texts(d.remove)[..|d.remove|] == Texts(d.remove);
    assert TrimmedStrings(d.remove)[..|d.remove|] == TrimmedStrings(d.remove);
    EntriesReadBack(d.entries);
  }

  lemma SameHead(m: Entry, head: Entry, k: Key)
    requires Lookup(m, k) == Lookup(head, k)
    ensures StringAt(m, k) == StringAt(head, k) && OptionalAt(m, k) == OptionalAt(head, k)
  {
  }

  lemma HeadReadsBack(d: Delta)
    ensures var m := DataOf(d);
            StringAt(m, KKey) == CodeText.TrimSpace(d.key) && StringAt(m, KStatus) == CodeText.TrimSpace(d.status) &&
            OptionalAt(m, KComment) == Trimmed(d.comment) && StringAt(m, KWriter) == CodeText.TrimSpace(d.writer)
  {
    DataGives(d);
    HeadGives(d);
    var m, head := DataOf(d), HeadOf(d);
    SameHead(m, head, KKey);
    SameHead(m, head, KStatus);
    SameHead(m, head, KComment);
    SameHead(m, head, KWriter);
  }

  /** A delta reads back from its data, each string trimmed. */
  lemma DeltaReadsBack(d: Delta)
    ensures DeltaOf(DataOf(d)) == TrimmedDelta(d)
  {
    HeadReadsBack(d);
    ListsReadBack(d);
  }

  predicate IsTrimmed(s: string) { CodeText.TrimSpace(s) == s }

  predicate IsTrimmedEdit(e: Edit) {
    IsTrimmed(e.impact) && (e.comment.Some? ==> IsTrimmed(e.comment.value)) &&
    (e.outcome.Some? ==> IsTrimmed(e.outcome.value)) && IsTrimmed(e.writer)
  }

  predicate IsTrimmedDelta(d: Delta) {
    IsTrimmed(d.key) && IsTrimmed(d.status) && (d.comment.Some? ==> IsTrimmed(d.comment.value)) && IsTrimmed(d.writer) &&
    (forall i :: 0 <= i < |d.remove| ==> IsTrimmed(d.remove[i])) &&
    forall i :: 0 <= i < |d.entries| ==> IsTrimmedEdit(d.entries[i])
  }

  lemma StringsAreTrimmed(ss: seq<string>)
    ensures TrimmedStrings(ss) == ss <==> forall i :: 0 <= i < |ss| ==> IsTrimmed(ss[i])
  {
    if TrimmedStrings(ss) == ss {
      forall i | 0 <= i < |ss| ensures IsTrimmed(ss[i]) { assert TrimmedStrings(ss)[i] == ss[i]; }
    }
  }

  lemma EditsAreTrimmed(es: seq<Edit>)
    ensures TrimmedEdits(es) == es <==> forall i :: 0 <= i < |es| ==> IsTrimmedEdit(es[i])
  {
    if TrimmedEdits(es) == es {
      forall i | 0 <= i < |es| ensures IsTrimmedEdit(es[i]) { assert TrimmedEdits(es)[i] == es[i]; }
    }
  }

  /** A delta reads back as it was exactly when none of its strings has space around it. */
  lemma DeltaRoundTrip(d: Delta)
    ensures DeltaOf(DataOf(d)) == d <==> IsTrimmedDelta(d)
  {
    DeltaReadsBack(d);
    StringsAreTrimmed(d.remove);
    EditsAreTrimmed(d.entries);
  }
}
