// The data of a review item (contracts/domain/reviewrecord.go): what one gesture of a reviewer changes, written with what
// most of its entries set alike taken out of them, and read back.
module ReviewData {
  import opened Prelude
  import CodeText

  /** The names data and entries are written under. */
  datatype Key = KKey | KStatus | KComment | KWriter | KRemove | KDefaults | KEntries | KImpact | KOutcome | KOther(name: string)

  /** A value of the data, as JSON gives it back. */
  datatype Value = Null | Text(text: string) | List(list: seq<Value>) | Fields(fields: map<Key, Value>)

  /** What a gesture makes of one entry; None leaves that field of it alone. */
  datatype Edit = Edit(impact: string, comment: Option<string>, outcome: Option<string>, writer: string)

  datatype Delta = Delta(key: string, status: string, comment: Option<string>, writer: string, remove: seq<string>,
                         entries: seq<Edit>)

  type Entry = map<Key, Value>

  const EntryFields := [KOutcome, KComment, KWriter]

  // ---- writing

  function WithText(m: Entry, k: Key, v: Option<string>): Entry {
    if v.None? then m else m[k := Text(v.value)]
  }

  function Unempty(s: string): Option<string> { if s == "" then None else Some(s) }

  function EntryOf(e: Edit): Entry {
    WithText(WithText(WithText(map[KImpact := Text(e.impact)], KComment, e.comment), KOutcome, e.outcome), KWriter, Unempty(e.writer))
  }

  function EntriesOf(es: seq<Edit>): (ms: seq<Entry>)
    ensures |ms| == |es| && forall i :: 0 <= i < |es| ==> ms[i] == EntryOf(es[i])
  {
    seq(|es|, i requires 0 <= i < |es| => EntryOf(es[i]))
  }

  predicate Holds(m: Entry, f: Key, v: string) { f in m && m[f] == Text(v) }

  // How many entries hold a value of a field.
  function CountOf(ms: seq<Entry>, f: Key, v: string): nat {
    if ms == [] then 0
    else CountOf(ms[..|ms| - 1], f, v) + if Holds(ms[|ms| - 1], f, v) then 1 else 0
  }

  // The value of a field most entries hold, the first to be held so often, and how many hold it.
  function Most(ms: seq<Entry>, f: Key): (string, nat) {
    if ms == [] then ("", 0)
    else
      var n := |ms| - 1;
      var (best, held) := Most(ms[..n], f);
      if f in ms[n] && ms[n][f].Text? && CountOf(ms, f, ms[n][f].text) > held
      then (ms[n][f].text, CountOf(ms, f, ms[n][f].text)) else (best, held)
  }

  // An entry without a field that holds the default; null says it does not take it.
  function Without(m: Entry, f: Key, best: string): Entry {
    if Holds(m, f, best) then m - {f} else if f !in m then m[f := Value.Null] else m
  }

  function AllWithout(ms: seq<Entry>, f: Key, best: string): (out: seq<Entry>)
    ensures |out| == |ms| && forall i :: 0 <= i < |ms| ==> out[i] == Without(ms[i], f, best)
  {
    seq(|ms|, i requires 0 <= i < |ms| => Without(ms[i], f, best))
  }

  // The defaults taken out of the entries for the first fields, and the entries left.
  function Factored(ms: seq<Entry>, n: nat): (r: (Entry, seq<Entry>))
    requires n <= |EntryFields|
    ensures |r.1| == |ms|
  {
    if n == 0 then (map[], ms)
    else
      var (defaults, rest) := Factored(ms, n - 1);
      var f := EntryFields[n - 1];
      var (best, held) := Most(rest, f);
      if held < 2 then (defaults, rest) else (defaults[f := Text(best)], AllWithout(rest, f, best))
  }

  function Defaults(ms: seq<Entry>): (r: (Entry, seq<Entry>))
    ensures |r.1| == |ms|
  {
    if |ms| < 2 then (map[], ms) else Factored(ms, |EntryFields|)
  }

  // An entry that holds its impact alone is written as it.
  function Shortened(m: Entry): Value {
    if |m| == 1 && KImpact in m then m[KImpact] else Fields(m)
  }

  function ShortenedAll(ms: seq<Entry>): (out: seq<Value>)
    ensures |out| == |ms| && forall i :: 0 <= i < |ms| ==> out[i] == Shortened(ms[i])
  {
    seq(|ms|, i requires 0 <= i < |ms| => Shortened(ms[i]))
  }

  function Texts(ss: seq<string>): (out: seq<Value>)
    ensures |out| == |ss| && forall i :: 0 <= i < |ss| ==> out[i] == Text(ss[i])
  {
    seq(|ss|, i requires 0 <= i < |ss| => Text(ss[i]))
  }

  function HeadOf(d: Delta): Entry {
    WithText(WithText(WithText(map[KKey := Text(d.key)], KStatus, Unempty(d.status)), KComment, d.comment), KWriter, Unempty(d.writer))
  }

  function WithEntries(m: Entry, es: seq<Edit>): Entry {
    if es == [] then m
    else
      var (defaults, rest) := Defaults(EntriesOf(es));
      if defaults == map[] then m[KEntries := List(ShortenedAll(rest))]
      else m[KDefaults := Fields(defaults)][KEntries := List(ShortenedAll(rest))]
  }

  function DataOf(d: Delta): Entry {
    WithEntries(if d.remove == [] then HeadOf(d) else HeadOf(d)[KRemove := List(Texts(d.remove))], d.entries)
  }

  // ---- reading

  function StringAt(m: Entry, k: Key): string {
    if k in m && m[k].Text? then CodeText.TrimSpace(m[k].text) else ""
  }

  function OptionalAt(m: Entry, k: Key): Option<string> {
    if k !in m || m[k].Null? then None else Some(StringAt(m, k))
  }

  function ListAt(m: Entry, k: Key): seq<Value> { if k in m && m[k].List? then m[k].list else [] }

  function DefaultsAt(m: Entry): Entry { if KDefaults in m && m[KDefaults].Fields? then m[KDefaults].fields else map[] }

  // An entry with the defaults it does not set.
  function Filled(m: Entry, defaults: Entry): Entry { defaults + m }

  function EditOf(m: Entry, defaults: Entry): Edit {
    var full := Filled(m, defaults);
    Edit(StringAt(full, KImpact), OptionalAt(full, KComment), OptionalAt(full, KOutcome), StringAt(full, KWriter))
  }

  // The edit of an entry, or of an impact alone: nothing else is one.
  function OneEdit(v: Value, defaults: Entry): Option<Edit> {
    match v
    case Fields(m) => Some(EditOf(m, defaults))
    case Text(s) => Some(EditOf(map[KImpact := Text(s)], defaults))
    case _ => None
  }

  function EditsOf(vs: seq<Value>, defaults: Entry): seq<Edit> {
    if vs == [] then []
    else
      var n, e := |vs| - 1, OneEdit(vs[|vs| - 1], defaults);
      if e.None? then EditsOf(vs[..n], defaults) else EditsOf(vs[..n], defaults) + [e.value]
  }

  function StringsOf(vs: seq<Value>): seq<string> {
    if vs == [] then []
    else
      var n := |vs| - 1;
      if vs[n].Text? then StringsOf(vs[..n]) + [CodeText.TrimSpace(vs[n].text)] else StringsOf(vs[..n])
  }

  function DeltaOf(m: Entry): Delta {
    Delta(StringAt(m, KKey), StringAt(m, KStatus), OptionalAt(m, KComment), StringAt(m, KWriter), StringsOf(ListAt(m, KRemove)),
          EditsOf(ListAt(m, KEntries), DefaultsAt(m)))
  }

  // ---- the code

  method CountBest(ms: array<Entry>, f: Key) returns (best: string, n: nat)
    ensures (best, n) == Most(ms[..], f)
  {
    var count: map<string, nat> := map[];
    best, n := "", 0;
    for i := 0 to ms.Length
      invariant forall v :: (if v in count then count[v] else 0) == CountOf(ms[..i], f, v)
      invariant (best, n) == Most(ms[..i], f)
    {
      assert ms[..i + 1][..i] == ms[..i];
      count, best, n := CountEntry(ms[..i], ms[i], f, count, best, n);
      assert ms[..i + 1] == ms[..i] + [ms[i]];
    }
    assert ms[..ms.Length] == ms[..];
  }

  method CountEntry(ghost before: seq<Entry>, m: Entry, f: Key, count0: map<string, nat>, best0: string, n0: nat)
    returns (count: map<string, nat>, best: string, n: nat)
    requires forall v :: (if v in count0 then count0[v] else 0) == CountOf(before, f, v)
    requires (best0, n0) == Most(before, f)
    ensures forall v :: (if v in count then count[v] else 0) == CountOf(before + [m], f, v)
    ensures (best, n) == Most(before + [m], f)
  {
    count, best, n := count0, best0, n0;
    assert (before + [m])[..|before|] == before;
    if f in m && m[f].Text? {
      var v := m[f].text;
      count := count[v := (if v in count then count[v] else 0) + 1];
      assert count[v] == CountOf(before + [m], f, v);
      if count[v] > n { best, n := v, count[v]; }
    }
  }

  method TakeOut(ms: array<Entry>, f: Key, best: string)
    modifies ms
    ensures ms[..] == AllWithout(old(ms[..]), f, best)
  {
    for i := 0 to ms.Length
      invariant forall k :: 0 <= k < i ==> ms[k] == Without(old(ms[k]), f, best)
      invariant forall k :: i <= k < ms.Length ==> ms[k] == old(ms[k])
    {
      if f in ms[i] && ms[i][f] == Text(best) {
        ms[i] := ms[i] - {f};
      } else if f !in ms[i] {
        ms[i] := ms[i][f := Value.Null];
      }
    }
  }

  /** Factors the most frequent value of each field out of the entries, in place, when it occurs at least twice. */
  method EntryDefaults(ms: array<Entry>) returns (defaults: Entry)
    modifies ms
    ensures (defaults, ms[..]) == Defaults(old(ms[..]))
  {
    defaults := map[];
    if ms.Length < 2 { return; }
    for i := 0 to |EntryFields|
      invariant (defaults, ms[..]) == Factored(old(ms[..]), i)
    {
      var best, n := CountBest(ms, EntryFields[i]);
      if n < 2 { continue; }
      defaults := defaults[EntryFields[i] := Text(best)];
      TakeOut(ms, EntryFields[i], best);
    }
  }

  method WriteEntry(e: Edit) returns (m: Entry)
    ensures m == EntryOf(e)
  {
    m := map[KImpact := Text(e.impact)];
    if e.comment.Some? { m := m[KComment := Text(e.comment.value)]; }
    if e.outcome.Some? { m := m[KOutcome := Text(e.outcome.value)]; }
    if e.writer != "" { m := m[KWriter := Text(e.writer)]; }
  }

  method WriteEntries(out: Entry, es: seq<Edit>) returns (data: Entry)
    requires es != []
    ensures data == WithEntries(out, es)
  {
    var ms := new Entry[|es|](_ => map[]);
    for i := 0 to |es|
      invariant forall k :: 0 <= k < i ==> ms[k] == EntryOf(es[k])
    {
      ms[i] := WriteEntry(es[i]);
    }
    assert ms[..] == EntriesOf(es);
    var defaults := EntryDefaults(ms);
    data := out;
    if defaults != map[] { data := data[KDefaults := Fields(defaults)]; }
    var entries: seq<Value> := [];
    for i := 0 to ms.Length
      invariant |entries| == i && forall k :: 0 <= k < i ==> entries[k] == Shortened(ms[k])
    {
      if |ms[i]| == 1 && KImpact in ms[i] { entries := entries + [ms[i][KImpact]]; } else { entries := entries + [Fields(ms[i])]; }
    }
    assert entries == ShortenedAll(ms[..]);
    data := data[KEntries := List(entries)];
  }

  /** The data of the item holding a delta: only what it sets. */
  method Data(d: Delta) returns (out: Entry)
    ensures out == DataOf(d)
  {
    out := map[KKey := Text(d.key)];
    if d.status != "" { out := out[KStatus := Text(d.status)]; }
    if d.comment.Some? { out := out[KComment := Text(d.comment.value)]; }
    if d.writer != "" { out := out[KWriter := Text(d.writer)]; }
    if |d.remove| > 0 { out := out[KRemove := List(Texts(d.remove))]; }
    if |d.entries| > 0 { out := WriteEntries(out, d.entries); }
  }

  // The defaults an entry takes, but for some left.
  ghost predicate FilledBut(full: Entry, m: Entry, defaults: Entry, rest: set<Key>) {
    forall f :: Lookup(full, f) == if f in m then Some(m[f]) else if f in rest then None else Lookup(defaults, f)
  }

  lemma FilledAll(full: Entry, m: Entry, defaults: Entry)
    requires FilledBut(full, m, defaults, {})
    ensures full == Filled(m, defaults)
  {
    forall f ensures Lookup(full, f) == Lookup(Filled(m, defaults), f) {}
    SameLookups(full, Filled(m, defaults));
  }

  method Fill(m: Entry, defaults: Entry) returns (full: Entry)
    ensures full == Filled(m, defaults)
  {
    full := m;
    var rest := defaults.Keys;
    while rest != {}
      invariant rest <= defaults.Keys && FilledBut(full, m, defaults, rest)
      decreases |rest|
    {
      var f :| f in rest;
      if f !in full { full := full[f := defaults[f]]; }
      rest := rest - {f};
    }
    FilledAll(full, m, defaults);
  }

  method ReadEdit(m: Entry, defaults: Entry) returns (e: Edit)
    ensures e == EditOf(m, defaults)
  {
    var full := m;
    if |defaults| > 0 { full := Fill(m, defaults); }
    e := Edit(StringAt(full, KImpact), OptionalAt(full, KComment), OptionalAt(full, KOutcome), StringAt(full, KWriter));
  }

  method ReadStrings(vs: seq<Value>) returns (out: seq<string>)
    ensures out == StringsOf(vs)
  {
    out := [];
    for i := 0 to |vs|
      invariant out == StringsOf(vs[..i])
    {
      assert vs[..i + 1][..i] == vs[..i];
      if vs[i].Text? { out := out + [CodeText.TrimSpace(vs[i].text)]; }
    }
    assert vs[..|vs|] == vs;
  }

  /** The delta some data says, whatever its shape. */
  method ReviewDeltaOf(m: Entry) returns (d: Delta)
    ensures d == DeltaOf(m)
  {
    var remove := ReadStrings(ListAt(m, KRemove));
    var defaults, vs := DefaultsAt(m), ListAt(m, KEntries);
    var entries: seq<Edit> := [];
    for i := 0 to |vs|
      invariant entries == EditsOf(vs[..i], defaults)
    {
      assert vs[..i + 1][..i] == vs[..i];
      var e: Edit;
      match vs[i] {
        case Fields(fields) => e := ReadEdit(fields, defaults); entries := entries + [e];
        case Text(s) => e := ReadEdit(map[KImpact := Text(s)], defaults); entries := entries + [e];
        case _ =>
      }
    }
    assert vs[..|vs|] == vs;
    d := Delta(StringAt(m, KKey), StringAt(m, KStatus), OptionalAt(m, KComment), StringAt(m, KWriter), remove, entries);
  }
}
