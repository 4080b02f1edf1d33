// The reviews of a change (contracts/domain/reviewrecord.go): the gestures of their reviewers, folded in the order of the
// log.
module ReviewFolds {
  import opened Prelude
  import opened ReviewData

  const StatusOpen := "open"
  const StatusSubmitted := "submitted"
  const StatusDiscarded := "discarded"

  /** An item of the log; only its data tells what a review delta changes. */
  datatype Item = Item(id: string, review: bool, dropped: bool, flow: string, producedBy: string, execution: string, at: int,
                       data: Entry)

  datatype ReviewEntry = ReviewEntry(impact: string, comment: string, outcome: string, writer: string, at: int)

  datatype State = State(key: string, flow: string, comment: string, status: string, entries: seq<ReviewEntry>, writer: string,
                         submittedAt: int, item: string, versions: nat, submittedBy: string, execution: string)

  const NoState := State("", "", "", "", [], "", 0, "", 0, "", "")

  predicate ValidStatus(s: string) { s == StatusOpen || s == StatusSubmitted || s == StatusDiscarded }

  // ---- the entries

  function Dropped(es: seq<ReviewEntry>, impact: string): seq<ReviewEntry> {
    if es == [] then []
    else
      var n := |es| - 1;
      if es[n].impact == impact then Dropped(es[..n], impact) else Dropped(es[..n], impact) + [es[n]]
  }

  function DroppedAll(es: seq<ReviewEntry>, impacts: seq<string>): seq<ReviewEntry> {
    if impacts == [] then es else Dropped(DroppedAll(es, impacts[..|impacts| - 1]), impacts[|impacts| - 1])
  }

  // The first entry of an impact.
  function EntryIndex(es: seq<ReviewEntry>, impact: string): (i: int)
    ensures -1 <= i < |es|
    ensures i >= 0 ==> es[i].impact == impact
    ensures i < 0 ==> forall k :: 0 <= k < |es| ==> es[k].impact != impact
  {
    if es == [] then -1
    else if es[0].impact == impact then 0
    else
      var i := EntryIndex(es[1..], impact);
      if i < 0 then -1 else i + 1
  }

  function EntrySet(x: ReviewEntry, e: Edit, at: int): ReviewEntry {
    x.(comment := if e.comment.Some? then e.comment.value else x.comment,
       outcome := if e.outcome.Some? then e.outcome.value else x.outcome,
       at := if e.outcome.Some? then at else x.at,
       writer := if e.writer != "" then e.writer else x.writer)
  }

  function EntryEdited(es: seq<ReviewEntry>, e: Edit, at: int): seq<ReviewEntry> {
    var i := EntryIndex(es, e.impact);
    if i < 0 then es + [EntrySet(ReviewEntry(e.impact, "", "", "", 0), e, at)] else es[i := EntrySet(es[i], e, at)]
  }

  function EntriesEdited(es: seq<ReviewEntry>, edits: seq<Edit>, at: int): seq<ReviewEntry> {
    if edits == [] then es else EntryEdited(EntriesEdited(es, edits[..|edits| - 1], at), edits[|edits| - 1], at)
  }

  // ---- a review

  predicate IsDelta(it: Item, d: Delta) { it.review && !it.dropped && d.key != "" && (d.status == "" || ValidStatus(d.status)) }

  function Started(it: Item, d: Delta): State {
    NoState.(key := d.key, flow := it.flow, writer := if d.writer == "" then it.producedBy else d.writer)
  }

  function Submission(s: State, it: Item): State {
    if s.status == StatusSubmitted then s.(submittedAt := it.at, submittedBy := it.producedBy, execution := it.execution) else s
  }

  function Gesture(s: State, it: Item, d: Delta): State {
    var t := s.(comment := if d.comment.Some? then d.comment.value else s.comment,
                entries := EntriesEdited(DroppedAll(s.entries, d.remove), d.entries, it.at),
                status := if d.status != "" then d.status else s.status);
    Submission(t, it).(item := it.id, versions := s.versions + 1)
  }

  function KeyOf(s: State): string { s.key }

  function IndexOf(list: seq<State>, key: string): (i: int)
    ensures -1 <= i < |list|
    ensures i >= 0 ==> list[i].key == key
    ensures i < 0 ==> forall k :: 0 <= k < |list| ==> list[k].key != key
  {
    var i := LastWith(list, KeyOf, key);
    assert i < 0 ==> forall k :: 0 <= k < |list| ==> KeyOf(list[k]) != key;
    i
  }

  // The reviews after an item.
  function Applied(list: seq<State>, it: Item): seq<State> {
    var d := DeltaOf(it.data);
    if !IsDelta(it, d) then list
    else
      var i := IndexOf(list, d.key);
      if i >= 0 then (if list[i].status == StatusOpen then list[i := Gesture(list[i], it, d)] else list)
      else if d.status == StatusOpen || d.status == StatusSubmitted then list + [Gesture(Started(it, d), it, d)]
      else list
  }

  function Folded(items: seq<Item>): seq<State> {
    if items == [] then [] else Applied(Folded(items[..|items| - 1]), items[|items| - 1])
  }

  // An item submits the review it is a delta of.
  predicate Submits(list: seq<State>, it: Item) {
    var d := DeltaOf(it.data);
    IsDelta(it, d) &&
    var i := IndexOf(list, d.key);
    d.status == StatusSubmitted && (i >= 0 ==> list[i].status == StatusOpen)
  }

  // Each review under its own key, none with the same key as another.
  ghost predicate Keyed(list: seq<State>) {
    forall i: nat, j: nat :: i < j < |list| ==> list[i].key != list[j].key
  }

  lemma {:induction false} KeyedIndex(list: seq<State>, i: nat)
    requires Keyed(list) && i < |list|
    ensures IndexOf(list, list[i].key) == i
  {
    if i < |list| - 1 { KeyedIndex(list[..|list| - 1], i); }
  }

  // A review in the place of another of its key.
  lemma StoredAlike(list: seq<State>, i: nat, s: State)
    requires Keyed(list) && i < |list| && list[i].key == s.key
    ensures Keyed(list[i := s]) && forall key :: IndexOf(list[i := s], key) == IndexOf(list, key)
  {
    forall key ensures IndexOf(list[i := s], key) == IndexOf(list, key) { LastWithUpdated(list, KeyOf, i, s, key); }
  }

  // A review of a key that had none.
  lemma AddedAfter(list: seq<State>, s: State)
    requires Keyed(list) && IndexOf(list, s.key) < 0
    ensures Keyed(list + [s])
    ensures forall key :: IndexOf(list + [s], key) == if s.key == key then |list| else IndexOf(list, key)
  {
    forall key ensures IndexOf(list + [s], key) == if s.key == key then |list| else IndexOf(list, key) {
      LastWithAdded(list, KeyOf, s, key);
    }
  }

  method DropEntries(es: seq<ReviewEntry>, impact: string) returns (out: seq<ReviewEntry>)
    ensures out == Dropped(es, impact)
  {
    out := [];
    for i := 0 to |es|
      invariant out == Dropped(es[..i], impact)
    {
      assert es[..i + 1][..i] == es[..i];
      if es[i].impact != impact { out := out + [es[i]]; }
    }
    assert es[..|es|] == es;
  }

  method FindEntry(es: seq<ReviewEntry>, impact: string) returns (j: int)
    ensures j == EntryIndex(es, impact)
  {
    for i := 0 to |es|
      invariant EntryIndex(es, impact) == (if EntryIndex(es[i..], impact) < 0 then -1 else EntryIndex(es[i..], impact) + i)
    {
      assert es[i..][1..] == es[i + 1..];
      if es[i].impact == impact { return i; }
    }
    return -1;
  }

  method EditEntries(es: seq<ReviewEntry>, d: Delta, at: int) returns (out: seq<ReviewEntry>)
    ensures out == EntriesEdited(DroppedAll(es, d.remove), d.entries, at)
  {
    out := es;
    for i := 0 to |d.remove|
      invariant out == DroppedAll(es, d.remove[..i])
    {
      assert d.remove[..i + 1][..i] == d.remove[..i];
      out := DropEntries(out, d.remove[i]);
    }
    assert d.remove[..|d.remove|] == d.remove;
    for i := 0 to |d.entries|
      invariant out == EntriesEdited(DroppedAll(es, d.remove), d.entries[..i], at)
    {
      assert d.entries[..i + 1][..i] == d.entries[..i];
      out := EditEntry(out, d.entries[i], at);
    }
    assert d.entries[..|d.entries|] == d.entries;
  }

  method MakeGesture(was: State, it: Item, d: Delta) returns (s: State)
    ensures s == Gesture(was, it, d)
  {
    s := was;
    if d.comment.Some? { s := s.(comment := d.comment.value); }
    var entries := EditEntries(s.entries, d, it.at);
    s := s.(entries := entries);
    if d.status != "" { s := s.(status := d.status); }
    s := Submit(s, it);
    s := s.(item := it.id, versions := s.versions + 1);
  }

  method Submit(was: State, it: Item) returns (s: State)
    ensures s == Submission(was, it)
  {
    s := was;
    if s.status == StatusSubmitted { s := s.(submittedAt := it.at, submittedBy := it.producedBy, execution := it.execution); }
  }

  method EditEntry(es: seq<ReviewEntry>, e: Edit, at: int) returns (out: seq<ReviewEntry>)
    ensures out == EntryEdited(es, e, at)
  {
    out := es;
    var j := FindEntry(out, e.impact);
    if j < 0 {
      j := |out|;
      out := out + [ReviewEntry(e.impact, "", "", "", 0)];
    }
    if e.comment.Some? { out := out[j := out[j].(comment := e.comment.value)]; }
    if e.outcome.Some? { out := out[j := out[j].(outcome := e.outcome.value, at := at)]; }
    if e.writer != "" { out := out[j := out[j].(writer := e.writer)]; }
  }

  /** The reviews the items of a log folded into, by first mention of their key. */
  class ReviewFold {
    var at: map<string, nat>
    var list: seq<State>

    ghost predicate Valid()
      reads this
    {
      Keyed(list) && forall key :: (if key in at then at[key] else -1) == IndexOf(list, key)
    }

    constructor ()
      ensures Valid() && list == []
    {
      at, list := map[], [];
    }

    /** A second fold with the same reviews: items applied to either leave the other alone. */
    method Clone() returns (c: ReviewFold)
      requires Valid()
      ensures fresh(c) && c.Valid() && c.list == list
    {
      c := new ReviewFold();
      c.at, c.list := at, list;
    }

    method Get(key: string) returns (s: Option<State>)
      requires Valid()
      ensures s == if IndexOf(list, key) < 0 then None else Some(list[IndexOf(list, key)])
    {
      assert (if key in at then at[key] else -1) == IndexOf(list, key);
      if key !in at { return None; }
      return Some(list[at[key]]);
    }

    method Store(s: State)
      requires Valid() && IndexOf(list, s.key) >= 0
      modifies this
      ensures Valid() && list == old(list)[IndexOf(old(list), s.key) := s]
    {
      assert (if s.key in at then at[s.key] else -1) == IndexOf(list, s.key);
      StoredAlike(list, at[s.key], s);
      list := list[at[s.key] := s];
    }

    method Add(s: State)
      requires Valid() && IndexOf(list, s.key) < 0
      modifies this
      ensures Valid() && list == old(list) + [s]
    {
      AddedAfter(list, s);
      at := at[s.key := |list|];
      list := list + [s];
    }

    /** Folds an item: the review after it, and whether it submitted it. */
    method Apply(it: Item) returns (s: State, submitted: bool)
      requires Valid()
      modifies this
      ensures Valid() && list == Applied(old(list), it)
      ensures submitted == Submits(old(list), it)
      ensures submitted ==> s.status == StatusSubmitted && s in list
    {
      s := NoState;
      var d := ReviewDeltaOf(it.data);
      if !it.review || it.dropped || d.key == "" || (d.status != "" && !ValidStatus(d.status)) { return s, false; }
      assert (if d.key in at then at[d.key] else -1) == IndexOf(list, d.key);
      var known := d.key in at;
      if known {
        s := list[at[d.key]];
        if s.status != StatusOpen { return s, false; }
      } else {
        if d.status != StatusOpen && d.status != StatusSubmitted { return s, false; }
        s := s.(key := d.key, flow := it.flow, writer := if d.writer == "" then it.producedBy else d.writer);
      }
      s := MakeGesture(s, it, d);
      ghost var i := if known then IndexOf(list, s.key) else |list|;
      if known { Store(s); } else { Add(s); }
      assert list[i] == s;
      submitted := s.status == StatusSubmitted;
    }
  }

  // ---- over a whole log

  /** Over any log, each review has its own key, a status, and one entry an impact. */
  ghost predicate WellKept(list: seq<State>) {
    Keyed(list) && forall i: nat :: i < |list| ==> ValidStatus(list[i].status) && OnePerImpact(list[i].entries)
  }

  ghost predicate OnePerImpact(es: seq<ReviewEntry>) {
    forall i: nat, j: nat :: i < j < |es| ==> es[i].impact != es[j].impact
  }

  lemma {:induction false} DroppedKeeps(es: seq<ReviewEntry>, impact: string)
    requires OnePerImpact(es)
    ensures OnePerImpact(Dropped(es, impact))
    ensures forall x :: x in Dropped(es, impact) <==> x in es && x.impact != impact
  {
    if es != [] {
      var n := |es| - 1;
      DroppedKeeps(es[..n], impact);
      assert es == es[..n] + [es[n]];
      forall x | x in Dropped(es[..n], impact) ensures x.impact != es[n].impact {
        var k :| 0 <= k < n && es[..n][k] == x;
      }
    }
  }

  lemma {:induction false} DroppedAllKeeps(es: seq<ReviewEntry>, impacts: seq<string>)
    requires OnePerImpact(es)
    ensures OnePerImpact(DroppedAll(es, impacts))
  {
    if impacts != [] {
      DroppedAllKeeps(es, impacts[..|impacts| - 1]);
      DroppedKeeps(DroppedAll(es, impacts[..|impacts| - 1]), impacts[|impacts| - 1]);
    }
  }

  lemma {:induction false} EditsKeep(es: seq<ReviewEntry>, edits: seq<Edit>, at: int)
    requires OnePerImpact(es)
    ensures OnePerImpact(EntriesEdited(es, edits, at))
  {
    if edits != [] { EditsKeep(es, edits[..|edits| - 1], at); }
  }

  lemma GestureKeeps(s: State, it: Item, d: Delta)
    requires OnePerImpact(s.entries)
    ensures OnePerImpact(Gesture(s, it, d).entries) && Gesture(s, it, d).key == s.key
  {
    DroppedAllKeeps(s.entries, d.remove);
    EditsKeep(DroppedAll(s.entries, d.remove), d.entries, it.at);
  }

  lemma AppliedIsWellKept(list: seq<State>, it: Item)
    requires WellKept(list)
    ensures WellKept(Applied(list, it))
  {
    var d := DeltaOf(it.data);
    var i := IndexOf(list, d.key);
    if i >= 0 { GestureKeeps(list[i], it, d); } else { GestureKeeps(Started(it, d), it, d); }
  }

  lemma {:induction false} ReviewsAreWellKept(items: seq<Item>)
    ensures WellKept(Folded(items))
  {
    if items != [] {
      ReviewsAreWellKept(items[..|items| - 1]);
      AppliedIsWellKept(Folded(items[..|items| - 1]), items[|items| - 1]);
    }
  }

  predicate IsFinal(s: State) { s.status == StatusSubmitted || s.status == StatusDiscarded }

  lemma AppliedLeavesFinal(list: seq<State>, it: Item, i: nat)
    requires i < |list|
    ensures i < |Applied(list, it)| && Applied(list, it)[i].key == list[i].key
    ensures IsFinal(list[i]) ==> Applied(list, it)[i] == list[i]
  {
    var d := DeltaOf(it.data);
    var k := IndexOf(list, d.key);
    assert k >= 0 ==> Gesture(list[k], it, d).key == list[k].key;
  }

  lemma FoldedSnoc(items: seq<Item>, it: Item)
    ensures Folded(items + [it]) == Applied(Folded(items), it)
  {
    assert (items + [it])[..|items|] == items;
  }

  // A list of reviews that keeps the i-th one of another: the same when it was final, and the same key anyway.
  ghost predicate KeepsReview(list: seq<State>, later: seq<State>, i: nat)
    requires i < |list|
  {
    i < |later| && later[i].key == list[i].key && (IsFinal(list[i]) ==> later[i] == list[i])
  }

  lemma AppliedKeepsReview(list: seq<State>, later: seq<State>, it: Item, i: nat)
    requires i < |list| && KeepsReview(list, later, i)
    ensures KeepsReview(list, Applied(later, it), i)
  {
    AppliedLeavesFinal(later, it, i);
  }

  lemma ItemKeepsReview(list: seq<State>, log: seq<Item>, it: Item, i: nat)
    requires i < |list| && KeepsReview(list, Folded(log), i)
    ensures KeepsReview(list, Folded(log + [it]), i)
  {
    AppliedKeepsReview(list, Folded(log), it, i);
    FoldedSnoc(log, it);
  }

  /** A review that was submitted or discarded never changes, and no review goes away or changes place. */
  lemma {:induction false} FinalReviewsStay(items: seq<Item>, more: seq<Item>, i: nat)
    requires i < |Folded(items)|
    ensures KeepsReview(Folded(items), Folded(items + more), i)
  {
    if more == [] {
      assert items + more == items;
    } else {
      var n := |more| - 1;
      FinalReviewsStay(items, more[..n], i);
      ItemKeepsReview(Folded(items), items + more[..n], more[n], i);
      MoreSplits(items, more);
    }
  }

  lemma SubmitsForGood(list: seq<State>, it: Item)
    requires Submits(list, it)
    ensures var i := IndexOf(Applied(list, it), DeltaOf(it.data).key);
            i >= 0 && Applied(list, it)[i].status == StatusSubmitted
  {
    var d := DeltaOf(it.data);
    var k := IndexOf(list, d.key);
    if k >= 0 {
      LastWithUpdated(list, KeyOf, k, Gesture(list[k], it, d), d.key);
    } else {
      LastWithAdded(list, KeyOf, Gesture(Started(it, d), it, d), d.key);
    }
  }

  lemma SubmittedStays(items: seq<Item>, it: Item, more: seq<Item>)
    requires Submits(Folded(items), it)
    ensures var later, key := Folded(items + [it] + more), DeltaOf(it.data).key;
            IndexOf(later, key) >= 0 && later[IndexOf(later, key)].status == StatusSubmitted
  {
    var key := DeltaOf(it.data).key;
    SubmitsForGood(Folded(items), it);
    FoldedSnoc(items, it);
    var k := IndexOf(Folded(items + [it]), key);
    FinalReviewsStay(items + [it], more, k);
    ReviewsAreWellKept(items + [it] + more);
    KeyedIndex(Folded(items + [it] + more), k);
  }

  /** Over any log, a review is submitted at most once: its verdicts are decided once. */
  lemma SubmittedOnce(items: seq<Item>, first: Item, between: seq<Item>, second: Item)
    requires Submits(Folded(items), first) && Submits(Folded(items + [first] + between), second)
    ensures DeltaOf(first.data).key != DeltaOf(second.data).key
  {
    SubmittedStays(items, first, between);
  }

  /** An item submits a review exactly when the review is submitted after it and was not before. */
  lemma SubmissionIsSeen(list: seq<State>, it: Item)
    requires Keyed(list)
    ensures var key := DeltaOf(it.data).key;
            var before, after := IndexOf(list, key), IndexOf(Applied(list, it), key);
            (Submits(list, it) <==>
             after >= 0 && Applied(list, it)[after].status == StatusSubmitted &&
             (before >= 0 ==> list[before].status != StatusSubmitted))
  {
    var d := DeltaOf(it.data);
    var k := IndexOf(list, d.key);
    if k >= 0 {
      LastWithUpdated(list, KeyOf, k, Gesture(list[k], it, d), d.key);
    } else {
      LastWithAdded(list, KeyOf, Gesture(Started(it, d), it, d), d.key);
    }
  }
}
