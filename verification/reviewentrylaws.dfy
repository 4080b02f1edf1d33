// What a review says, part by part, from the items of its log by their positions (contracts/domain/reviewrecord.go).
module ReviewEntryLaws {
  import opened Prelude
  import opened ReviewData
  import opened ReviewFolds

  // ---- one gesture

  datatype Part = OfComment | OfOutcome | OfWriter

  function Given(e: Edit, f: Part): Option<string> {
    match f
    case OfComment => e.comment
    case OfOutcome => e.outcome
    case OfWriter => if e.writer == "" then None else Some(e.writer)
  }

  function PartOf(x: ReviewEntry, f: Part): string {
    match f
    case OfComment => x.comment
    case OfOutcome => x.outcome
    case OfWriter => x.writer
  }

  predicate Gives(edits: seq<Edit>, k: nat, m: string, f: Part) {
    k < |edits| && edits[k].impact == m && Given(edits[k], f).Some?
  }

  // What the last edit of an impact that gives a part gives, among the first edits.
  ghost function LastGiven(edits: seq<Edit>, n: nat, m: string, f: Part): (v: Option<string>)
    requires n <= |edits|
    ensures v.None? ==> forall k: nat :: k < n ==> !Gives(edits, k, m, f)
    ensures v.Some? ==> exists k: nat :: k < n && Gives(edits, k, m, f) && Given(edits[k], f) == v &&
                                         forall j: nat :: k < j < n ==> !Gives(edits, j, m, f)
  {
    if n == 0 then None else if Gives(edits, n - 1, m, f) then Given(edits[n - 1], f) else LastGiven(edits, n - 1, m, f)
  }

  predicate Mentions(edits: seq<Edit>, n: nat, m: string) { exists k :: 0 <= k < n && k < |edits| && edits[k].impact == m }

  predicate Has(es: seq<ReviewEntry>, m: string) { exists k :: 0 <= k < |es| && es[k].impact == m }

  function Fresh(m: string): ReviewEntry { ReviewEntry(m, "", "", "", 0) }

  // An entry after edits: each part is what the last edit that gives it gives, or as it was; its time is that of its outcome.
  ghost predicate Became(was: ReviewEntry, edits: seq<Edit>, n: nat, at: int, now: ReviewEntry)
    requires n <= |edits|
  {
    now.impact == was.impact &&
    (forall f :: PartOf(now, f) == if LastGiven(edits, n, was.impact, f).Some? then LastGiven(edits, n, was.impact, f).value else PartOf(was, f)) &&
    now.at == if LastGiven(edits, n, was.impact, OfOutcome).Some? then at else was.at
  }

  // What an entry started from: the one there was, or an empty one for an impact that is edited.
  ghost predicate CameFrom(es: seq<ReviewEntry>, edits: seq<Edit>, n: nat, was: ReviewEntry) {
    was in es || (!Has(es, was.impact) && Mentions(edits, n, was.impact) && was == Fresh(was.impact))
  }

  ghost predicate EditsSay(es: seq<ReviewEntry>, edits: seq<Edit>, n: nat, at: int, out: seq<ReviewEntry>)
    requires n <= |edits|
  {
    OnePerImpact(out) &&
    (forall y :: y in out ==> exists was :: CameFrom(es, edits, n, was) && Became(was, edits, n, at, y)) &&
    forall m :: Has(out, m) <==> Has(es, m) || Mentions(edits, n, m)
  }

  lemma BecameNothing(was: ReviewEntry, edits: seq<Edit>, at: int)
    ensures Became(was, edits, 0, at, was)
  {
  }

  lemma BecameAside(was: ReviewEntry, edits: seq<Edit>, n: nat, next: nat, at: int, now: ReviewEntry)
    requires n < |edits| && next == n + 1 && Became(was, edits, n, at, now) && edits[n].impact != was.impact
    ensures Became(was, edits, next, at, now)
  {
  }

  lemma BecameMore(was: ReviewEntry, edits: seq<Edit>, n: nat, next: nat, at: int, now: ReviewEntry)
    requires n < |edits| && next == n + 1 && Became(was, edits, n, at, now) && edits[n].impact == was.impact
    ensures Became(was, edits, next, at, EntrySet(now, edits[n], at))
  {
    forall f ensures PartOf(EntrySet(now, edits[n], at), f) == if Given(edits[n], f).Some? then Given(edits[n], f).value else PartOf(now, f) { }
  }

  lemma CameMore(es: seq<ReviewEntry>, edits: seq<Edit>, n: nat, next: nat, was: ReviewEntry)
    requires n < |edits| && next == n + 1 && CameFrom(es, edits, n, was)
    ensures CameFrom(es, edits, next, was)
  {
  }

  // An edit changes the entry of its impact, adding it when there is none.
  lemma EditedIs(es: seq<ReviewEntry>, e: Edit, at: int, x: ReviewEntry)
    requires OnePerImpact(es) && x.impact == e.impact && (x in es || (!Has(es, e.impact) && x == Fresh(e.impact)))
    ensures OnePerImpact(EntryEdited(es, e, at))
    ensures forall y :: y in EntryEdited(es, e, at) <==> y == EntrySet(x, e, at) || (y in es && y.impact != e.impact)
    ensures forall m :: Has(EntryEdited(es, e, at), m) <==> Has(es, m) || m == e.impact
  {
    var i := EntryIndex(es, e.impact);
    var out := EntryEdited(es, e, at);
    if i < 0 {
      assert out == es + [EntrySet(x, e, at)];
      assert out[|es|] == EntrySet(x, e, at);
    } else {
      assert es[i] == x by {
        var k :| 0 <= k < |es| && es[k] == x;
      }
      assert out == es[i := EntrySet(x, e, at)] && out[i] == EntrySet(x, e, at);
      forall k | 0 <= k < |es| && k != i ensures out[k] == es[k] && es[k].impact != e.impact { }
    }
  }

  lemma {:induction false} EditsAreSaid(es: seq<ReviewEntry>, edits: seq<Edit>, n: nat, at: int)
    requires n <= |edits| && OnePerImpact(es)
    ensures EditsSay(es, edits, n, at, EntriesEdited(es, edits[..n], at))
  {
    if n == 0 {
      assert edits[..0] == [];
      forall y | y in es ensures CameFrom(es, edits, 0, y) && Became(y, edits, 0, at, y) { BecameNothing(y, edits, at); }
    } else {
      var last := n - 1;
      EditsAreSaid(es, edits, last, at);
      assert edits[..n][..last] == edits[..last];
      EditSays(es, edits, last, n, at, EntriesEdited(es, edits[..last], at));
    }
  }

  lemma NotMentioned(edits: seq<Edit>, n: nat, m: string, f: Part)
    requires n <= |edits| && !Mentions(edits, n, m)
    ensures LastGiven(edits, n, m, f).None?
  {
  }

  // The entry that an edit starts from.
  lemma Edited(es: seq<ReviewEntry>, edits: seq<Edit>, n: nat, next: nat, at: int, out: seq<ReviewEntry>)
    returns (was: ReviewEntry, x: ReviewEntry)
    requires n < |edits| && next == n + 1 && EditsSay(es, edits, n, at, out)
    ensures x.impact == edits[n].impact && (x in out || (!Has(out, x.impact) && x == Fresh(x.impact)))
    ensures CameFrom(es, edits, next, was) && Became(was, edits, n, at, x)
  {
    var m := edits[n].impact;
    if Has(out, m) {
      var k :| 0 <= k < |out| && out[k].impact == m;
      x := out[k];
      assert x in out;
      var b :| CameFrom(es, edits, n, b) && Became(b, edits, n, at, x);
      CameMore(es, edits, n, next, b);
      was := b;
    } else {
      was, x := Fresh(m), Fresh(m);
      forall f ensures LastGiven(edits, n, m, f).None? { NotMentioned(edits, n, m, f); }
      assert Mentions(edits, next, m);
    }
  }

  lemma EditSays(es: seq<ReviewEntry>, edits: seq<Edit>, n: nat, next: nat, at: int, out: seq<ReviewEntry>)
    requires n < |edits| && next == n + 1 && EditsSay(es, edits, n, at, out)
    ensures EditsSay(es, edits, next, at, EntryEdited(out, edits[n], at))
  {
    var e := edits[n];
    var was, x := Edited(es, edits, n, next, at, out);
    EditedIs(out, e, at, x);
    BecameMore(was, edits, n, next, at, x);
    forall y | y in out && y.impact != e.impact ensures exists b :: CameFrom(es, edits, next, b) && Became(b, edits, next, at, y) {
      var b :| CameFrom(es, edits, n, b) && Became(b, edits, n, at, y);
      CameMore(es, edits, n, next, b);
      BecameAside(b, edits, n, next, at, y);
    }
    forall m ensures Mentions(edits, next, m) <==> Mentions(edits, n, m) || m == e.impact { }
  }

  // ---- removals

  lemma {:induction false} DroppedAllAre(es: seq<ReviewEntry>, impacts: seq<string>)
    requires OnePerImpact(es)
    ensures OnePerImpact(DroppedAll(es, impacts))
    ensures forall x :: x in DroppedAll(es, impacts) <==> x in es && x.impact !in impacts
  {
    if impacts != [] {
      var n := |impacts| - 1;
      DroppedAllAre(es, impacts[..n]);
      DroppedKeeps(DroppedAll(es, impacts[..n]), impacts[n]);
      LastSplits(impacts);
    }
  }

  // ---- the items that are gestures on a review

  /** An item with the delta its data reads as. */
  datatype Read = Read(item: Item, delta: Delta)

  // The item is a delta of a review.
  predicate DeltaOn(it: Read, key: string) {
    it.item.review && !it.item.dropped && key != "" && it.delta.key == key &&
    (it.delta.status == "" || it.delta.status == StatusOpen || it.delta.status == StatusSubmitted ||
     it.delta.status == StatusDiscarded)
  }

  predicate Opener(it: Read, key: string) {
    DeltaOn(it, key) && (it.delta.status == StatusOpen || it.delta.status == StatusSubmitted)
  }

  predicate Ender(it: Read, key: string) {
    DeltaOn(it, key) && (it.delta.status == StatusSubmitted || it.delta.status == StatusDiscarded)
  }

  // A review was opened by one of the first items.
  predicate Begun(items: seq<Read>, n: nat, key: string) { exists i :: 0 <= i < n && i < |items| && Opener(items[i], key) }

  // One of the first items submitted or discarded a review, opened by then.
  predicate Over(items: seq<Read>, n: nat, key: string) {
    exists j: nat :: j < n && j < |items| && EndsAt(items, j, key)
  }

  predicate EndsAt(items: seq<Read>, j: nat, key: string) {
    j < |items| && Ender(items[j], key) && (Begun(items, j, key) || Opener(items[j], key))
  }

  /** The item is a gesture on a review: a delta of it, opening it or after its opening, and before it is over. */
  predicate Acts(items: seq<Read>, i: nat, key: string) {
    i < |items| && DeltaOn(items[i], key) && (Begun(items, i, key) || Opener(items[i], key)) && !Over(items, i, key)
  }

  // ---- what a review says

  predicate FirstOpener(items: seq<Read>, i: nat, key: string) { i < |items| && Opener(items[i], key) && !Begun(items, i, key) }

  predicate LastAct(items: seq<Read>, n: nat, key: string, i: nat) {
    i < n && Acts(items, i, key) && forall j: nat :: i < j < n ==> !Acts(items, j, key)
  }

  predicate SaysStatus(items: seq<Read>, i: nat, key: string) { Acts(items, i, key) && items[i].delta.status != "" }

  predicate SaysComment(items: seq<Read>, i: nat, key: string) { Acts(items, i, key) && items[i].delta.comment.Some? }

  predicate LastStatus(items: seq<Read>, n: nat, key: string, i: nat) {
    i < n && SaysStatus(items, i, key) && forall j: nat :: i < j < n ==> !SaysStatus(items, j, key)
  }

  predicate LastComment(items: seq<Read>, n: nat, key: string, i: nat) {
    i < n && SaysComment(items, i, key) && forall j: nat :: i < j < n ==> !SaysComment(items, j, key)
  }

  // The gesture gives a part of the entry of an impact; it removes the entry.
  ghost predicate Sets(items: seq<Read>, i: nat, key: string, m: string, f: Part) {
    Acts(items, i, key) && GivenBy(items[i], m, f).Some?
  }

  predicate Edits(items: seq<Read>, i: nat, key: string, m: string) {
    Acts(items, i, key) && Mentions(items[i].delta.entries, |items[i].delta.entries|, m)
  }

  predicate Removes(items: seq<Read>, i: nat, key: string, m: string) { Acts(items, i, key) && m in items[i].delta.remove }

  // The last gesture that gives a part, the entry not removed since.
  ghost predicate LastSet(items: seq<Read>, n: nat, key: string, m: string, f: Part, i: nat) {
    i < n && Sets(items, i, key, m, f) && forall j: nat :: i < j < n ==> !Sets(items, j, key, m, f) && !Removes(items, j, key, m)
  }

  // An entry that was edited, and not removed since.
  predicate Stands(items: seq<Read>, n: nat, key: string, m: string) {
    exists i: nat :: i < n && Edits(items, i, key, m) && NotRemoved(items, i, n, key, m)
  }

  predicate NotRemoved(items: seq<Read>, i: nat, n: nat, key: string, m: string) {
    forall j: nat :: i < j < n ==> !Removes(items, j, key, m)
  }

  ghost predicate PartSays(items: seq<Read>, n: nat, key: string, m: string, f: Part, v: string) {
    if exists i: nat :: LastSet(items, n, key, m, f, i)
    then exists i: nat :: LastSet(items, n, key, m, f, i) && Some(v) == GivenBy(items[i], m, f)
    else v == ""
  }

  // What the delta of an item gives to a part.
  ghost function GivenBy(it: Read, m: string, f: Part): Option<string> {
    LastGiven(it.delta.entries, |it.delta.entries|, m, f)
  }

  ghost predicate TimeSays(items: seq<Read>, n: nat, key: string, m: string, at: int) {
    if exists i: nat :: LastSet(items, n, key, m, OfOutcome, i) then exists i: nat :: LastSet(items, n, key, m, OfOutcome, i) && at == items[i].item.at
    else at == 0
  }

  /** The entries of a review: one for each impact edited and not removed since, its parts those last given since. */
  ghost predicate EntriesSay(items: seq<Read>, n: nat, key: string, es: seq<ReviewEntry>) {
    OnePerImpact(es) && (forall m :: Has(es, m) <==> Stands(items, n, key, m)) &&
    forall x :: x in es ==> EntrySays(items, n, key, x)
  }

  ghost predicate EntrySays(items: seq<Read>, n: nat, key: string, x: ReviewEntry) {
    (forall f :: PartSays(items, n, key, x.impact, f, PartOf(x, f))) && TimeSays(items, n, key, x.impact, x.at)
  }

  // What a review is but for its entries.
  ghost predicate HeadSays(items: seq<Read>, n: nat, key: string, s: State) {
    s.key == key &&
    (exists i: nat :: i < n && FirstOpener(items, i, key) && StartSays(items[i], s)) &&
    (s.status == StatusOpen <==> !Over(items, n, key)) && ActsSay(items, n, key, s) &&
    CommentSays(items, n, key, s.comment) &&
    s.versions == |Gestures(items, n, key)|
  }

  // The flow of a review is that of the item that opened it, and its writer too unless the delta names one.
  predicate StartSays(it: Read, s: State) {
    s.flow == it.item.flow && s.writer == if it.delta.writer == "" then it.item.producedBy else it.delta.writer
  }

  // The last gesture is the one that submitted the review, when it is submitted.
  predicate EndSays(it: Read, s: State) {
    s.item == it.item.id &&
    if s.status == StatusSubmitted then s.submittedAt == it.item.at && s.submittedBy == it.item.producedBy && s.execution == it.item.execution
    else s.submittedAt == 0 && s.submittedBy == "" && s.execution == ""
  }

  ghost predicate CommentSays(items: seq<Read>, n: nat, key: string, comment: string) {
    if exists i: nat :: LastComment(items, n, key, i)
    then exists i: nat :: LastComment(items, n, key, i) && Some(comment) == items[i].delta.comment
    else comment == ""
  }

  function Gestures(items: seq<Read>, n: nat, key: string): set<nat> { set i: nat | i < n && Acts(items, i, key) }

  /** What the items say of a review: there is one once it was opened, and it is what the gestures on it made it. */
  ghost predicate ReviewSays(items: seq<Read>, n: nat, key: string, s: Option<State>) {
    (s.Some? <==> Begun(items, n, key)) &&
    (s.Some? ==> HeadSays(items, n, key, s.value) && EntriesSay(items, n, key, s.value.entries))
  }

  function Review(list: seq<State>, key: string): Option<State> {
    if IndexOf(list, key) < 0 then None else Some(list[IndexOf(list, key)])
  }

  // ---- one item more

  function NextReview(o: Option<State>, it: Read, key: string): Option<State> {
    if !DeltaOn(it, key) then o
    else if o.Some? then (if o.value.status == StatusOpen then Some(Gesture(o.value, it.item, it.delta)) else o)
    else if Opener(it, key) then Some(Gesture(Started(it.item, it.delta), it.item, it.delta))
    else None
  }

  // Each review evolves alone.
  lemma ReviewNext(list: seq<State>, it: Item, key: string)
    requires Keyed(list)
    ensures Review(Applied(list, it), key) == NextReview(Review(list, key), Read(it, DeltaOf(it.data)), key)
  {
    AppliedReview(list, Read(it, DeltaOf(it.data)), key);
  }

  // The reviews after an item whose delta was read.
  function AppliedRead(list: seq<State>, it: Read): seq<State> {
    if !IsDelta(it.item, it.delta) then list
    else
      var i := IndexOf(list, it.delta.key);
      if i >= 0 then (if list[i].status == StatusOpen then list[i := Gesture(list[i], it.item, it.delta)] else list)
      else if it.delta.status == StatusOpen || it.delta.status == StatusSubmitted
      then list + [Gesture(Started(it.item, it.delta), it.item, it.delta)] else list
  }

  lemma AppliedReview(list: seq<State>, it: Read, key: string)
    requires Keyed(list)
    ensures Review(AppliedRead(list, it), key) == NextReview(Review(list, key), it, key)
  {
    if IsDelta(it.item, it.delta) {
      var i := IndexOf(list, it.delta.key);
      if i >= 0 && list[i].status == StatusOpen {
        StoredAlike(list, i, Gesture(list[i], it.item, it.delta));
      } else if i < 0 && (it.delta.status == StatusOpen || it.delta.status == StatusSubmitted) {
        AddedAfter(list, Gesture(Started(it.item, it.delta), it.item, it.delta));
      }
    }
  }

  lemma BegunMore(items: seq<Read>, n: nat, next: nat, key: string)
    requires n < |items| && next == n + 1
    ensures Begun(items, next, key) <==> Begun(items, n, key) || Opener(items[n], key)
    ensures Over(items, next, key) <==> Over(items, n, key) || EndsAt(items, n, key)
    ensures Over(items, n, key) ==> Begun(items, n, key)
  {
  }

  // Nothing acts on a review before it is opened.
  lemma NothingBefore(items: seq<Read>, n: nat, key: string)
    requires n <= |items| && !Begun(items, n, key)
    ensures forall i: nat :: i < n ==> !Acts(items, i, key)
  {
  }

  // An item that is no gesture on the review leaves it.
  lemma IdleNext(items: seq<Read>, n: nat, next: nat, key: string, o: Option<State>)
    requires n < |items| && next == n + 1 && ReviewSays(items, n, key, o) && !Acts(items, n, key)
    ensures NextReview(o, items[n], key) == o
    ensures (Begun(items, next, key) <==> Begun(items, n, key)) && (Over(items, next, key) <==> Over(items, n, key))
  {
    BegunMore(items, n, next, key);
  }

  // What a gesture starts from.
  function Base(o: Option<State>, it: Read): State {
    if o.Some? then o.value else Started(it.item, it.delta)
  }

  lemma ActNext(items: seq<Read>, n: nat, next: nat, key: string, o: Option<State>)
    requires n < |items| && next == n + 1 && ReviewSays(items, n, key, o) && Acts(items, n, key)
    ensures NextReview(o, items[n], key) == Some(Gesture(Base(o, items[n]), items[n].item, items[n].delta))
    ensures Begun(items, next, key) && (Over(items, next, key) <==> Ender(items[n], key))
  {
    BegunMore(items, n, next, key);
  }

  // ---- the entries

  lemma StandsMore(items: seq<Read>, n: nat, next: nat, key: string, m: string)
    requires n < |items| && next == n + 1 && Acts(items, n, key)
    ensures Stands(items, next, key, m) <==> Edits(items, n, key, m) || (Stands(items, n, key, m) && !Removes(items, n, key, m))
  {
    if Edits(items, n, key, m) { assert NotRemoved(items, n, next, key, m); }
    if Stands(items, n, key, m) && !Removes(items, n, key, m) {
      var i: nat :| i < n && Edits(items, i, key, m) && NotRemoved(items, i, n, key, m);
      assert NotRemoved(items, i, next, key, m);
    }
    if Stands(items, next, key, m) && !Edits(items, n, key, m) {
      var i: nat :| i < next && Edits(items, i, key, m) && NotRemoved(items, i, next, key, m);
      assert NotRemoved(items, i, n, key, m);
    }
  }

  lemma SetsEdits(items: seq<Read>, i: nat, key: string, m: string, f: Part)
    requires Sets(items, i, key, m, f)
    ensures Edits(items, i, key, m)
  {
    var edits := items[i].delta.entries;
    if !Mentions(edits, |edits|, m) { NotMentioned(edits, |edits|, m, f); }
  }

  // The parts of an entry that a gesture gives, leaves, or starts empty.
  lemma PartGiven(items: seq<Read>, n: nat, next: nat, key: string, m: string, f: Part, v: string)
    requires n < |items| && next == n + 1 && Sets(items, n, key, m, f) && GivenBy(items[n], m, f) == Some(v)
    ensures PartSays(items, next, key, m, f, v) && LastSet(items, next, key, m, f, n)
  {
    assert LastSet(items, next, key, m, f, n);
  }

  lemma PartLeft(items: seq<Read>, n: nat, next: nat, key: string, m: string, f: Part)
    requires n < |items| && next == n + 1 && !Sets(items, n, key, m, f) && !Removes(items, n, key, m)
    ensures forall i: nat :: LastSet(items, next, key, m, f, i) <==> LastSet(items, n, key, m, f, i)
  {
  }

  lemma PartEmpty(items: seq<Read>, n: nat, next: nat, key: string, m: string, f: Part)
    requires n < |items| && next == n + 1 && !Sets(items, n, key, m, f) && (Removes(items, n, key, m) || !Stands(items, n, key, m))
    ensures forall i: nat :: !LastSet(items, next, key, m, f, i)
  {
    forall i: nat ensures !LastSet(items, next, key, m, f, i) {
      if LastSet(items, next, key, m, f, i) {
        SetsEdits(items, i, key, m, f);
        assert i < n && NotRemoved(items, i, n, key, m);
        assert false;
      }
    }
  }

  // An entry after a gesture.
  lemma EntryMore(items: seq<Read>, n: nat, next: nat, key: string, es: seq<ReviewEntry>, was: ReviewEntry, y: ReviewEntry)
    requires n < |items| && next == n + 1 && Acts(items, n, key) && EntriesSay(items, n, key, es)
    requires Became(was, items[n].delta.entries, |items[n].delta.entries|, items[n].item.at, y)
    requires (was in es && !Removes(items, n, key, was.impact)) ||
             (was == Fresh(was.impact) && (Removes(items, n, key, was.impact) || !Stands(items, n, key, was.impact)))
    ensures EntrySays(items, next, key, y)
  {
    var m := was.impact;
    forall f ensures PartSays(items, next, key, m, f, PartOf(y, f)) {
      if Sets(items, n, key, m, f) {
        PartGiven(items, n, next, key, m, f, PartOf(y, f));
      } else if Removes(items, n, key, m) || !Stands(items, n, key, m) {
        PartEmpty(items, n, next, key, m, f);
        assert PartOf(y, f) == PartOf(was, f);
      } else {
        PartLeft(items, n, next, key, m, f);
        assert PartSays(items, n, key, m, f, PartOf(was, f));
      }
    }
    TimeMore(items, n, next, key, es, was, y);
  }

  lemma TimeMore(items: seq<Read>, n: nat, next: nat, key: string, es: seq<ReviewEntry>, was: ReviewEntry, y: ReviewEntry)
    requires n < |items| && next == n + 1 && Acts(items, n, key) && EntriesSay(items, n, key, es)
    requires y.at == if Sets(items, n, key, was.impact, OfOutcome) then items[n].item.at else was.at
    requires (was in es && !Removes(items, n, key, was.impact)) ||
             (was == Fresh(was.impact) && (Removes(items, n, key, was.impact) || !Stands(items, n, key, was.impact)))
    ensures TimeSays(items, next, key, was.impact, y.at)
  {
    var m := was.impact;
    if Sets(items, n, key, m, OfOutcome) {
      assert LastSet(items, next, key, m, OfOutcome, n);
    } else if Removes(items, n, key, m) || !Stands(items, n, key, m) {
      PartEmpty(items, n, next, key, m, OfOutcome);
    } else {
      PartLeft(items, n, next, key, m, OfOutcome);
    }
  }

  lemma EntriesMore(items: seq<Read>, n: nat, next: nat, key: string, es: seq<ReviewEntry>)
    requires n < |items| && next == n + 1 && Acts(items, n, key) && EntriesSay(items, n, key, es)
    ensures var d := items[n].delta;
      EntriesSay(items, next, key, EntriesEdited(DroppedAll(es, d.remove), d.entries, items[n].item.at))
  {
    var d := items[n].delta;
    var left := DroppedAll(es, d.remove);
    DroppedAllAre(es, d.remove);
    EditsAreSaid(left, d.entries, |d.entries|, items[n].item.at);
    assert d.entries[..|d.entries|] == d.entries;
    var out := EntriesEdited(left, d.entries, items[n].item.at);
    forall m ensures Has(out, m) <==> Stands(items, next, key, m) {
      StandsMore(items, n, next, key, m);
      HasLeft(es, d.remove, m);
    }
    forall y | y in out ensures EntrySays(items, next, key, y) {
      var was :| CameFrom(left, d.entries, |d.entries|, was) && Became(was, d.entries, |d.entries|, items[n].item.at, y);
      HasLeft(es, d.remove, was.impact);
      EntryMore(items, n, next, key, es, was, y);
    }
  }

  lemma HasLeft(es: seq<ReviewEntry>, impacts: seq<string>, m: string)
    requires OnePerImpact(es)
    ensures Has(DroppedAll(es, impacts), m) <==> Has(es, m) && m !in impacts
  {
    var left := DroppedAll(es, impacts);
    DroppedAllAre(es, impacts);
    if Has(left, m) {
      var k :| 0 <= k < |left| && left[k].impact == m;
      assert left[k] in es;
    }
    if Has(es, m) && m !in impacts {
      var k :| 0 <= k < |es| && es[k].impact == m;
      assert es[k] in left;
    }
  }

  lemma NoEntries(items: seq<Read>, n: nat, key: string)
    requires n <= |items| && !Begun(items, n, key)
    ensures EntriesSay(items, n, key, [])
  {
    NothingBefore(items, n, key);
  }

  // ---- the rest of a review

  lemma IdleSays(items: seq<Read>, n: nat, next: nat, key: string, s: State)
    requires n < |items| && next == n + 1 && HeadSays(items, n, key, s) && !Acts(items, n, key)
    requires Over(items, next, key) <==> Over(items, n, key)
    ensures HeadSays(items, next, key, s)
  {
    IdleActs(items, n, next, key, s);
    IdleComment(items, n, next, key, s.comment);
    IdleGestures(items, n, next, key);
  }

  lemma IdleGestures(items: seq<Read>, n: nat, next: nat, key: string)
    requires n < |items| && next == n + 1 && !Acts(items, n, key)
    ensures Gestures(items, next, key) == Gestures(items, n, key)
  {
  }

  // The last gesture and the last one that gave a status.
  ghost predicate ActsSay(items: seq<Read>, n: nat, key: string, s: State) {
    (exists i: nat :: LastStatus(items, n, key, i) && s.status == items[i].delta.status) &&
    exists i: nat :: LastAct(items, n, key, i) && EndSays(items[i], s)
  }

  lemma IdleActs(items: seq<Read>, n: nat, next: nat, key: string, s: State)
    requires n < |items| && next == n + 1 && ActsSay(items, n, key, s) && !Acts(items, n, key)
    ensures ActsSay(items, next, key, s)
  {
    var i: nat :| LastStatus(items, n, key, i) && s.status == items[i].delta.status;
    LastStatusMore(items, n, next, key, i);
    var j: nat :| LastAct(items, n, key, j) && EndSays(items[j], s);
    LastActMore(items, n, next, key, j);
  }

  lemma LastActMore(items: seq<Read>, n: nat, next: nat, key: string, i: nat)
    requires n < |items| && next == n + 1 && LastAct(items, n, key, i) && !Acts(items, n, key)
    ensures LastAct(items, next, key, i)
  {
    forall j: nat | i < j < next ensures !Acts(items, j, key) {
      if j < n { assert !Acts(items, j, key); }
    }
  }

  lemma LastStatusMore(items: seq<Read>, n: nat, next: nat, key: string, i: nat)
    requires n < |items| && next == n + 1 && LastStatus(items, n, key, i) && !SaysStatus(items, n, key)
    ensures LastStatus(items, next, key, i)
  {
    forall j: nat | i < j < next ensures !SaysStatus(items, j, key) {
      if j < n { assert !SaysStatus(items, j, key); }
    }
  }

  lemma IdleComment(items: seq<Read>, n: nat, next: nat, key: string, comment: string)
    requires n < |items| && next == n + 1 && CommentSays(items, n, key, comment) && !SaysComment(items, n, key)
    ensures CommentSays(items, next, key, comment)
  {
    forall i: nat ensures LastComment(items, next, key, i) <==> LastComment(items, n, key, i) {
      LastCommentSame(items, n, next, key, i);
    }
  }

  lemma LastCommentSame(items: seq<Read>, n: nat, next: nat, key: string, i: nat)
    requires n < |items| && next == n + 1 && !SaysComment(items, n, key)
    ensures LastComment(items, next, key, i) <==> LastComment(items, n, key, i)
  {
    if LastComment(items, n, key, i) {
      forall j: nat | i < j < next ensures !SaysComment(items, j, key) {
        if j < n { assert !SaysComment(items, j, key); }
      }
    }
  }

  lemma IdleEntries(items: seq<Read>, n: nat, next: nat, key: string, es: seq<ReviewEntry>)
    requires n < |items| && next == n + 1 && EntriesSay(items, n, key, es) && !Acts(items, n, key)
    ensures EntriesSay(items, next, key, es)
  {
    forall m ensures Stands(items, next, key, m) <==> Stands(items, n, key, m) { IdleStands(items, n, next, key, m); }
    forall x | x in es ensures EntrySays(items, next, key, x) {
      assert EntrySays(items, n, key, x);
      forall f ensures PartSays(items, next, key, x.impact, f, PartOf(x, f)) {
        assert PartSays(items, n, key, x.impact, f, PartOf(x, f));
        PartLeft(items, n, next, key, x.impact, f);
      }
      PartLeft(items, n, next, key, x.impact, OfOutcome);
    }
  }

  lemma IdleStands(items: seq<Read>, n: nat, next: nat, key: string, m: string)
    requires n < |items| && next == n + 1 && !Acts(items, n, key)
    ensures Stands(items, next, key, m) <==> Stands(items, n, key, m)
  {
    if Stands(items, n, key, m) {
      var i: nat :| i < n && Edits(items, i, key, m) && NotRemoved(items, i, n, key, m);
      assert NotRemoved(items, i, next, key, m);
    }
    if Stands(items, next, key, m) {
      var i: nat :| i < next && Edits(items, i, key, m) && NotRemoved(items, i, next, key, m);
      assert NotRemoved(items, i, n, key, m);
    }
  }

  // A gesture on a review: its status, the time and author of its submission.
  lemma ActSays(items: seq<Read>, n: nat, next: nat, key: string, was: State)
    requires n < |items| && next == n + 1 && Acts(items, n, key) && was.status != StatusSubmitted
    requires was.submittedAt == 0 && was.submittedBy == "" && was.execution == ""
    requires if Begun(items, n, key) then exists i: nat :: LastStatus(items, n, key, i) && was.status == items[i].delta.status
             else Opener(items[n], key)
    ensures ActsSay(items, next, key, Gesture(was, items[n].item, items[n].delta))
  {
    var now := Gesture(was, items[n].item, items[n].delta);
    assert LastAct(items, next, key, n) && EndSays(items[n], now);
    if items[n].delta.status != "" {
      assert LastStatus(items, next, key, n);
    } else {
      var i: nat :| LastStatus(items, n, key, i) && was.status == items[i].delta.status;
      LastStatusMore(items, n, next, key, i);
    }
  }

  lemma ActComment(items: seq<Read>, n: nat, next: nat, key: string, comment: string)
    requires n < |items| && next == n + 1 && Acts(items, n, key) && CommentSays(items, n, key, comment)
    ensures CommentSays(items, next, key, if items[n].delta.comment.Some? then items[n].delta.comment.value else comment)
  {
    if items[n].delta.comment.Some? {
      assert LastComment(items, next, key, n);
    } else {
      IdleComment(items, n, next, key, comment);
    }
  }

  lemma ActCounts(items: seq<Read>, n: nat, next: nat, key: string)
    requires n < |items| && next == n + 1 && Acts(items, n, key)
    ensures |Gestures(items, next, key)| == |Gestures(items, n, key)| + 1
  {
    assert Gestures(items, next, key) == Gestures(items, n, key) + {n};
  }

  // What a gesture keeps of the review, or starts it with.
  ghost predicate BaseSays(items: seq<Read>, n: nat, next: nat, key: string, was: State) {
    was.key == key && was.status != StatusSubmitted && was.submittedAt == 0 && was.submittedBy == "" && was.execution == "" &&
    (exists i: nat :: i < next && FirstOpener(items, i, key) && StartSays(items[i], was)) &&
    CommentSays(items, n, key, was.comment) && was.versions == |Gestures(items, n, key)|
  }

  lemma BaseOf(items: seq<Read>, n: nat, next: nat, key: string, o: Option<State>)
    requires n < |items| && next == n + 1 && ReviewSays(items, n, key, o) && Acts(items, n, key)
    ensures BaseSays(items, n, next, key, Base(o, items[n])) && EntriesSay(items, n, key, Base(o, items[n]).entries)
  {
    if o.None? {
      NothingBefore(items, n, key);
      NoEntries(items, n, key);
      assert FirstOpener(items, n, key) && StartSays(items[n], Base(o, items[n]));
      assert Gestures(items, n, key) == {};
    }
  }

  lemma ActHead(items: seq<Read>, n: nat, next: nat, key: string, o: Option<State>)
    requires n < |items| && next == n + 1 && ReviewSays(items, n, key, o) && Acts(items, n, key)
    ensures HeadSays(items, next, key, Gesture(Base(o, items[n]), items[n].item, items[n].delta))
  {
    var was := Base(o, items[n]);
    BaseOf(items, n, next, key, o);
    ActSays(items, n, next, key, was);
    ActNext(items, n, next, key, o);
    ActHeadSays(items, n, next, key, was);
  }

  lemma ActHeadSays(items: seq<Read>, n: nat, next: nat, key: string, was: State)
    requires n < |items| && next == n + 1 && Acts(items, n, key) && BaseSays(items, n, next, key, was)
    requires ActsSay(items, next, key, Gesture(was, items[n].item, items[n].delta))
    requires (was.status == StatusOpen || Opener(items[n], key)) && (Over(items, next, key) <==> Ender(items[n], key))
    ensures HeadSays(items, next, key, Gesture(was, items[n].item, items[n].delta))
  {
    ActComment(items, n, next, key, was.comment);
    ActCounts(items, n, next, key);
    var i: nat :| i < next && FirstOpener(items, i, key) && StartSays(items[i], was);
    assert StartSays(items[i], Gesture(was, items[n].item, items[n].delta));
  }

  lemma SaysMore(items: seq<Read>, n: nat, next: nat, key: string, o: Option<State>)
    requires n < |items| && next == n + 1 && ReviewSays(items, n, key, o)
    ensures ReviewSays(items, next, key, NextReview(o, items[n], key))
  {
    if Acts(items, n, key) {
      BaseOf(items, n, next, key, o);
      ActHead(items, n, next, key, o);
      ActNext(items, n, next, key, o);
      EntriesMore(items, n, next, key, Base(o, items[n]).entries);
    } else {
      IdleNext(items, n, next, key, o);
      if o.Some? {
        IdleSays(items, n, next, key, o.value);
        IdleEntries(items, n, next, key, o.value.entries);
      }
    }
  }

  ghost predicate AreRead(items: seq<Item>, read: seq<Read>) {
    |read| == |items| && forall i :: 0 <= i < |items| ==> read[i] == Read(items[i], DeltaOf(items[i].data))
  }

  /**
   * Over any log, a review is what the gestures on it say: its parts and those of its entries are the last ones given, by
   * position, since the entry was last removed.
   */
  lemma {:induction false} ReviewIsItsGestures(items: seq<Item>, read: seq<Read>, n: nat, key: string)
    requires AreRead(items, read) && n <= |items|
    ensures ReviewSays(read, n, key, Review(Folded(items[..n]), key))
  {
    if n == 0 {
      assert items[..0] == [];
    } else {
      var last := n - 1;
      ReviewIsItsGestures(items, read, last, key);
      assert items[..n][..last] == items[..last];
      ReviewsAreWellKept(items[..last]);
      ReviewNext(Folded(items[..last]), items[last], key);
      SaysMore(read, last, n, key, Review(Folded(items[..last]), key));
    }
  }
}
