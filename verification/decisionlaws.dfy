// What settles a decision point, over any log: the rule of its board, the chair of a split majority, or, with no board,
// a person, a sure agent, or a ratification.
module DecisionLaws {
  import opened Prelude
  import opened Decisions

  // ---- what the log holds

  // A ruling on a point, decided, in a seat, for an option.
  ghost predicate Cast(items: seq<Item>, point: string, role: string, option: string) {
    exists i :: 0 <= i < |items| && IsCast(items[i], point, role, option)
  }

  predicate IsCast(it: Item, point: string, role: string, option: string) {
    it.flow == "" && it.event.Some? && it.event.value.RulePoint? && it.event.value.point == point &&
    it.event.value.outcome == Decided && it.event.value.role == role && it.event.value.option == option
  }

  // A ruling that is neither decided nor undecidable, which the graph never writes: it settles by who made it alone.
  predicate IsMalformed(it: Item, point: string) {
    it.flow == "" && it.event.Some? && it.event.value.RulePoint? && it.event.value.point == point &&
    it.event.value.outcome == OtherOutcome
  }

  ghost predicate Malformed(items: seq<Item>, point: string) {
    exists i :: 0 <= i < |items| && IsMalformed(items[i], point)
  }

  ghost predicate DistinctSeats(board: seq<string>) {
    forall i, j :: 0 <= i < j < |board| ==> board[i] != board[j]
  }

  function Seats(board: seq<string>): set<string> { set r | r in board }

  // ---- how a board settles

  // By its rule, each vote counted being a ruling of the log in its seat.
  ghost predicate SettledByRule(items: seq<Item>, p: Policy, point: string, option: string) {
    match p.rule
    case Unanimity =>
      (option == OptionGo && forall r :: r in p.board ==> Cast(items, point, r, OptionGo)) ||
      (option != OptionGo && exists r :: r in p.board && Cast(items, point, r, option))
    case Majority =>
      Carries(p.board, p.votes, option) && forall r :: r in p.votes ==> r in p.board && Cast(items, point, r, p.votes[r])
    case Consent =>
      (option == OptionNoGo && exists r :: r in p.board && Cast(items, point, r, OptionNoGo)) ||
      (option == OptionGo && forall r :: r in p.board ==> exists o :: o != OptionNoGo && Cast(items, point, r, o))
  }

  // By the chair of a majority board whose every seat ruled, no option carrying it.
  ghost predicate SettledByChair(items: seq<Item>, p: Policy, point: string, option: string) {
    p.rule == Majority && p.chair != "" && Cast(items, point, p.chair, option) &&
    (forall r :: r in p.board ==> r in p.votes && Cast(items, point, r, p.votes[r])) &&
    forall o :: !Carries(p.board, p.votes, o)
  }

  ghost predicate BoardSettled(items: seq<Item>, d: Point) {
    SettledByRule(items, d.policy, d.id, d.option) || SettledByChair(items, d.policy, d.id, d.option) || Malformed(items, d.id)
  }

  // ---- the invariant

  // The votes are rulings of the log, each in a seat.
  ghost predicate VotesAreCast(items: seq<Item>, d: Point) {
    forall r :: r in d.policy.votes ==> r in d.policy.board && Cast(items, d.id, r, d.policy.votes[r])
  }

  // What the votes of a board that has not settled say.
  ghost predicate Unsettling(p: Policy) {
    match p.rule
    case Unanimity => (forall r :: r in p.votes ==> p.votes[r] == OptionGo) && p.votes.Keys != Seats(p.board)
    case Majority => forall o :: !Carries(p.board, p.votes, o)
    case Consent => (forall r :: r in p.votes ==> p.votes[r] != OptionNoGo) && p.votes.Keys != Seats(p.board)
  }

  ghost predicate Right(items: seq<Item>, d: Point) {
    d.policy.board != [] && DistinctSeats(d.policy.board) ==>
      VotesAreCast(items, d) &&
      if d.Settled() then BoardSettled(items, d)
      else Unsettling(d.policy) && (d.ruling.Some? ==> d.ruling.value.outcome != Decided)
  }

  // ---- counting

  lemma {:induction false} SeatsSize(board: seq<string>)
    requires DistinctSeats(board)
    ensures |Seats(board)| == |board|
  {
    if board != [] {
      var n := |board| - 1;
      SeatsSize(board[..n]);
      assert Seats(board) == Seats(board[..n]) + {board[n]};
      assert board[n] !in Seats(board[..n]);
    }
  }

  lemma SmallerSet<T>(a: set<T>, b: set<T>)
    requires a <= b && |a| >= |b|
    ensures a == b
  {
    if !(b <= a) {
      var x :| x in b && x !in a;
      SubsetSize(a, b - {x});
    }
  }

  // Distinct seats have all voted exactly when there are as many votes as seats.
  lemma FullBoard(p: Policy)
    requires DistinctSeats(p.board) && p.votes.Keys <= Seats(p.board)
    ensures |p.votes| >= |p.board| <==> p.votes.Keys == Seats(p.board)
  {
    SeatsSize(p.board);
    assert |p.votes| == |p.votes.Keys|;
    if |p.votes| >= |p.board| { SmallerSet(p.votes.Keys, Seats(p.board)); }
  }

  lemma {:induction false} CountedAll(board: seq<string>, votes: map<string, string>, option: string)
    requires option != ""
    ensures Count(board, votes, option) <= |board|
    ensures Count(board, votes, option) == |board| <==> forall r :: r in board ==> r in votes && votes[r] == option
  {
    if board != [] {
      var n := |board| - 1;
      CountedAll(board[..n], votes, option);
      assert board == board[..n] + [board[n]];
    }
  }

  // ---- one event

  lemma CastGrows(items: seq<Item>, it: Item, point: string, role: string, option: string)
    ensures Cast(items, point, role, option) ==> Cast(items + [it], point, role, option)
    ensures IsCast(it, point, role, option) ==> Cast(items + [it], point, role, option)
  {
    if Cast(items, point, role, option) {
      var i :| 0 <= i < |items| && IsCast(items[i], point, role, option);
      assert IsCast((items + [it])[i], point, role, option);
    }
    assert (items + [it])[|items|] == it;
  }

  lemma MalformedGrows(items: seq<Item>, it: Item, point: string)
    ensures Malformed(items, point) || IsMalformed(it, point) ==> Malformed(items + [it], point)
  {
    if Malformed(items, point) {
      var i :| 0 <= i < |items| && IsMalformed(items[i], point);
      assert IsMalformed((items + [it])[i], point);
    }
    assert (items + [it])[|items|] == it;
  }

  lemma AllCastsGrow(items: seq<Item>, it: Item, point: string)
    ensures forall role, option :: Cast(items, point, role, option) ==> Cast(items + [it], point, role, option)
  {
    forall role, option { CastGrows(items, it, point, role, option); }
  }

  // A longer log says no less of a point.
  lemma RightGrows(items: seq<Item>, it: Item, d: Point)
    requires Right(items, d)
    ensures Right(items + [it], d)
  {
    AllCastsGrow(items, it, d.id);
    MalformedGrows(items, it, d.id);
    if d.policy.board != [] && DistinctSeats(d.policy.board) && d.Settled() {
      if SettledByRule(items, d.policy, d.id, d.option) { RuleGrows(items, it, d); }
    }
  }

  lemma RuleGrows(items: seq<Item>, it: Item, d: Point)
    requires SettledByRule(items, d.policy, d.id, d.option)
    ensures SettledByRule(items + [it], d.policy, d.id, d.option)
  {
    AllCastsGrow(items, it, d.id);
  }

  // ---- a vote

  predicate Seated(d: Point) { d.policy.board != [] }

  // An unsettled board, the votes in its seats.
  ghost predicate Polling(p: Policy) {
    p.board != [] && DistinctSeats(p.board) && p.votes.Keys <= Seats(p.board) && Unsettling(p)
  }

  lemma UnsettledStays(p: Policy, q: Policy, e: Event)
    requires Polling(p) && e.RulePoint? && e.role in p.board
    requires q == p.(votes := p.votes[e.role := e.option]) && RuledBy(q, e.option).None?
    ensures Unsettling(q)
  {
    assert q.votes.Keys <= Seats(q.board);
    FullBoard(q);
    if q.rule == Unanimity { CountedAll(q.board, q.votes, OptionGo); }
  }

  lemma ChairNeedsASplitMajority(p: Policy, role: string)
    requires Polling(p) && ChairMayRule(p, role)
    ensures p.rule == Majority && p.votes.Keys == Seats(p.board)
  {
    FullBoard(p);
  }

  lemma VoteIsCast(items: seq<Item>, it: Item, d: Point, e: Event, q: Point)
    requires VotesAreCast(items, d) && e.RulePoint? && e.role in d.policy.board && IsCast(it, d.id, e.role, e.option)
    requires q.id == d.id && q.policy == d.policy.(votes := d.policy.votes[e.role := e.option])
    ensures VotesAreCast(items + [it], q)
  {
    AllCastsGrow(items, it, d.id);
    CastGrows(items, it, d.id, e.role, e.option);
  }

  lemma RuleSettles(items: seq<Item>, p: Policy, q: Policy, point: string, e: Event)
    requires Polling(p) && e.RulePoint? && e.role in p.board && Cast(items, point, e.role, e.option)
    requires q == p.(votes := p.votes[e.role := e.option]) && RuledBy(q, e.option).Some?
    requires forall r :: r in q.votes ==> r in q.board && Cast(items, point, r, q.votes[r])
    ensures SettledByRule(items, q, point, RuledBy(q, e.option).value)
  {
    match q.rule {
      case Majority =>
      case Unanimity =>
        CountedAll(q.board, q.votes, OptionGo);
      case Consent =>
        FullBoard(q);
        assert forall r :: r in q.board ==> r in Seats(q.board);
    }
  }

  // ---- one event of a point

  predicate EventOf(it: Item, d: Point, e: Event) {
    it.flow == "" && it.at != 0 && it.event == Some(e) && !e.OpenPoint? && e.point == d.id
  }

  // A decided ruling on a board that has not settled.
  ghost predicate BoardRules(items: seq<Item>, it: Item, d: Point, e: Event) {
    Seated(d) && DistinctSeats(d.policy.board) && Right(items, d) && !d.Settled() &&
    EventOf(it, d, e) && e.RulePoint? && e.outcome == Decided
  }

  lemma PointAfterBoard(items: seq<Item>, it: Item, d: Point, e: Event)
    requires BoardRules(items, it, d, e)
    ensures var (q, option) := BoardRuled(d.policy, e);
            var after := PointAfter(d, it, e);
            after.id == d.id && after.policy == q &&
            if option.Some? then after.Settled() && after.option == option.value
            else !after.Settled() && after.ruling == None
  {
  }

  lemma ChairIsRight(items: seq<Item>, it: Item, d: Point, e: Event)
    requires BoardRules(items, it, d, e) && ChairMayRule(d.policy, e.role)
    ensures Right(items + [it], PointAfter(d, it, e))
  {
    PointAfterBoard(items, it, d, e);
    ChairNeedsASplitMajority(d.policy, e.role);
    AllCastsGrow(items, it, d.id);
    CastGrows(items, it, d.id, e.role, e.option);
    forall r | r in d.policy.board ensures r in d.policy.votes { assert r in Seats(d.policy.board); }
    var after := PointAfter(d, it, e);
    assert SettledByChair(items + [it], after.policy, after.id, after.option);
  }

  lemma VoteIsRight(items: seq<Item>, it: Item, d: Point, e: Event)
    requires BoardRules(items, it, d, e) && !ChairMayRule(d.policy, e.role)
    requires e.role in d.policy.board && !HasVoted(d.policy, e.role)
    ensures Right(items + [it], PointAfter(d, it, e))
  {
    PointAfterBoard(items, it, d, e);
    CastGrows(items, it, d.id, e.role, e.option);
    var (q, option) := BoardRuled(d.policy, e);
    var after := PointAfter(d, it, e);
    VoteIsCast(items, it, d, e, after);
    if option.Some? { RuleSettles(items + [it], d.policy, q, d.id, e); } else { UnsettledStays(d.policy, q, e); }
  }

  lemma IgnoredRulingIsRight(items: seq<Item>, it: Item, d: Point, e: Event)
    requires BoardRules(items, it, d, e) && !ChairMayRule(d.policy, e.role)
    requires e.role !in d.policy.board || HasVoted(d.policy, e.role)
    ensures Right(items + [it], PointAfter(d, it, e))
  {
    PointAfterBoard(items, it, d, e);
    AllCastsGrow(items, it, d.id);
  }

  lemma BoardRulingIsRight(items: seq<Item>, it: Item, d: Point, e: Event)
    requires BoardRules(items, it, d, e)
    ensures Right(items + [it], PointAfter(d, it, e))
  {
    if ChairMayRule(d.policy, e.role) {
      ChairIsRight(items, it, d, e);
    } else if e.role in d.policy.board && !HasVoted(d.policy, e.role) {
      VoteIsRight(items, it, d, e);
    } else {
      IgnoredRulingIsRight(items, it, d, e);
    }
  }

  lemma OtherEventIsRight(items: seq<Item>, it: Item, d: Point, e: Event)
    requires Seated(d) && DistinctSeats(d.policy.board) && Right(items, d) && !d.Settled()
    requires EventOf(it, d, e) && (e.RulePoint? ==> e.outcome != Decided)
    ensures Right(items + [it], PointAfter(d, it, e))
  {
    RightGrows(items, it, d);
    MalformedGrows(items, it, d.id);
    if e.RulePoint? {
      UndecidedRuling(d, it, e);
      if e.outcome == OtherOutcome { assert IsMalformed(it, d.id); }
    } else {
      NotARuling(d, it, e);
    }
  }

  lemma UndecidedRuling(d: Point, it: Item, e: Event)
    requires e.RulePoint? && e.outcome != Decided && !d.Settled() && it.at != 0
    ensures var after := PointAfter(d, it, e);
            after.id == d.id && after.policy == d.policy.(rounds := after.policy.rounds) &&
            (after.Settled() ==> e.outcome == OtherOutcome) && after.ruling.Some? && after.ruling.value.outcome != Decided
  {
  }

  lemma NotARuling(d: Point, it: Item, e: Event)
    requires !e.RulePoint? && !d.Settled() && (d.ruling.Some? ==> d.ruling.value.outcome != Decided)
    ensures var after := PointAfter(d, it, e);
            after.id == d.id && after.policy == d.policy && !after.Settled() && after.ruling == d.ruling
  {
  }

  lemma EventIsRight(items: seq<Item>, it: Item, d: Point, e: Event)
    requires Right(items, d) && EventOf(it, d, e)
    ensures Right(items + [it], PointAfter(d, it, e))
  {
    if d.Settled() {
      RightGrows(items, it, d);
    } else if Seated(d) && DistinctSeats(d.policy.board) {
      if e.RulePoint? && e.outcome == Decided {
        BoardRulingIsRight(items, it, d, e);
      } else {
        OtherEventIsRight(items, it, d, e);
      }
    } else {
      BoardNeverMoves(d, it, e);
    }
  }

  lemma PolicyKeepsBoard(d: Point, e: Event)
    ensures PolicyFolded(d, e).0.policy.board == d.policy.board
  {
  }

  lemma BoardNeverMoves(d: Point, it: Item, e: Event)
    ensures PointAfter(d, it, e).policy.board == d.policy.board
  {
    if e.RulePoint? { PolicyKeepsBoard(d.(ruling := Some(RulingOf(it, e))), e); }
    if e.RatifyPoint? { PolicyKeepsBoard(d, e); }
  }

  // ---- the whole log

  // Items are dated, and a point is opened before anyone voted on it.
  predicate WellFormed(it: Item) {
    it.at != 0 && (it.event.Some? && it.event.value.OpenPoint? ==> it.event.value.policy.votes == map[])
  }

  ghost predicate WellFormedLog(items: seq<Item>) { forall i :: 0 <= i < |items| ==> WellFormed(items[i]) }

  lemma NewPointIsRight(items: seq<Item>, it: Item, e: Event)
    requires WellFormed(it) && it.event == Some(e) && e.OpenPoint?
    ensures Right(items, Opened(it, e))
  {
    var p := e.policy;
    if p.board != [] {
      assert p.board[0] in Seats(p.board);
      forall o ensures !Carries(p.board, p.votes, o) { NoVotesNoCount(p.board, p.votes, o); }
    }
  }

  lemma {:induction false} NoVotesNoCount(board: seq<string>, votes: map<string, string>, o: string)
    requires votes == map[]
    ensures Count(board, votes, o) == 0
  {
    if board != [] { NoVotesNoCount(board[..|board| - 1], votes, o); }
  }

  /** Over any log, every point is right: settled as its board says, or not settled. */
  lemma {:induction false} PointsAreRight(items: seq<Item>, k: nat)
    requires WellFormedLog(items) && k < |Replay(items)|
    ensures Right(items, Replay(items)[k])
  {
    var n := |items| - 1;
    var before, it := Replay(items[..n]), items[n];
    assert items == items[..n] + [it];
    if k < |before| {
      PointsAreRight(items[..n], k);
      RightGrows(items[..n], it, before[k]);
      if it.event.Some? && it.flow == "" && !it.event.value.OpenPoint? && IndexOf(before, it.event.value.point) == k {
        EventIsRight(items[..n], it, before[k], it.event.value);
      }
    } else {
      NewPointIsRight(items, it, it.event.value);
    }
  }

  /**
   * Over any log, a point whose board has distinct seats is settled by its rule, on the votes its seats cast in that log,
   * or by the chair of a majority board every seat of which ruled without carrying an option. No repeated vote, no ruling
   * outside a seat and no ratification settles it.
   */
  lemma BoardsSettleByTheirRule(items: seq<Item>, k: nat)
    requires WellFormedLog(items) && k < |Replay(items)| && Replay(items)[k].Settled()
    requires Replay(items)[k].policy.board != [] && DistinctSeats(Replay(items)[k].policy.board)
    requires !Malformed(items, Replay(items)[k].id)
    ensures var d := Replay(items)[k];
            SettledByRule(items, d.policy, d.id, d.option) || SettledByChair(items, d.policy, d.id, d.option)
  {
    PointsAreRight(items, k);
  }

  /** Off the majority rule the chair has no say: go takes a ruling of every seat, anything else a seat that ruled it. */
  lemma ChairNeverDecidesAlone(items: seq<Item>, k: nat)
    requires WellFormedLog(items) && k < |Replay(items)| && Replay(items)[k].Settled()
    requires Replay(items)[k].policy.board != [] && DistinctSeats(Replay(items)[k].policy.board)
    requires Replay(items)[k].policy.rule != Majority && !Malformed(items, Replay(items)[k].id)
    ensures var d := Replay(items)[k];
            if d.option == OptionGo then forall r :: r in d.policy.board ==> exists o :: Cast(items, d.id, r, o)
            else exists r :: r in d.policy.board && Cast(items, d.id, r, d.option)
  {
    BoardsSettleByTheirRule(items, k);
  }

  // ---- a point with no board

  predicate IsRuled(it: Item, point: string, option: string) {
    it.flow == "" && it.event.Some? && it.event.value.RulePoint? && it.event.value.point == point &&
    it.event.value.outcome != Undecidable && it.event.value.option == option
  }

  // A ruling of a person, or of an agent sure enough.
  predicate IsSure(it: Item, point: string, option: string, threshold: real) {
    IsRuled(it, point, option) && (it.event.value.human || it.event.value.confidence >= threshold)
  }

  predicate IsAccepted(it: Item, point: string) {
    it.flow == "" && it.event.Some? && it.event.value.RatifyPoint? && it.event.value.point == point && it.event.value.accept
  }

  ghost predicate RuledIn(items: seq<Item>, point: string, option: string) {
    exists i :: 0 <= i < |items| && IsRuled(items[i], point, option)
  }

  ghost predicate SureIn(items: seq<Item>, point: string, option: string, threshold: real) {
    exists i :: 0 <= i < |items| && IsSure(items[i], point, option, threshold)
  }

  ghost predicate RatifiedIn(items: seq<Item>, point: string, option: string) {
    exists j :: 0 <= j < |items| && IsAccepted(items[j], point) && RuledIn(items[..j], point, option)
  }

  // What stands behind a point with no board: its pending ruling is in the log, its decision is sure or ratified.
  ghost predicate Backed(items: seq<Item>, d: Point) {
    if d.Settled() then SureIn(items, d.id, d.option, d.policy.threshold) || RatifiedIn(items, d.id, d.option)
    else d.ruling.Some? && d.ruling.value.outcome == Decided ==> RuledIn(items, d.id, d.ruling.value.option)
  }

  lemma RuledInGrows(items: seq<Item>, it: Item, point: string, option: string)
    ensures RuledIn(items, point, option) || IsRuled(it, point, option) ==> RuledIn(items + [it], point, option)
  {
    if RuledIn(items, point, option) {
      var i :| 0 <= i < |items| && IsRuled(items[i], point, option);
      assert IsRuled((items + [it])[i], point, option);
    }
    assert (items + [it])[|items|] == it;
  }

  lemma SureInGrows(items: seq<Item>, it: Item, point: string, option: string, t: real)
    ensures SureIn(items, point, option, t) || IsSure(it, point, option, t) ==> SureIn(items + [it], point, option, t)
  {
    if SureIn(items, point, option, t) {
      var i :| 0 <= i < |items| && IsSure(items[i], point, option, t);
      assert IsSure((items + [it])[i], point, option, t);
    }
    assert (items + [it])[|items|] == it;
  }

  lemma RatifiedInGrows(items: seq<Item>, it: Item, point: string, option: string)
    ensures RatifiedIn(items, point, option) ==> RatifiedIn(items + [it], point, option)
    ensures IsAccepted(it, point) && RuledIn(items, point, option) ==> RatifiedIn(items + [it], point, option)
  {
    if RatifiedIn(items, point, option) {
      var j :| 0 <= j < |items| && IsAccepted(items[j], point) && RuledIn(items[..j], point, option);
      assert (items + [it])[..j] == items[..j] && (items + [it])[j] == items[j];
    }
    assert (items + [it])[|items|] == it && (items + [it])[..|items|] == items;
  }

  lemma BackedGrows(items: seq<Item>, it: Item, d: Point)
    requires Backed(items, d)
    ensures Backed(items + [it], d)
  {
    SureInGrows(items, it, d.id, d.option, d.policy.threshold);
    RatifiedInGrows(items, it, d.id, d.option);
    if d.ruling.Some? { RuledInGrows(items, it, d.id, d.ruling.value.option); }
  }

  lemma EventBacks(items: seq<Item>, it: Item, d: Point, e: Event)
    requires Backed(items, d) && EventOf(it, d, e) && d.policy.board == []
    ensures Backed(items + [it], PointAfter(d, it, e))
  {
    BackedGrows(items, it, d);
    if d.Settled() {
    } else if e.RulePoint? {
      SureInGrows(items, it, d.id, e.option, d.policy.threshold);
      RuledInGrows(items, it, d.id, e.option);
    } else if e.RatifyPoint? && d.ruling.Some? {
      RatifiedInGrows(items, it, d.id, d.ruling.value.option);
    }
  }

  /**
   * Over any log, a point with no board is decided on an option that a person, or an agent as sure as its threshold,
   * ruled, or that somebody ruled and a later ratification accepted.
   */
  lemma {:induction false} LonePointsAreBacked(items: seq<Item>, k: nat)
    requires WellFormedLog(items) && k < |Replay(items)| && Replay(items)[k].policy.board == []
    ensures Backed(items, Replay(items)[k])
  {
    var n := |items| - 1;
    var before, it := Replay(items[..n]), items[n];
    assert items == items[..n] + [it];
    if k < |before| {
      if it.event.Some? { BoardNeverMoves(before[k], it, it.event.value); }
      LonePointsAreBacked(items[..n], k);
      BackedGrows(items[..n], it, before[k]);
      if it.event.Some? && it.flow == "" && !it.event.value.OpenPoint? && IndexOf(before, it.event.value.point) == k {
        EventBacks(items[..n], it, before[k], it.event.value);
      }
    }
  }

  // ---- a settled point does not move

  // A list of points that keeps the k-th one of another: the same once it is settled, and under its id anyway.
  ghost predicate KeepsPoint(points: seq<Point>, later: seq<Point>, k: nat)
    requires k < |points|
  {
    k < |later| && later[k].id == points[k].id && (points[k].Settled() ==> later[k] == points[k])
  }

  lemma ItemKeepsPoint(points: seq<Point>, later: seq<Point>, it: Item, k: nat, rules: Rules)
    requires k < |points| && KeepsPoint(points, later, k)
    ensures KeepsPoint(points, Replayed(later, it, rules), k)
  {
    if it.event.Some? { PointKeepsId(later[k], it, it.event.value, rules); }
  }

  lemma ReplaySnoc(items: seq<Item>, it: Item, rules: Rules)
    ensures Replay(items + [it], rules) == Replayed(Replay(items, rules), it, rules)
  {
    assert (items + [it])[..|items|] == items;
  }

  lemma {:induction false} ReplayGrows(items: seq<Item>, more: seq<Item>, k: nat, rules: Rules)
    requires k < |Replay(items, rules)|
    ensures KeepsPoint(Replay(items, rules), Replay(items + more, rules), k)
  {
    if more == [] {
      assert items + more == items;
    } else {
      var n := |more| - 1;
      var log := items + more[..n];
      ReplayGrows(items, more[..n], k, rules);
      ItemKeepsPoint(Replay(items, rules), Replay(log, rules), more[n], k, rules);
      ReplaySnoc(log, more[n], rules);
      assert items + more == log + [more[n]];
    }
  }

  /** A decided point is unchanged in every extension of the log, and reads the same at every later moment. */
  lemma DecidedForGood(items: seq<Item>, more: seq<Item>, k: nat, now: int, later: int, rules: Rules)
    requires k < |Replay(items, rules)| && Replay(items, rules)[k].decidedAt != 0
    ensures k < |Replay(items + more, rules)|
    ensures WithStatus(Replay(items + more, rules)[k], later, rules) == WithStatus(Replay(items, rules)[k], now, rules)
    ensures WithStatus(Replay(items, rules)[k], now, rules).status == PointDecided
  {
    ReplayGrows(items, more, k, rules);
  }

  // ---- the default policy

  predicate IsOpening(it: Item) { it.flow == "" && it.event.Some? && it.event.value.OpenPoint? }

  // Where the points of a log were opened, in their order.
  function Openers(items: seq<Item>): seq<nat> {
    if items == [] then []
    else
      var n := |items| - 1;
      if IsOpening(items[n]) then Openers(items[..n]) + [n] else Openers(items[..n])
  }

  lemma {:induction false} OpenersAre(items: seq<Item>, rules: Rules)
    ensures |Openers(items)| == |Replay(items, rules)|
    ensures forall k: nat :: k < |Openers(items)| ==>
              Openers(items)[k] < |items| && items[Openers(items)[k]].id == Replay(items, rules)[k].id
  {
    if items != [] {
      var n := |items| - 1;
      OpenersAre(items[..n], rules);
      forall k: nat | k < |Replay(items[..n], rules)|
        ensures Replayed(Replay(items[..n], rules), items[n], rules)[k].id == Replay(items[..n], rules)[k].id
      {
        if items[n].event.Some? { PointKeepsId(Replay(items[..n], rules)[k], items[n], items[n].event.value, rules); }
      }
    }
  }

  lemma {:induction false} OpenersAscend(items: seq<Item>, i: nat, j: nat)
    requires i < j < |Openers(items)|
    ensures Openers(items)[i] < Openers(items)[j] < |items|
  {
    var n := |items| - 1;
    if j < |Openers(items[..n])| { OpenersAscend(items[..n], i, j); } else { OpenersAre(items[..n], DefaultRules); }
  }

  ghost predicate UniqueIds(items: seq<Item>) { forall i, j :: 0 <= i < j < |items| ==> items[i].id != items[j].id }

  // With unique ids each point is found under its own.
  lemma FoundUnderItsId(items: seq<Item>, k: nat, rules: Rules)
    requires UniqueIds(items) && k < |Replay(items, rules)|
    ensures IndexOf(Replay(items, rules), Replay(items, rules)[k].id) == k
  {
    OpenersAre(items, rules);
    var i := IndexOf(Replay(items, rules), Replay(items, rules)[k].id);
    if i < k { OpenersAscend(items, i, k); }
    if k < i { OpenersAscend(items, k, i); }
  }

  // A decided ruling on a point.
  predicate IsDecisive(it: Item, point: string) {
    it.flow == "" && it.event.Some? && it.event.value.RulePoint? && it.event.value.point == point &&
    it.event.value.outcome == Decided
  }

  predicate DecidedBy(d: Point, it: Item) {
    IsDecisive(it, d.id) && d.option == it.event.value.option && d.decidedBy == it.event.value.writer && d.decidedAt == it.at
  }

  // The first of a log after a position that decides the point.
  predicate FirstDecides(items: seq<Item>, o: nat, j: nat, d: Point) {
    o < j < |items| && DecidedBy(d, items[j]) && forall m :: o < m < j ==> !IsDecisive(items[m], d.id)
  }

  // A point decided by the first decided ruling since its opening, or not at all as there is none.
  ghost predicate DefaultRight(items: seq<Item>, o: nat, d: Point) {
    if d.Settled() then exists j: nat :: FirstDecides(items, o, j, d)
    else (forall m :: o < m < |items| ==> !IsDecisive(items[m], d.id)) &&
         (d.ruling.Some? ==> d.ruling.value.outcome != Decided)
  }

  lemma FirstStays(items: seq<Item>, it: Item, o: nat, d: Point)
    requires DefaultRight(items, o, d) && d.Settled()
    ensures DefaultRight(items + [it], o, d)
  {
    var j: nat :| FirstDecides(items, o, j, d);
    assert FirstDecides(items + [it], o, j, d);
  }

  lemma EventDecides(items: seq<Item>, it: Item, o: nat, d: Point, e: Event)
    requires o < |items| && DefaultRight(items, o, d) && !d.Settled() && EventOf(it, d, e)
    ensures DefaultRight(items + [it], o, PointAfter(d, it, e, DefaultRules))
  {
    var q := PointAfter(d, it, e, DefaultRules);
    PointKeepsId(d, it, e, DefaultRules);
    if IsDecisive(it, d.id) {
      assert FirstDecides(items + [it], o, |items|, q);
    } else {
      assert !q.Settled();
    }
  }

  lemma OtherItemDecides(items: seq<Item>, it: Item, o: nat, d: Point)
    requires DefaultRight(items, o, d) && !IsDecisive(it, d.id)
    ensures DefaultRight(items + [it], o, d)
  {
    if d.Settled() { FirstStays(items, it, o, d); }
  }

  lemma DefaultStep(log: seq<Item>, it: Item, points: seq<Point>, o: nat, k: nat)
    requires k < |points| && IndexOf(points, points[k].id) == k && DefaultRight(log, o, points[k])
    requires o < |log| && WellFormed(it)
    ensures var later := Replayed(points, it, DefaultRules); k < |later| && DefaultRight(log + [it], o, later[k])
  {
    var d := points[k];
    if it.flow == "" && it.event.Some? && !it.event.value.OpenPoint? && it.event.value.point == d.id {
      if d.Settled() { FirstStays(log, it, o, d); } else { EventDecides(log, it, o, d, it.event.value); }
    } else {
      OtherItemDecides(log, it, o, d);
    }
  }

  /**
   * Under the default policy, over any log of unique ids, a point is decided exactly when a decided ruling on it follows
   * its opening, on the option, by the writer and at the time of the first one; no ratification is ever awaited.
   */
  lemma {:induction false} DefaultPointsAreRight(items: seq<Item>, k: nat)
    requires WellFormedLog(items) && UniqueIds(items) && k < |Replay(items, DefaultRules)|
    ensures k < |Openers(items)| && DefaultRight(items, Openers(items)[k], Replay(items, DefaultRules)[k])
  {
    var n := |items| - 1;
    var log, it := items[..n], items[n];
    assert items == log + [it];
    OpenersAre(log, DefaultRules);
    var before := Replay(log, DefaultRules);
    if k < |before| {
      DefaultPointsAreRight(log, k);
      FoundUnderItsId(log, k, DefaultRules);
      DefaultStep(log, it, before, Openers(log)[k], k);
    }
  }
}
