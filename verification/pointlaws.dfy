// Decision points under the policy of the platform, from the events of their log by their positions: what decides them,
// what is pending, how many rounds failed, which questions are open (contracts/domain/decision.go and
// contracts/decision/decision.go).
module PointLaws {
  import opened Prelude
  import opened Decisions
  import opened DecisionLaws

  // ---- one point of a log

  // A point after an item of the log.
  ghost function AfterItem(d: Point, it: Item, rules: Rules): Point {
    if it.flow == "" && it.event.Some? && !it.event.value.OpenPoint? && it.event.value.point == d.id
    then PointAfter(d, it, it.event.value, rules) else d
  }

  // The point an item opened, after the first items of the log.
  ghost function PointOf(items: seq<Item>, o: nat, n: nat, rules: Rules): Point
    requires o < n <= |items| && IsOpening(items[o])
  {
    if n == o + 1 then Opened(items[o], items[o].event.value) else AfterItem(PointOf(items, o, n - 1, rules), items[n - 1], rules)
  }

  lemma ReplayPrefix(items: seq<Item>, n: nat, rules: Rules)
    requires n < |items|
    ensures Replay(items[..n + 1], rules) == Replayed(Replay(items[..n], rules), items[n], rules)
  {
    assert items[..n + 1][..n] == items[..n];
  }

  lemma OpenersPrefix(items: seq<Item>, n: nat)
    requires n < |items|
    ensures Openers(items[..n + 1]) == if IsOpening(items[n]) then Openers(items[..n]) + [n] else Openers(items[..n])
  {
    assert items[..n + 1][..n] == items[..n];
  }

  lemma {:induction false} OpenersOpen(items: seq<Item>, n: nat, k: nat)
    requires n <= |items| && k < |Openers(items[..n])|
    ensures Openers(items[..n])[k] < n && IsOpening(items[Openers(items[..n])[k]])
  {
    NothingYet(items, DefaultRules);
    if n > 0 {
      OpenersPrefix(items, n - 1);
      if k < |Openers(items[..n - 1])| { OpenersOpen(items, n - 1, k); }
    }
  }

  lemma NothingYet(items: seq<Item>, rules: Rules)
    ensures Openers(items[..0]) == [] && Replay(items[..0], rules) == []
  {
  }

  lemma UniquePrefix(items: seq<Item>, n: nat)
    requires UniqueIds(items) && n <= |items|
    ensures UniqueIds(items[..n])
  {
  }

  /** The points of a log of unique ids, each the replay of what follows its own opening. */
  lemma {:induction false} ReplayIsPoints(items: seq<Item>, n: nat, k: nat, rules: Rules)
    requires UniqueIds(items) && n <= |items| && k < |Replay(items[..n], rules)|
    ensures k < |Openers(items[..n])| && Openers(items[..n])[k] < n && IsOpening(items[Openers(items[..n])[k]])
    ensures Replay(items[..n], rules)[k] == PointOf(items, Openers(items[..n])[k], n, rules)
    decreases n
  {
    NothingYet(items, rules);
    var last: nat := n - 1;
    OpenersAre(items[..n], rules);
    OpenersAre(items[..last], rules);
    OpenersOpen(items, n, k);
    ReplayPrefix(items, last, rules);
    OpenersPrefix(items, last);
    var before := Replay(items[..last], rules);
    if k < |before| {
      ReplayIsPoints(items, last, k, rules);
      UniquePrefix(items, last);
      FoundUnderItsId(items[..last], k, rules);
      ItemOnPoint(before, items[last], k, rules);
    }
  }

  lemma ItemOnPoint(points: seq<Point>, it: Item, k: nat, rules: Rules)
    requires k < |points| && IndexOf(points, points[k].id) == k
    ensures k < |Replayed(points, it, rules)| && Replayed(points, it, rules)[k] == AfterItem(points[k], it, rules)
  {
  }

  // ---- the events about a point

  predicate About(items: seq<Item>, o: nat, j: nat)
    requires o < |items| && j < |items|
  {
    items[j].flow == "" && items[j].event.Some? && !items[j].event.value.OpenPoint? && items[j].event.value.point == items[o].id
  }

  predicate RulesAt(items: seq<Item>, o: nat, j: nat)
    requires o < |items| && j < |items|
  {
    About(items, o, j) && items[j].event.value.RulePoint?
  }

  predicate RatifiesAt(items: seq<Item>, o: nat, j: nat)
    requires o < |items| && j < |items|
  {
    About(items, o, j) && items[j].event.value.RatifyPoint?
  }

  function PolicyAt(items: seq<Item>, o: nat): Policy
    requires o < |items| && IsOpening(items[o])
  {
    items[o].event.value.policy
  }

  // ---- what never changes of a point

  // A point as it was opened, but for what its events make of it.
  ghost predicate OpenedAs(d: Point, it: Item)
    requires IsOpening(it)
  {
    var e := it.event.value;
    d.id == it.id && d.question == e.question && d.options == e.options && d.criteria == e.criteria && d.openedAt == it.at &&
    d.openedBy == e.writer && d.policy == e.policy.(rounds := d.policy.rounds, votes := d.policy.votes)
  }

  lemma PolicyKeeps(d: Point, e: Event, rules: Rules)
    ensures var q := PolicyFolded(d, e, rules).0;
            q.policy == d.policy.(rounds := q.policy.rounds, votes := q.policy.votes) && q == d.(policy := q.policy, ruling := q.ruling)
  {
  }

  lemma EventKeeps(d: Point, it: Item, e: Event, rules: Rules)
    ensures var q := PointAfter(d, it, e, rules);
            q.policy == d.policy.(rounds := q.policy.rounds, votes := q.policy.votes) && q.id == d.id && q.question == d.question &&
            q.options == d.options && q.criteria == d.criteria && q.openedAt == d.openedAt && q.openedBy == d.openedBy
  {
    PolicyKeeps(d, e, rules);
    if e.RulePoint? { PolicyKeeps(d.(ruling := Some(RulingOf(it, e))), e, rules); }
  }

  /** A point keeps what it was opened with, whatever follows: question, options, criteria, policy but votes and rounds. */
  lemma {:induction false} PointKeepsItsOpening(items: seq<Item>, o: nat, n: nat, rules: Rules)
    requires o < n <= |items| && IsOpening(items[o])
    ensures OpenedAs(PointOf(items, o, n, rules), items[o])
    decreases n
  {
    if n > o + 1 {
      PointKeepsItsOpening(items, o, n - 1, rules);
      if About(items, o, n - 1) { EventKeeps(PointOf(items, o, n - 1, rules), items[n - 1], items[n - 1].event.value, rules); }
    }
  }

  // ---- a point with no board

  // A decided ruling is pending: nobody ruled or ratified since.
  predicate PendingBy(items: seq<Item>, o: nat, n: nat, p: nat)
    requires o < |items| && n <= |items|
  {
    o < p < n && RulesAt(items, o, p) && items[p].event.value.outcome == Decided &&
    forall m :: p < m < n ==> !RulesAt(items, o, m) && !RatifiesAt(items, o, m)
  }

  // A ruling that settles by itself: of a person, or of an agent as sure as the threshold.
  predicate SureAt(items: seq<Item>, o: nat, j: nat)
    requires o < |items| && IsOpening(items[o]) && j < |items|
  {
    RulesAt(items, o, j) && items[j].event.value.outcome != Undecidable &&
    (items[j].event.value.human || items[j].event.value.confidence >= PolicyAt(items, o).threshold)
  }

  // A ratification accepts the ruling that is pending.
  predicate AcceptsAt(items: seq<Item>, o: nat, j: nat, p: nat)
    requires o < |items| && j < |items|
  {
    RatifiesAt(items, o, j) && items[j].event.value.accept && PendingBy(items, o, j, p)
  }

  // The ruling of an item, as it is kept.
  predicate IsRuling(r: Ruling, it: Item) {
    it.event.Some? && it.event.value.RulePoint? &&
    var e := it.event.value;
    r.outcome == e.outcome && r.option == e.option && r.confidence == e.confidence && r.justification == e.justification &&
    r.writer == e.writer && r.human == e.human && r.role == e.role && r.at == it.at
  }

  // A ruling that another item ratified: a decision of a person, then.
  predicate IsRatified(r: Ruling, ruled: Item, it: Item) {
    ruled.event.Some? && ruled.event.value.RulePoint? && it.event.Some? && it.event.value.RatifyPoint? &&
    var e := ruled.event.value;
    r.outcome == Decided && r.option == e.option && r.confidence == e.confidence && r.justification == e.justification &&
    r.writer == it.event.value.writer && r.human && r.role == "" && r.at == it.at
  }

  ghost predicate LoneDecisive(items: seq<Item>, o: nat, j: nat)
    requires o < |items| && IsOpening(items[o]) && j < |items|
  {
    SureAt(items, o, j) || exists p: nat :: AcceptsAt(items, o, j, p)
  }

  // The point is decided by an item: on the option it rules, or on that of the ruling it accepts.
  ghost predicate LoneDecidedBy(items: seq<Item>, o: nat, j: nat, d: Point)
    requires o < |items| && IsOpening(items[o]) && j < |items|
  {
    items[j].event.Some? && !items[j].event.value.OpenPoint? && d.decidedBy == items[j].event.value.writer && d.decidedAt == items[j].at &&
    d.ruling.Some? && d.option == d.ruling.value.option &&
    ((SureAt(items, o, j) && IsRuling(d.ruling.value, items[j])) ||
     exists p: nat :: AcceptsAt(items, o, j, p) && IsRatified(d.ruling.value, items[p], items[j]))
  }

  ghost predicate FirstDecisive(items: seq<Item>, o: nat, j: nat, n: nat, d: Point)
    requires o < |items| && IsOpening(items[o]) && n <= |items|
  {
    o < j < n && LoneDecisive(items, o, j) && LoneDecidedBy(items, o, j, d) && forall m :: o < m < j ==> !LoneDecisive(items, o, m)
  }

  // The ruling a point keeps is pending exactly when the log says so, and is the one of the log.
  ghost predicate PendingSays(items: seq<Item>, o: nat, n: nat, d: Point)
    requires o < |items| && n <= |items|
  {
    (d.ruling.Some? && d.ruling.value.outcome == Decided <==> exists p: nat :: PendingBy(items, o, n, p)) &&
    forall p: nat :: PendingBy(items, o, n, p) ==> d.ruling.Some? && IsRuling(d.ruling.value, items[p])
  }

  ghost predicate LoneSays(items: seq<Item>, o: nat, n: nat, d: Point)
    requires o < |items| && IsOpening(items[o]) && n <= |items|
  {
    if d.Settled() then exists j: nat :: FirstDecisive(items, o, j, n, d)
    else (forall m :: o < m < n ==> !LoneDecisive(items, o, m)) && PendingSays(items, o, n, d)
  }

  lemma PendingOneMore(items: seq<Item>, o: nat, n: nat, p: nat)
    requires o < n < |items|
    ensures PendingBy(items, o, n + 1, p) <==>
            if RulesAt(items, o, n) then p == n && items[n].event.value.outcome == Decided
            else PendingBy(items, o, n, p) && !RatifiesAt(items, o, n)
  {
  }

  lemma SettledSays(items: seq<Item>, o: nat, n: nat, d: Point)
    requires o < n < |items| && IsOpening(items[o]) && d.Settled() && LoneSays(items, o, n, d)
    ensures LoneSays(items, o, n + 1, d)
  {
    var j: nat :| FirstDecisive(items, o, j, n, d);
    assert FirstDecisive(items, o, j, n + 1, d);
  }

  // An item that neither rules nor ratifies leaves the ruling as it is.
  lemma QuietSays(items: seq<Item>, o: nat, n: nat, d: Point, q: Point)
    requires o < n < |items| && IsOpening(items[o]) && !d.Settled() && LoneSays(items, o, n, d)
    requires !RulesAt(items, o, n) && !RatifiesAt(items, o, n) && q.ruling == d.ruling && !q.Settled()
    ensures LoneSays(items, o, n + 1, q)
  {
    forall p: nat { PendingOneMore(items, o, n, p); }
    assert !LoneDecisive(items, o, n);
  }

  lemma DecisiveSays(items: seq<Item>, o: nat, n: nat, d: Point, q: Point)
    requires o < n < |items| && IsOpening(items[o]) && !d.Settled() && LoneSays(items, o, n, d)
    requires q.Settled() && LoneDecisive(items, o, n) && LoneDecidedBy(items, o, n, q)
    ensures LoneSays(items, o, n + 1, q)
  {
    assert FirstDecisive(items, o, n, n + 1, q);
  }

  // A ruling or a ratification that does not settle: what is pending from then on is what the point keeps.
  lemma UnsettlingSays(items: seq<Item>, o: nat, n: nat, d: Point, q: Point)
    requires o < n < |items| && IsOpening(items[o]) && !d.Settled() && LoneSays(items, o, n, d)
    requires !q.Settled() && !LoneDecisive(items, o, n) && PendingSays(items, o, n + 1, q)
    ensures LoneSays(items, o, n + 1, q)
  {
  }

  // A lone point under an event, as the platform's policy has it.
  ghost predicate Lone(d: Point, pol: Policy) { d.policy.board == [] && d.policy.threshold == pol.threshold }

  lemma LoneRuling(items: seq<Item>, o: nat, n: nat, d: Point)
    requires o < n < |items| && IsOpening(items[o]) && !d.Settled() && d.id == items[o].id && Lone(d, PolicyAt(items, o))
    requires LoneSays(items, o, n, d) && RulesAt(items, o, n) && items[n].at != 0
    ensures LoneSays(items, o, n + 1, PointAfter(d, items[n], items[n].event.value))
  {
    var e := items[n].event.value;
    var q := PointAfter(d, items[n], e);
    LoneRuled(d, items[n], e);
    if SureAt(items, o, n) {
      DecisiveSays(items, o, n, d, q);
    } else {
      forall p: nat { PendingOneMore(items, o, n, p); }
      UnsettlingSays(items, o, n, d, q);
    }
  }

  // What a ruling makes of a point with no board.
  lemma LoneRuled(d: Point, it: Item, e: Event)
    requires !d.Settled() && d.policy.board == [] && e.RulePoint? && it.at != 0
    ensures var q := PointAfter(d, it, e);
            var sure := e.outcome != Undecidable && (e.human || e.confidence >= d.policy.threshold);
            q.ruling == Some(RulingOf(it, e)) && (q.Settled() <==> sure) &&
            (sure ==> q.option == e.option && q.decidedBy == e.writer && q.decidedAt == it.at)
  {
  }

  lemma LoneRatified(d: Point, it: Item, e: Event)
    requires !d.Settled() && d.policy.board == [] && e.RatifyPoint? && it.at != 0
    ensures var q := PointAfter(d, it, e);
            var pending := d.ruling.Some? && d.ruling.value.outcome == Decided;
            (q.Settled() <==> pending && e.accept) &&
            (q.Settled() ==>
              q.option == d.ruling.value.option && q.decidedBy == e.writer && q.decidedAt == it.at &&
              q.ruling == Some(d.ruling.value.(outcome := Decided, writer := e.writer, human := true, role := "", at := it.at))) &&
            (!q.Settled() ==> q.ruling == if pending then None else d.ruling)
  {
  }

  lemma LoneRatification(items: seq<Item>, o: nat, n: nat, d: Point)
    requires o < n < |items| && IsOpening(items[o]) && !d.Settled() && d.id == items[o].id && Lone(d, PolicyAt(items, o))
    requires LoneSays(items, o, n, d) && RatifiesAt(items, o, n) && items[n].at != 0
    ensures LoneSays(items, o, n + 1, PointAfter(d, items[n], items[n].event.value))
  {
    var e := items[n].event.value;
    var q := PointAfter(d, items[n], e);
    LoneRatified(d, items[n], e);
    if q.Settled() {
      var p: nat :| PendingBy(items, o, n, p);
      assert AcceptsAt(items, o, n, p);
      DecisiveSays(items, o, n, d, q);
    } else {
      forall p: nat { PendingOneMore(items, o, n, p); }
      assert !LoneDecisive(items, o, n);
      UnsettlingSays(items, o, n, d, q);
    }
  }

  lemma OtherKeepsRuling(d: Point, it: Item, e: Event)
    requires !d.Settled() && !e.RulePoint? && !e.RatifyPoint?
    ensures var q := PointAfter(d, it, e); q.ruling == d.ruling && !q.Settled()
  {
  }

  lemma LoneStep(items: seq<Item>, o: nat, n: nat, d: Point)
    requires o < n < |items| && IsOpening(items[o]) && d.id == items[o].id && Lone(d, PolicyAt(items, o))
    requires LoneSays(items, o, n, d) && items[n].at != 0
    ensures LoneSays(items, o, n + 1, AfterItem(d, items[n], PlatformRules))
  {
    if d.Settled() {
      SettledSays(items, o, n, d);
    } else if RulesAt(items, o, n) {
      LoneRuling(items, o, n, d);
    } else if RatifiesAt(items, o, n) {
      LoneRatification(items, o, n, d);
    } else {
      if About(items, o, n) { OtherKeepsRuling(d, items[n], items[n].event.value); }
      QuietSays(items, o, n, d, AfterItem(d, items[n], PlatformRules));
    }
  }

  lemma {:induction false} LonePointSays(items: seq<Item>, o: nat, n: nat)
    requires o < n <= |items| && IsOpening(items[o]) && PolicyAt(items, o).board == [] && WellFormedLog(items)
    ensures LoneSays(items, o, n, PointOf(items, o, n, PlatformRules))
    decreases n
  {
    if n > o + 1 {
      var last: nat := n - 1;
      LonePointSays(items, o, last);
      PointKeepsItsOpening(items, o, last, PlatformRules);
      assert WellFormed(items[last]);
      LoneStep(items, o, last, PointOf(items, o, last, PlatformRules));
    }
  }

  /**
   * Under the policy of the platform, over any log of unique ids, a point with no board is decided if and only if, since its
   * opening, a person ruled, or an agent at or above the threshold, or a ratification accepted the decided ruling that was
   * pending: by the first of these, on its option, by its writer and at its time.
   */
  lemma LonePointsAreRight(items: seq<Item>, k: nat)
    requires WellFormedLog(items) && UniqueIds(items) && k < |Replay(items)|
    requires Replay(items)[k].policy.board == []
    ensures k < |Openers(items)| && Openers(items)[k] < |items| && IsOpening(items[Openers(items)[k]])
    ensures LoneSays(items, Openers(items)[k], |items|, Replay(items)[k])
  {
    WholePrefix(items);
    ReplayIsPoints(items, |items|, k, PlatformRules);
    PointKeepsItsOpening(items, Openers(items)[k], |items|, PlatformRules);
    LonePointSays(items, Openers(items)[k], |items|);
  }

  // ---- the votes of a board

  // A decided ruling in a seat.
  predicate CastAt(items: seq<Item>, o: nat, j: nat, role: string)
    requires o < |items| && j < |items|
  {
    RulesAt(items, o, j) && items[j].event.value.outcome == Decided && items[j].event.value.role == role
  }

  ghost predicate HasCast(items: seq<Item>, o: nat, n: nat, role: string)
    requires o < |items| && n <= |items|
  {
    exists j: nat :: o < j < n && CastAt(items, o, j, role)
  }

  // The first ruling in a seat that names an option.
  predicate FirstOption(items: seq<Item>, o: nat, n: nat, role: string, j: nat)
    requires o < |items| && n <= |items|
  {
    o < j < n && CastAt(items, o, j, role) && items[j].event.value.option != "" &&
    forall m :: o < m < j && CastAt(items, o, m, role) ==> items[m].event.value.option == ""
  }

  // The vote of a seat: what its first ruling that names an option says, nothing before.
  ghost predicate VoteSays(items: seq<Item>, o: nat, n: nat, role: string, votes: map<string, string>)
    requires o < |items| && IsOpening(items[o]) && n <= |items|
  {
    (role in votes <==> role in PolicyAt(items, o).board && HasCast(items, o, n, role)) &&
    (role in votes ==>
      (forall j: nat :: FirstOption(items, o, n, role, j) ==> votes[role] == items[j].event.value.option) &&
      ((forall j: nat :: !FirstOption(items, o, n, role, j)) ==> votes[role] == ""))
  }

  ghost predicate VotesSay(items: seq<Item>, o: nat, n: nat, votes: map<string, string>)
    requires o < |items| && IsOpening(items[o]) && n <= |items|
  {
    forall role :: VoteSays(items, o, n, role, votes)
  }

  // Every seat ruled.
  ghost predicate FullAt(items: seq<Item>, o: nat, n: nat)
    requires o < |items| && IsOpening(items[o]) && n <= |items|
  {
    forall role :: role in PolicyAt(items, o).board ==> HasCast(items, o, n, role)
  }

  // The chair ruled on a board whose seats all had.
  ghost predicate ChairRules(items: seq<Item>, o: nat, j: nat)
    requires o < |items| && IsOpening(items[o]) && j < |items|
  {
    PolicyAt(items, o).chair != "" && CastAt(items, o, j, PolicyAt(items, o).chair) && FullAt(items, o, j)
  }

  // ---- a majority, counted

  function SeatsFor(board: seq<string>, votes: map<string, string>, option: string): set<nat> {
    set i: nat | i < |board| && board[i] in votes && votes[board[i]] == option
  }

  lemma {:induction false} CountIs(board: seq<string>, votes: map<string, string>, option: string)
    requires option != ""
    ensures Count(board, votes, option) == |SeatsFor(board, votes, option)|
  {
    if board != [] {
      var n := |board| - 1;
      CountIs(board[..n], votes, option);
      var before := SeatsFor(board[..n], votes, option);
      assert SeatsFor(board, votes, option) == before + if board[n] in votes && votes[board[n]] == option then {n} else {};
      assert n !in before;
    }
  }

  lemma {:induction false} NobodyForNothing(board: seq<string>, votes: map<string, string>)
    ensures Count(board, votes, "") == 0
  {
    if board != [] { NobodyForNothing(board[..|board| - 1], votes); }
  }

  /** An option carries a board when more than half of the seats ruled it, and it is not to abstain. */
  lemma MajorityIsCounted(board: seq<string>, votes: map<string, string>, option: string)
    ensures Carries(board, votes, option) <==>
            option != "" && option != "abstain" && 2 * |SeatsFor(board, votes, option)| > |board|
  {
    if option == "" { NobodyForNothing(board, votes); } else { CountIs(board, votes, option); }
  }

  // The votes of a board settle on an option, the last of them being for some.
  ghost predicate VotesSettle(pol: Policy, votes: map<string, string>, last: string, option: string) {
    match pol.rule
    case Unanimity =>
      if last != "go" then option == last
      else option == "go" && forall role :: role in pol.board ==> role in votes && votes[role] == "go"
    case Majority => option != "" && option != "abstain" && 2 * |SeatsFor(pol.board, votes, option)| > |pol.board|
    case Consent =>
      if last == "no_go" then option == "no_go"
      else option == "go" && forall role :: role in pol.board ==> role in votes
  }

  lemma VotesOnSeats(board: seq<string>, votes: map<string, string>)
    requires DistinctSeats(board) && votes.Keys <= Seats(board)
    ensures |votes| >= |board| <==> forall role :: role in board ==> role in votes
  {
    SeatsSize(board);
    assert |votes| == |votes.Keys|;
    if |votes| >= |board| { SmallerSet(votes.Keys, Seats(board)); }
    if forall role :: role in board ==> role in votes { assert votes.Keys == Seats(board); }
  }

  /** What the rule of a board makes of a new vote, for each rule. */
  lemma RuleSays(p: Policy, last: string)
    requires DistinctSeats(p.board) && p.votes.Keys <= Seats(p.board)
    ensures RuledBy(p, last).Some? <==> exists option :: VotesSettle(p, p.votes, last, option)
    ensures forall option :: VotesSettle(p, p.votes, last, option) ==> RuledBy(p, last) == Some(option)
  {
    match p.rule {
      case Majority => MajoritySays(p, last);
      case Consent =>
        VotesOnSeats(p.board, p.votes);
        assert VotesSettle(p, p.votes, last, if last == "no_go" then "no_go" else "go") <==> RuledBy(p, last).Some?;
      case Unanimity =>
        CountedAll(p.board, p.votes, OptionGo);
        assert VotesSettle(p, p.votes, last, last) <==> RuledBy(p, last).Some?;
    }
  }

  lemma MajoritySays(p: Policy, last: string)
    requires p.rule == Majority
    ensures RuledBy(p, last).Some? <==> exists option :: VotesSettle(p, p.votes, last, option)
    ensures forall option :: VotesSettle(p, p.votes, last, option) ==> RuledBy(p, last) == Some(option)
  {
    forall option ensures Carries(p.board, p.votes, option) <==> VotesSettle(p, p.votes, last, option) {
      MajorityIsCounted(p.board, p.votes, option);
    }
    forall option | Carries(p.board, p.votes, option) ensures RuledBy(p, last) == Some(option) {
      MajorityIsUnique(p.board, p.votes, option, MajorityOption(p.board, p.votes).value);
    }
  }

  // ---- what decides a point with a board

  // A seat rules that named no option before.
  ghost predicate VotesAt(items: seq<Item>, o: nat, j: nat)
    requires o < |items| && IsOpening(items[o]) && j < |items|
  {
    RulesAt(items, o, j) && items[j].event.value.outcome == Decided && items[j].event.value.role in PolicyAt(items, o).board &&
    forall m: nat :: !FirstOption(items, o, j, items[j].event.value.role, m)
  }

  // The votes once a seat ruled settle on an option.
  ghost predicate VoteDecides(items: seq<Item>, o: nat, j: nat, votes: map<string, string>, option: string)
    requires o < |items| && IsOpening(items[o]) && j < |items|
  {
    VotesAt(items, o, j) && !ChairRules(items, o, j) && VotesSay(items, o, j + 1, votes) &&
    VotesSettle(PolicyAt(items, o), votes, items[j].event.value.option, option)
  }

  // A ruling that is neither decided nor undecidable, which the graph refuses, settles by who made it.
  predicate OddAt(items: seq<Item>, o: nat, j: nat)
    requires o < |items| && IsOpening(items[o]) && j < |items|
  {
    SureAt(items, o, j) && items[j].event.value.outcome != Decided
  }

  ghost predicate BoardDecisive(items: seq<Item>, o: nat, j: nat)
    requires o < |items| && IsOpening(items[o]) && j < |items|
  {
    ChairRules(items, o, j) || OddAt(items, o, j) || exists votes, option :: VoteDecides(items, o, j, votes, option)
  }

  ghost predicate BoardDecidedBy(items: seq<Item>, o: nat, j: nat, d: Point)
    requires o < |items| && IsOpening(items[o]) && j < |items|
  {
    RulesAt(items, o, j) && d.decidedBy == items[j].event.value.writer && d.decidedAt == items[j].at &&
    d.ruling.Some? && d.ruling.value.option == d.option && IsRuling(d.ruling.value.(option := items[j].event.value.option), items[j]) &&
    if ChairRules(items, o, j) || OddAt(items, o, j) then d.option == items[j].event.value.option
    else exists votes :: VoteDecides(items, o, j, votes, d.option)
  }

  ghost predicate FirstBoardDecisive(items: seq<Item>, o: nat, j: nat, n: nat, d: Point)
    requires o < |items| && IsOpening(items[o]) && n <= |items|
  {
    o < j < n && BoardDecisive(items, o, j) && BoardDecidedBy(items, o, j, d) && forall m :: o < m < j ==> !BoardDecisive(items, o, m)
  }

  ghost predicate BoardSays(items: seq<Item>, o: nat, n: nat, d: Point)
    requires o < |items| && IsOpening(items[o]) && n <= |items|
  {
    if d.Settled() then exists j: nat :: FirstBoardDecisive(items, o, j, n, d)
    else (forall m :: o < m < n ==> !BoardDecisive(items, o, m)) && VotesSay(items, o, n, d.policy.votes) &&
         (d.ruling.Some? ==> d.ruling.value.outcome != Decided)
  }

  lemma CastsOneMore(items: seq<Item>, o: nat, n: nat, next: nat, role: string)
    requires o < n < |items| && next == n + 1
    ensures HasCast(items, o, next, role) <==> HasCast(items, o, n, role) || CastAt(items, o, n, role)
  {
    if j: nat :| o < j < n && CastAt(items, o, j, role) { assert o < j < next; }
  }

  // The first ruling in a seat that names an option is one of before, or the new one when there was none.
  lemma OptionOneMore(items: seq<Item>, o: nat, n: nat, next: nat, role: string, j: nat)
    requires o < n < |items| && next == n + 1
    ensures FirstOption(items, o, next, role, j) <==>
              FirstOption(items, o, n, role, j) ||
              (j == n && CastAt(items, o, n, role) && items[n].event.value.option != "" && forall m: nat :: !FirstOption(items, o, n, role, m))
  {
    if j == n {
      FirstOrNone(items, o, n, role);
      if m: nat :| FirstOption(items, o, n, role, m) { assert items[m].event.value.option != ""; }
    }
  }

  // A seat named no option, or there is a first ruling in it that did.
  lemma {:induction false} FirstOrNone(items: seq<Item>, o: nat, n: nat, role: string)
    requires o < n <= |items|
    ensures (exists j: nat :: FirstOption(items, o, n, role, j)) ||
            forall m :: o < m < n && CastAt(items, o, m, role) ==> items[m].event.value.option == ""
    decreases n
  {
    if n > o + 1 {
      var last: nat := n - 1;
      FirstOrNone(items, o, last, role);
      if j: nat :| FirstOption(items, o, last, role, j) {
        assert FirstOption(items, o, n, role, j);
      } else if CastAt(items, o, last, role) && items[last].event.value.option != "" {
        assert FirstOption(items, o, n, role, last);
      }
    }
  }

  // A vote says what the seat ruled from then on.
  lemma NewVote(items: seq<Item>, o: nat, n: nat, next: nat, votes: map<string, string>, role: string)
    requires o < n < |items| && next == n + 1 && IsOpening(items[o]) && VoteSays(items, o, n, role, votes) && VotesAt(items, o, n)
    ensures VoteSays(items, o, next, role, votes[items[n].event.value.role := items[n].event.value.option])
  {
    CastsOneMore(items, o, n, next, role);
    forall j: nat { OptionOneMore(items, o, n, next, role, j); }
    assert role == items[n].event.value.role && items[n].event.value.option != "" ==> FirstOption(items, o, next, role, n);
  }

  lemma VoteCounts(items: seq<Item>, o: nat, n: nat, votes: map<string, string>)
    requires o < n < |items| && IsOpening(items[o]) && VotesSay(items, o, n, votes) && VotesAt(items, o, n)
    ensures VotesSay(items, o, n + 1, votes[items[n].event.value.role := items[n].event.value.option])
  {
    var e, next := items[n].event.value, n + 1;
    var voted := votes[e.role := e.option];
    forall role ensures VoteSays(items, o, next, role, voted) {
      assert VoteSays(items, o, n, role, votes);
      NewVote(items, o, n, next, votes, role);
    }
  }

  // Any other item leaves the votes.
  lemma OldVote(items: seq<Item>, o: nat, n: nat, next: nat, votes: map<string, string>, role: string)
    requires o < n < |items| && next == n + 1 && IsOpening(items[o]) && VoteSays(items, o, n, role, votes) && !VotesAt(items, o, n)
    ensures VoteSays(items, o, next, role, votes)
  {
    CastsOneMore(items, o, n, next, role);
    forall j: nat { OptionOneMore(items, o, n, next, role, j); }
    if CastAt(items, o, n, role) && role in PolicyAt(items, o).board {
      var m: nat :| FirstOption(items, o, n, role, m);
      assert FirstOption(items, o, next, role, m);
    }
  }

  lemma VotesStay(items: seq<Item>, o: nat, n: nat, votes: map<string, string>)
    requires o < n < |items| && IsOpening(items[o]) && VotesSay(items, o, n, votes) && !VotesAt(items, o, n)
    ensures VotesSay(items, o, n + 1, votes)
  {
    var next := n + 1;
    forall role ensures VoteSays(items, o, next, role, votes) {
      assert VoteSays(items, o, n, role, votes);
      OldVote(items, o, n, next, votes, role);
    }
  }

  lemma VotesAreSeats(items: seq<Item>, o: nat, n: nat, votes: map<string, string>)
    requires o < n <= |items| && IsOpening(items[o]) && DistinctSeats(PolicyAt(items, o).board) && VotesSay(items, o, n, votes)
    ensures votes.Keys <= Seats(PolicyAt(items, o).board)
    ensures |votes| >= |PolicyAt(items, o).board| <==> FullAt(items, o, n)
  {
    var board := PolicyAt(items, o).board;
    forall role | role in votes ensures role in Seats(board) { assert VoteSays(items, o, n, role, votes); }
    VotesOnSeats(board, votes);
    forall role | role in board ensures role in votes <==> HasCast(items, o, n, role) { assert VoteSays(items, o, n, role, votes); }
  }

  lemma VotedIs(items: seq<Item>, o: nat, n: nat, votes: map<string, string>, role: string)
    requires o < n <= |items| && IsOpening(items[o]) && VotesSay(items, o, n, votes) && role in PolicyAt(items, o).board
    ensures role in votes && votes[role] != "" <==> exists j: nat :: FirstOption(items, o, n, role, j)
  {
    assert VoteSays(items, o, n, role, votes);
    if j: nat :| FirstOption(items, o, n, role, j) { assert HasCast(items, o, n, role); }
  }

  // The votes of a log are one map.
  lemma VotesAreOne(items: seq<Item>, o: nat, n: nat, a: map<string, string>, b: map<string, string>)
    requires o < n <= |items| && IsOpening(items[o]) && VotesSay(items, o, n, a) && VotesSay(items, o, n, b)
    ensures a == b
  {
    forall role ensures Lookup(a, role) == Lookup(b, role) {
      assert VoteSays(items, o, n, role, a) && VoteSays(items, o, n, role, b);
    }
    SameLookups(a, b);
  }

  // ---- one item more

  // A ruling of a board: the policy after it, and the option it settles on if it does.
  lemma BoardRuledPoint(d: Point, it: Item, e: Event)
    requires !d.Settled() && d.policy.board != [] && e.RulePoint? && e.outcome == Decided && it.at != 0
    ensures var (p, option) := BoardRuled(d.policy, e);
            var q := PointAfter(d, it, e);
            q.policy == p &&
            if option.Some? then q.Settled() && q.option == option.value && q.decidedBy == e.writer && q.decidedAt == it.at &&
                                 q.ruling == Some(RulingOf(it, e).(option := option.value))
            else !q.Settled() && q.ruling == None
  {
  }

  // An event that is no decided ruling leaves the votes of a board, and settles only as an odd one does.
  lemma BoardOther(d: Point, it: Item, e: Event)
    requires !d.Settled() && d.policy.board != [] && it.at != 0 && (d.ruling.Some? ==> d.ruling.value.outcome != Decided)
    requires e.RulePoint? ==> e.outcome != Decided
    ensures var q := PointAfter(d, it, e);
            var odd := e.RulePoint? && e.outcome == OtherOutcome && (e.human || e.confidence >= d.policy.threshold);
            q.policy.votes == d.policy.votes && (q.Settled() <==> odd) && (q.ruling.Some? ==> q.ruling.value.outcome != Decided) &&
            (odd ==> q.option == e.option && q.decidedBy == e.writer && q.decidedAt == it.at && q.ruling == Some(RulingOf(it, e)))
  {
  }

  lemma BoardSettledSays(items: seq<Item>, o: nat, n: nat, d: Point)
    requires o < n < |items| && IsOpening(items[o]) && d.Settled() && BoardSays(items, o, n, d)
    ensures BoardSays(items, o, n + 1, d)
  {
    var j: nat :| FirstBoardDecisive(items, o, j, n, d);
    assert FirstBoardDecisive(items, o, j, n + 1, d);
  }

  lemma BoardDecidesSays(items: seq<Item>, o: nat, n: nat, d: Point, q: Point)
    requires o < n < |items| && IsOpening(items[o]) && !d.Settled() && BoardSays(items, o, n, d)
    requires q.Settled() && BoardDecisive(items, o, n) && BoardDecidedBy(items, o, n, q)
    ensures BoardSays(items, o, n + 1, q)
  {
    assert FirstBoardDecisive(items, o, n, n + 1, q);
  }

  lemma BoardGoesOnSays(items: seq<Item>, o: nat, n: nat, d: Point, q: Point)
    requires o < n < |items| && IsOpening(items[o]) && !d.Settled() && BoardSays(items, o, n, d)
    requires !q.Settled() && !BoardDecisive(items, o, n) && VotesSay(items, o, n + 1, q.policy.votes)
    requires q.ruling.Some? ==> q.ruling.value.outcome != Decided
    ensures BoardSays(items, o, n + 1, q)
  {
  }

  // A point whose board has distinct seats, under the policy it was opened with.
  ghost predicate OnBoard(d: Point, it: Item)
    requires IsOpening(it)
  {
    OpenedAs(d, it) && d.policy.board != [] && DistinctSeats(d.policy.board)
  }

  lemma BoardQuiet(items: seq<Item>, o: nat, n: nat, d: Point)
    requires o < n < |items| && IsOpening(items[o]) && !d.Settled() && OnBoard(d, items[o]) && BoardSays(items, o, n, d)
    requires !(RulesAt(items, o, n) && items[n].event.value.outcome == Decided) && items[n].at != 0
    ensures BoardSays(items, o, n + 1, AfterItem(d, items[n], PlatformRules))
  {
    var q := AfterItem(d, items[n], PlatformRules);
    VotesStay(items, o, n, d.policy.votes);
    if About(items, o, n) { BoardOther(d, items[n], items[n].event.value); }
    if OddAt(items, o, n) {
      BoardDecidesSays(items, o, n, d, q);
    } else {
      BoardGoesOnSays(items, o, n, d, q);
    }
  }

  lemma ChairSays(items: seq<Item>, o: nat, n: nat, d: Point)
    requires o < n < |items| && IsOpening(items[o]) && !d.Settled() && OnBoard(d, items[o]) && BoardSays(items, o, n, d)
    requires ChairRules(items, o, n) && items[n].at != 0
    ensures BoardSays(items, o, n + 1, AfterItem(d, items[n], PlatformRules))
  {
    VotesAreSeats(items, o, n, d.policy.votes);
    BoardRuledPoint(d, items[n], items[n].event.value);
    BoardDecidesSays(items, o, n, d, AfterItem(d, items[n], PlatformRules));
  }

  lemma NewVoteSays(items: seq<Item>, o: nat, n: nat, d: Point)
    requires o < n < |items| && IsOpening(items[o]) && !d.Settled() && OnBoard(d, items[o]) && BoardSays(items, o, n, d)
    requires VotesAt(items, o, n) && !ChairRules(items, o, n) && items[n].at != 0
    ensures BoardSays(items, o, n + 1, AfterItem(d, items[n], PlatformRules))
  {
    var e, q := items[n].event.value, AfterItem(d, items[n], PlatformRules);
    var voted := d.policy.(votes := d.policy.votes[e.role := e.option]);
    VotesAreSeats(items, o, n, d.policy.votes);
    VotedIs(items, o, n, d.policy.votes, e.role);
    VoteCounts(items, o, n, d.policy.votes);
    VotesAreSeats(items, o, n + 1, voted.votes);
    BoardRuledPoint(d, items[n], e);
    VoteSettlesOrNot(items, o, n, d, q, voted);
  }

  lemma VoteSettlesOrNot(items: seq<Item>, o: nat, n: nat, d: Point, q: Point, voted: Policy)
    requires o < n < |items| && IsOpening(items[o]) && !d.Settled() && BoardSays(items, o, n, d)
    requires VotesAt(items, o, n) && !ChairRules(items, o, n) && VotesSay(items, o, n + 1, voted.votes)
    requires voted == PolicyAt(items, o).(votes := voted.votes, rounds := voted.rounds) && DistinctSeats(voted.board)
    requires voted.votes.Keys <= Seats(voted.board)
    requires var e, option := items[n].event.value, RuledBy(voted, items[n].event.value.option);
             q.policy == voted &&
             if option.Some? then q.Settled() && q.option == option.value && q.decidedBy == e.writer && q.decidedAt == items[n].at &&
                                  q.ruling == Some(RulingOf(items[n], e).(option := option.value))
             else !q.Settled() && q.ruling == None
    ensures BoardSays(items, o, n + 1, q)
  {
    var e, option := items[n].event.value, RuledBy(voted, items[n].event.value.option);
    RuleSays(voted, e.option);
    if option.Some? {
      assert VotesSettle(voted, voted.votes, e.option, option.value);
      assert VotesSettle(PolicyAt(items, o), voted.votes, e.option, option.value);
      assert VoteDecides(items, o, n, voted.votes, option.value);
      BoardDecidesSays(items, o, n, d, q);
    } else {
      NoVoteDecides(items, o, n, voted.votes, voted);
      BoardGoesOnSays(items, o, n, d, q);
    }
  }

  lemma NoVoteDecides(items: seq<Item>, o: nat, n: nat, votes: map<string, string>, p: Policy)
    requires o < n < |items| && IsOpening(items[o]) && VotesSay(items, o, n + 1, votes) && !ChairRules(items, o, n) && !OddAt(items, o, n)
    requires p.rule == PolicyAt(items, o).rule && p.board == PolicyAt(items, o).board && p.votes == votes
    requires VotesAt(items, o, n) ==> forall option :: !VotesSettle(p, votes, items[n].event.value.option, option)
    ensures !BoardDecisive(items, o, n)
  {
    forall other, option ensures !VoteDecides(items, o, n, other, option) {
      if VoteDecides(items, o, n, other, option) {
        VotesAreOne(items, o, n + 1, other, votes);
        assert VotesSettle(p, votes, items[n].event.value.option, option);
      }
    }
  }

  lemma IgnoredSays(items: seq<Item>, o: nat, n: nat, d: Point)
    requires o < n < |items| && IsOpening(items[o]) && !d.Settled() && OnBoard(d, items[o]) && BoardSays(items, o, n, d)
    requires RulesAt(items, o, n) && items[n].event.value.outcome == Decided && items[n].at != 0
    requires !VotesAt(items, o, n) && !ChairRules(items, o, n)
    ensures BoardSays(items, o, n + 1, AfterItem(d, items[n], PlatformRules))
  {
    var e := items[n].event.value;
    VotesAreSeats(items, o, n, d.policy.votes);
    if e.role in d.policy.board { VotedIs(items, o, n, d.policy.votes, e.role); }
    VotesStay(items, o, n, d.policy.votes);
    BoardRuledPoint(d, items[n], e);
    BoardGoesOnSays(items, o, n, d, AfterItem(d, items[n], PlatformRules));
  }

  lemma BoardStep(items: seq<Item>, o: nat, n: nat, d: Point)
    requires o < n < |items| && IsOpening(items[o]) && OnBoard(d, items[o]) && BoardSays(items, o, n, d) && items[n].at != 0
    ensures BoardSays(items, o, n + 1, AfterItem(d, items[n], PlatformRules))
  {
    if d.Settled() {
      BoardSettledSays(items, o, n, d);
    } else if !(RulesAt(items, o, n) && items[n].event.value.outcome == Decided) {
      BoardQuiet(items, o, n, d);
    } else if ChairRules(items, o, n) {
      ChairSays(items, o, n, d);
    } else if VotesAt(items, o, n) {
      NewVoteSays(items, o, n, d);
    } else {
      IgnoredSays(items, o, n, d);
    }
  }

  lemma NoVotesYet(items: seq<Item>, o: nat)
    requires o < |items| && IsOpening(items[o])
    ensures VotesSay(items, o, o + 1, map[])
  {
  }

  lemma {:induction false} BoardPointSays(items: seq<Item>, o: nat, n: nat)
    requires o < n <= |items| && IsOpening(items[o]) && WellFormedLog(items)
    requires PolicyAt(items, o).board != [] && DistinctSeats(PolicyAt(items, o).board)
    ensures BoardSays(items, o, n, PointOf(items, o, n, PlatformRules))
    decreases n
  {
    assert WellFormed(items[o]) && WellFormed(items[n - 1]);
    if n == o + 1 {
      NoVotesYet(items, o);
    } else {
      BoardPointSays(items, o, n - 1);
      PointKeepsItsOpening(items, o, n - 1, PlatformRules);
      BoardStep(items, o, n - 1, PointOf(items, o, n - 1, PlatformRules));
    }
  }

  /**
   * Over any log of unique ids, a point whose board has distinct seats is decided if and only if, since its opening, a vote
   * settled its rule on the votes cast, or the chair ruled when every seat had: by the first of these, on its option, by its
   * writer and at its time. Until then its votes are those the seats cast, each seat's first that names an option.
   */
  lemma BoardsAreRight(items: seq<Item>, k: nat)
    requires WellFormedLog(items) && UniqueIds(items) && k < |Replay(items)|
    requires Replay(items)[k].policy.board != [] && DistinctSeats(Replay(items)[k].policy.board)
    ensures k < |Openers(items)| && Openers(items)[k] < |items| && IsOpening(items[Openers(items)[k]])
    ensures BoardSays(items, Openers(items)[k], |items|, Replay(items)[k])
  {
    WholePrefix(items);
    ReplayIsPoints(items, |items|, k, PlatformRules);
    PointKeepsItsOpening(items, Openers(items)[k], |items|, PlatformRules);
    BoardPointSays(items, Openers(items)[k], |items|);
  }

  // ---- the rounds that failed

  // A round fails: an undecidable ruling, or a refused ratification of a ruling that is pending on a point with no board.
  ghost predicate FailsAt(items: seq<Item>, o: nat, j: nat)
    requires o < |items| && IsOpening(items[o]) && j < |items|
  {
    (RulesAt(items, o, j) && items[j].event.value.outcome == Undecidable) ||
    (PolicyAt(items, o).board == [] && RatifiesAt(items, o, j) && !items[j].event.value.accept && exists p: nat :: PendingBy(items, o, j, p))
  }

  ghost function Fails(items: seq<Item>, o: nat, n: nat): nat
    requires o < n <= |items| && IsOpening(items[o])
  {
    if n == o + 1 then 0 else Fails(items, o, n - 1) + if FailsAt(items, o, n - 1) then 1 else 0
  }

  ghost predicate IsPending(d: Point) { d.ruling.Some? && d.ruling.value.outcome == Decided }

  lemma RoundsAfter(d: Point, it: Item, e: Event)
    requires !d.Settled() && it.at != 0
    ensures var q := PointAfter(d, it, e);
            !q.Settled() ==>
              q.policy.rounds == d.policy.rounds +
                if (e.RulePoint? && e.outcome == Undecidable) || (e.RatifyPoint? && !e.accept && IsPending(d)) then 1 else 0
  {
  }

  lemma PendingIs(items: seq<Item>, o: nat, n: nat)
    requires o < n <= |items| && IsOpening(items[o]) && WellFormedLog(items)
    requires PolicyAt(items, o).board != [] ==> DistinctSeats(PolicyAt(items, o).board)
    requires !PointOf(items, o, n, PlatformRules).Settled()
    ensures IsPending(PointOf(items, o, n, PlatformRules)) <==>
            PolicyAt(items, o).board == [] && exists p: nat :: PendingBy(items, o, n, p)
  {
    if PolicyAt(items, o).board == [] { LonePointSays(items, o, n); } else { BoardPointSays(items, o, n); }
  }

  lemma SettledStays(items: seq<Item>, o: nat, n: nat)
    requires o < n < |items| && IsOpening(items[o])
    ensures PointOf(items, o, n, PlatformRules).Settled() ==> PointOf(items, o, n + 1, PlatformRules) == PointOf(items, o, n, PlatformRules)
  {
  }

  /** The rounds of an open point are those it was opened with and those that failed since. */
  lemma {:induction false} RoundsAreCounted(items: seq<Item>, o: nat, n: nat)
    requires o < n <= |items| && IsOpening(items[o]) && WellFormedLog(items)
    requires PolicyAt(items, o).board != [] ==> DistinctSeats(PolicyAt(items, o).board)
    requires !PointOf(items, o, n, PlatformRules).Settled()
    ensures PointOf(items, o, n, PlatformRules).policy.rounds == PolicyAt(items, o).rounds + Fails(items, o, n)
    decreases n
  {
    if n > o + 1 {
      var last: nat := n - 1;
      var d := PointOf(items, o, last, PlatformRules);
      SettledStays(items, o, last);
      RoundsAreCounted(items, o, last);
      PendingIs(items, o, last);
      PointKeepsItsOpening(items, o, last, PlatformRules);
      assert WellFormed(items[last]);
      if About(items, o, last) { RoundsAfter(d, items[last], items[last].event.value); }
    }
  }

  // ---- the questions of an open point

  lemma OpenBefore(items: seq<Item>, o: nat, n: nat, next: nat)
    requires o < n < |items| && next == n + 1 && IsOpening(items[o]) && !PointOf(items, o, next, PlatformRules).Settled()
    ensures !PointOf(items, o, n, PlatformRules).Settled() && PointOf(items, o, n, PlatformRules).id == items[o].id
    ensures PointOf(items, o, next, PlatformRules) == AfterItem(PointOf(items, o, n, PlatformRules), items[n], PlatformRules)
  {
    SettledStays(items, o, n);
    PointKeepsItsOpening(items, o, n, PlatformRules);
  }

  // The questions raised by the undecidable rulings, each by the position of its ruling and its place in it.
  ghost function Raised(items: seq<Item>, o: nat, n: nat): seq<(nat, nat)>
    requires o < n <= |items|
  {
    if n == o + 1 then []
    else if RulesAt(items, o, n - 1) && items[n - 1].event.value.outcome == Undecidable
    then Raised(items, o, n - 1) + Places(n - 1, |items[n - 1].event.value.questions|)
    else Raised(items, o, n - 1)
  }

  function Places(j: nat, m: nat): (at: seq<(nat, nat)>)
    ensures |at| == m && forall i :: 0 <= i < m ==> at[i] == (j, i)
  {
    seq(m, i requires 0 <= i < m => (j, i))
  }

  // An answer to a question.
  predicate AnswersAt(items: seq<Item>, o: nat, j: nat, question: string)
    requires o < |items| && j < |items|
  {
    About(items, o, j) && items[j].event.value.AnswerPoint? && items[j].event.value.questionId == question
  }

  predicate FirstAnswer(items: seq<Item>, o: nat, from: nat, n: nat, question: string, a: nat)
    requires o < |items| && n <= |items|
  {
    from < a < n && AnswersAt(items, o, a, question) && forall m :: from < m < a ==> !AnswersAt(items, o, m, question)
  }

  // A question as its ruling raised it, with the first answer since.
  ghost predicate QuestionSays(items: seq<Item>, o: nat, n: nat, at: (nat, nat), q: Question)
    requires o < |items| && n <= |items| && at.0 < n
  {
    var it := items[at.0];
    it.event.Some? && it.event.value.RulePoint? && at.1 < |it.event.value.questions| &&
    q.id == it.id + ":" + Itoa(at.1 + 1) && q.text == it.event.value.questions[at.1] && q.askedAt == it.at &&
    (forall a: nat :: FirstAnswer(items, o, at.0, n, q.id, a) ==>
      var e := items[a].event.value; q.answered && q.answer == e.answer && q.answeredBy == e.writer && q.process == e.process) &&
    ((forall m :: at.0 < m < n ==> !AnswersAt(items, o, m, q.id)) ==> !q.answered && q.answer == "" && q.answeredBy == "" && q.process == "")
  }

  ghost predicate QuestionsSay(items: seq<Item>, o: nat, n: nat, qs: seq<Question>)
    requires o < n <= |items|
  {
    var at := Raised(items, o, n);
    |qs| == |at| && forall i :: 0 <= i < |at| ==> at[i].0 < n && QuestionSays(items, o, n, at[i], qs[i])
  }

  lemma {:induction false} AskedIs(it: Item, texts: seq<string>, n: nat, i: nat)
    requires i < n <= |texts|
    ensures |Asked(it, texts, n)| == n
    ensures Asked(it, texts, n)[i] == Question(it.id + ":" + Itoa(i + 1), texts[i], false, "", "", "", it.at)
  {
    if i == n - 1 { AskedSize(it, texts, n - 1); } else { AskedIs(it, texts, n - 1, i); }
  }

  lemma {:induction false} AskedSize(it: Item, texts: seq<string>, n: nat)
    requires n <= |texts|
    ensures |Asked(it, texts, n)| == n
  {
    if n > 0 { AskedSize(it, texts, n - 1); }
  }

  // An item that answers no question leaves it.
  lemma QuestionStays(items: seq<Item>, o: nat, n: nat, at: (nat, nat), q: Question)
    requires o < n < |items| && at.0 < n && QuestionSays(items, o, n, at, q) && !AnswersAt(items, o, n, q.id)
    ensures QuestionSays(items, o, n + 1, at, q)
  {
    forall a: nat | FirstAnswer(items, o, at.0, n + 1, q.id, a) ensures FirstAnswer(items, o, at.0, n, q.id, a) {
    }
  }

  lemma {:induction false} AnswerOrNone(items: seq<Item>, o: nat, from: nat, n: nat, question: string)
    requires o < |items| && from < n <= |items|
    ensures (exists a: nat :: FirstAnswer(items, o, from, n, question, a)) || forall m :: from < m < n ==> !AnswersAt(items, o, m, question)
    decreases n
  {
    if n > from + 1 {
      var last: nat := n - 1;
      AnswerOrNone(items, o, from, last, question);
      if a: nat :| FirstAnswer(items, o, from, last, question, a) {
        assert FirstAnswer(items, o, from, n, question, a);
      } else if AnswersAt(items, o, last, question) {
        assert FirstAnswer(items, o, from, n, question, last);
      }
    }
  }

  // An answer is kept by a question that had none.
  lemma QuestionAnswered(items: seq<Item>, o: nat, n: nat, at: (nat, nat), q: Question)
    requires o < n < |items| && at.0 < n && QuestionSays(items, o, n, at, q) && AnswersAt(items, o, n, q.id)
    ensures QuestionSays(items, o, n + 1, at, AnswerOne(q, items[n].event.value))
  {
    var next := n + 1;
    AnswerOrNone(items, o, at.0, n, q.id);
    if a: nat :| FirstAnswer(items, o, at.0, n, q.id, a) {
      forall b: nat | FirstAnswer(items, o, at.0, next, q.id, b) ensures b == a { }
      assert AnswersAt(items, o, a, q.id);
    } else {
      forall b: nat | FirstAnswer(items, o, at.0, next, q.id, b) ensures b == n { }
      assert AnswersAt(items, o, n, q.id);
    }
  }

  // A question as it is raised.
  lemma QuestionRaised(items: seq<Item>, o: nat, n: nat, i: nat, q: Question)
    requires o < n < |items| && RulesAt(items, o, n) && i < |items[n].event.value.questions|
    requires q == Question(items[n].id + ":" + Itoa(i + 1), items[n].event.value.questions[i], false, "", "", "", items[n].at)
    ensures QuestionSays(items, o, n + 1, (n, i), q)
  {
  }

  lemma EventQuestions(d: Point, it: Item, e: Event)
    requires !d.Settled() && it.at != 0
    ensures var q := PointAfter(d, it, e);
            !q.Settled() ==>
              q.questions == if e.RulePoint? && e.outcome == Undecidable then d.questions + Asked(it, e.questions, |e.questions|)
                             else if e.AnswerPoint? then Answered(d.questions, e) else d.questions
  {
  }

  lemma QuestionsStay(items: seq<Item>, o: nat, n: nat, qs: seq<Question>)
    requires o < n < |items| && QuestionsSay(items, o, n, qs) && !(RulesAt(items, o, n) && items[n].event.value.outcome == Undecidable)
    requires !(About(items, o, n) && items[n].event.value.AnswerPoint?)
    ensures QuestionsSay(items, o, n + 1, qs)
  {
    var at := Raised(items, o, n);
    forall i | 0 <= i < |at| ensures QuestionSays(items, o, n + 1, at[i], qs[i]) { QuestionStays(items, o, n, at[i], qs[i]); }
  }

  lemma QuestionsAnswered(items: seq<Item>, o: nat, n: nat, qs: seq<Question>)
    requires o < n < |items| && QuestionsSay(items, o, n, qs) && About(items, o, n) && items[n].event.value.AnswerPoint?
    ensures QuestionsSay(items, o, n + 1, Answered(qs, items[n].event.value))
  {
    var at, now := Raised(items, o, n), Answered(qs, items[n].event.value);
    forall i | 0 <= i < |at| ensures QuestionSays(items, o, n + 1, at[i], now[i]) {
      if AnswersAt(items, o, n, qs[i].id) { QuestionAnswered(items, o, n, at[i], qs[i]); } else { QuestionStays(items, o, n, at[i], qs[i]); }
    }
  }

  lemma QuestionsRaised(items: seq<Item>, o: nat, n: nat, qs: seq<Question>)
    requires o < n < |items| && QuestionsSay(items, o, n, qs) && RulesAt(items, o, n) && items[n].event.value.outcome == Undecidable
    ensures var texts := items[n].event.value.questions; QuestionsSay(items, o, n + 1, qs + Asked(items[n], texts, |texts|))
  {
    var at, texts := Raised(items, o, n), items[n].event.value.questions;
    var m := |texts|;
    var asked := Asked(items[n], texts, m);
    AskedSize(items[n], texts, m);
    forall i | 0 <= i < |at| ensures QuestionSays(items, o, n + 1, at[i], qs[i]) { QuestionStays(items, o, n, at[i], qs[i]); }
    forall i | 0 <= i < m ensures QuestionSays(items, o, n + 1, Places(n, m)[i], asked[i]) {
      AskedIs(items[n], texts, m, i);
      QuestionRaised(items, o, n, i, asked[i]);
    }
  }

  ghost predicate AsksTheLogs(items: seq<Item>, o: nat, n: nat)
    requires o < n <= |items| && IsOpening(items[o])
  {
    var d := PointOf(items, o, n, PlatformRules);
    !d.Settled() ==> QuestionsSay(items, o, n, d.questions)
  }

  lemma AsksStep(items: seq<Item>, o: nat, n: nat, next: nat)
    requires o < n < |items| && next == n + 1 && IsOpening(items[o]) && items[n].at != 0 && AsksTheLogs(items, o, n)
    ensures AsksTheLogs(items, o, next)
  {
    var d, q := PointOf(items, o, n, PlatformRules), PointOf(items, o, next, PlatformRules);
    if !q.Settled() {
      OpenBefore(items, o, n, next);
      QuestionsStep(items, o, n, d, q);
    }
  }

  /** The questions of an open point: those its undecidable rulings raised, in order, each with its first answer. */
  lemma {:induction false} QuestionsAreTheLogs(items: seq<Item>, o: nat, n: nat)
    requires o < n <= |items| && IsOpening(items[o]) && WellFormedLog(items)
    ensures AsksTheLogs(items, o, n)
    decreases n
  {
    if n > o + 1 {
      var last: nat := n - 1;
      QuestionsAreTheLogs(items, o, last);
      Dated(items, last);
      AsksStep(items, o, last, n);
    } else {
      NoQuestionYet(items, o);
    }
  }

  lemma Dated(items: seq<Item>, n: nat)
    requires WellFormedLog(items) && n < |items|
    ensures items[n].at != 0
  {
    assert WellFormed(items[n]);
  }

  lemma NoQuestionYet(items: seq<Item>, o: nat)
    requires o < |items| && IsOpening(items[o])
    ensures QuestionsSay(items, o, o + 1, PointOf(items, o, o + 1, PlatformRules).questions)
  {
  }

  lemma QuestionsStep(items: seq<Item>, o: nat, n: nat, d: Point, q: Point)
    requires o < n < |items| && !d.Settled() && d.id == items[o].id && items[n].at != 0 && QuestionsSay(items, o, n, d.questions)
    requires q == AfterItem(d, items[n], PlatformRules) && !q.Settled()
    ensures QuestionsSay(items, o, n + 1, q.questions)
  {
    if About(items, o, n) { EventQuestions(d, items[n], items[n].event.value); }
    if RulesAt(items, o, n) && items[n].event.value.outcome == Undecidable {
      QuestionsRaised(items, o, n, d.questions);
    } else if About(items, o, n) && items[n].event.value.AnswerPoint? {
      QuestionsAnswered(items, o, n, d.questions);
    } else {
      QuestionsStay(items, o, n, d.questions);
    }
  }

  // ---- the status of a point

  lemma {:induction false} SomeOpen(qs: seq<Question>)
    ensures OpenQuestions(qs) > 0 <==> exists i :: 0 <= i < |qs| && !qs[i].answered
  {
    if qs != [] {
      SomeOpen(qs[..|qs| - 1]);
      LastSplits(qs);
    }
  }

  // A point is escalated when its rounds are used up, else when its deadline is past.
  predicate TooMany(d: Point) { d.policy.maxRounds > 0 && d.policy.rounds >= d.policy.maxRounds }

  predicate TooLate(d: Point, now: int) { d.policy.deadline.Some? && d.policy.deadline.value < now }

  /**
   * The status of a point at a moment, in this order: decided; waiting for the ratification of its pending ruling; blocked by
   * a question with no answer; escalated; open. Only a person may rule one that is escalated, or whose policy says so; the
   * default policy neither escalates nor reserves.
   */
  lemma StatusSays(d: Point, now: int, rules: Rules)
    ensures var s := WithStatus(d, now, rules);
            var escalated := rules.PlatformRules? && (TooMany(d) || TooLate(d, now));
            (d.decidedAt != 0 <==> s.status == PointDecided) &&
            (s.status == PointRatifying <==> d.decidedAt == 0 && IsPending(d)) &&
            (s.status == PointBlocked <==> d.decidedAt == 0 && !IsPending(d) && exists i :: 0 <= i < |d.questions| && !d.questions[i].answered) &&
            (s.status == PointEscalated <==>
              d.decidedAt == 0 && !IsPending(d) && escalated && forall i :: 0 <= i < |d.questions| ==> d.questions[i].answered) &&
            (d.decidedAt == 0 ==>
              (s.humanOnly <==> rules.PlatformRules? && (d.policy.human || escalated)) &&
              s.escalation == (if !escalated then NotEscalated else if TooMany(d) then TooManyRounds(d.policy.rounds)
                               else PastDeadline(d.policy.deadline.value))) &&
            s == d.(status := s.status, humanOnly := s.humanOnly, escalation := s.escalation)
  {
    SomeOpen(d.questions);
  }
}
