// Decision points (contracts/domain/decision.go) under the policy of the platform (contracts/decision/decision.go) or the
// default one of a graph that was given none: the replay of the events of a change, and how a ruling settles a point.
module Decisions {
  import opened Prelude

  datatype Outcome = Decided | Undecidable | OtherOutcome

  datatype Rule = Unanimity | Majority | Consent

  const OptionGo := "go"
  const OptionNoGo := "no_go"
  const OptionAbstain := "abstain"

  /** The policy values of a point: as resolved at the opening, with the failed rounds and the votes folded since. */
  datatype Policy = Policy(human: bool, threshold: real, maxRounds: int, deadline: Option<int>, board: seq<string>,
                           rule: Rule, chair: string, rounds: int, votes: map<string, string>)

  datatype Event =
    | OpenPoint(question: string, options: seq<string>, criteria: seq<string>, policy: Policy, writer: string)
    | RulePoint(point: string, outcome: Outcome, option: string, confidence: real, justification: string,
                questions: seq<string>, human: bool, writer: string, role: string)
    | AnswerPoint(point: string, questionId: string, answer: string, process: string, writer: string)
    | RatifyPoint(point: string, accept: bool, writer: string)

  /** An item of the log of a change; only the events of its main flow count. */
  datatype Item = Item(id: string, flow: string, at: int, event: Option<Event>)

  datatype Question = Question(id: string, text: string, answered: bool, answer: string, answeredBy: string,
                               process: string, askedAt: int)

  datatype Ruling = Ruling(outcome: Outcome, option: string, confidence: real, justification: string, writer: string,
                           human: bool, role: string, at: int)

  datatype Status = PointOpen | PointBlocked | PointRatifying | PointEscalated | PointDecided

  datatype Escalation = NotEscalated | TooManyRounds(rounds: int) | PastDeadline(deadline: int)

  datatype Point = Point(id: string, question: string, options: seq<string>, criteria: seq<string>, policy: Policy,
                         openedAt: int, openedBy: string, status: Status, questions: seq<Question>, ruling: Option<Ruling>,
                         humanOnly: bool, escalation: Escalation, option: string, decidedAt: int, decidedBy: string)
  {
    predicate Settled() { decidedBy != "" || decidedAt != 0 }
  }

  // ---- a board

  // The seats of a board that ruled an option.
  function Count(board: seq<string>, votes: map<string, string>, option: string): nat {
    if board == [] then 0
    else
      var role := board[|board| - 1];
      Count(board[..|board| - 1], votes, option) + if option != "" && role in votes && votes[role] == option then 1 else 0
  }

  predicate Carries(board: seq<string>, votes: map<string, string>, option: string) {
    2 * Count(board, votes, option) > |board| && option != OptionAbstain
  }

  lemma {:induction false} CountsAreDisjoint(board: seq<string>, votes: map<string, string>, a: string, b: string)
    requires a != b
    ensures Count(board, votes, a) + Count(board, votes, b) <= |board|
  {
    if board != [] { CountsAreDisjoint(board[..|board| - 1], votes, a, b); }
  }

  /** At most one option has more than half of the seats: the order the options are visited in does not matter. */
  lemma MajorityIsUnique(board: seq<string>, votes: map<string, string>, a: string, b: string)
    requires Carries(board, votes, a) && Carries(board, votes, b)
    ensures a == b
  {
    if a != b { CountsAreDisjoint(board, votes, a, b); }
  }

  ghost function MajorityOption(board: seq<string>, votes: map<string, string>): Option<string> {
    if exists o :: Carries(board, votes, o) then
      var o :| Carries(board, votes, o); Some(o)
    else None
  }

  // The option a new vote settles the point on, if it does.
  ghost function RuledBy(p: Policy, option: string): Option<string> {
    match p.rule
    case Majority => MajorityOption(p.board, p.votes)
    case Consent =>
      if option == OptionNoGo then Some(OptionNoGo) else if |p.votes| >= |p.board| then Some(OptionGo) else None
    case Unanimity =>
      if option != OptionGo then Some(option)
      else if Count(p.board, p.votes, OptionGo) == |p.board| then Some(OptionGo) else None
  }

  predicate ChairMayRule(p: Policy, role: string) { p.chair != "" && role == p.chair && |p.votes| >= |p.board| }

  predicate HasVoted(p: Policy, role: string) { role in p.votes && p.votes[role] != "" }

  ghost function BoardRuled(p: Policy, e: Event): (Policy, Option<string>)
    requires e.RulePoint?
  {
    if ChairMayRule(p, e.role) then (p, Some(e.option))
    else if e.role !in p.board || HasVoted(p, e.role) then (p, None)
    else
      var voted := p.(votes := p.votes[e.role := e.option]);
      (voted, RuledBy(voted, e.option))
  }

  method CountVotes(board: seq<string>, votes: map<string, string>) returns (count: map<string, nat>)
    ensures forall o :: (if o in count then count[o] else 0) == Count(board, votes, o)
  {
    count := map[];
    for i := 0 to |board|
      invariant forall o :: (if o in count then count[o] else 0) == Count(board[..i], votes, o)
    {
      assert board[..i + 1][..i] == board[..i];
      var o := if board[i] in votes then votes[board[i]] else "";
      if o != "" {
        count := count[o := (if o in count then count[o] else 0) + 1];
      }
    }
    assert board[..|board|] == board;
  }

  method FindMajority(board: seq<string>, votes: map<string, string>, count: map<string, nat>) returns (option: Option<string>)
    requires forall o :: (if o in count then count[o] else 0) == Count(board, votes, o)
    ensures option == MajorityOption(board, votes)
  {
    var rest := count.Keys;
    while rest != {}
      invariant rest <= count.Keys
      invariant forall o :: o in count.Keys - rest ==> !Carries(board, votes, o)
      decreases |rest|
    {
      var o :| o in rest;
      assert count[o] == Count(board, votes, o);
      if 2 * count[o] > |board| && o != OptionAbstain {
        assert Carries(board, votes, o);
        MajorityIsUnique(board, votes, o, MajorityOption(board, votes).value);
        return Some(o);
      }
      rest := rest - {o};
    }
    forall o ensures !Carries(board, votes, o) {
      assert o !in count ==> Count(board, votes, o) == 0;
    }
    return None;
  }

  method BoardRuling(p: Policy, e: Event) returns (q: Policy, option: Option<string>)
    requires e.RulePoint?
    ensures (q, option) == BoardRuled(p, e)
  {
    if p.chair != "" && e.role == p.chair && |p.votes| >= |p.board| {
      return p, Some(e.option);
    }
    if e.role !in p.board || (e.role in p.votes && p.votes[e.role] != "") {
      return p, None;
    }
    q := p.(votes := p.votes[e.role := e.option]);
    var count := CountVotes(q.board, q.votes);
    match q.rule {
      case Majority =>
        option := FindMajority(q.board, q.votes, count);
      case Consent =>
        if e.option == OptionNoGo { option := Some(OptionNoGo); }
        else if |q.votes| >= |q.board| { option := Some(OptionGo); }
        else { option := None; }
      case Unanimity =>
        if e.option != OptionGo { option := Some(e.option); }
        else if (if OptionGo in count then count[OptionGo] else 0) == |q.board| { option := Some(OptionGo); }
        else { option := None; }
    }
  }

  // ---- the policy

  /** What folds the events of a point: the platform's policy, or the default one, for which boards and doubts are nothing. */
  datatype Rules = PlatformRules | DefaultRules

  // By default a ruling that decides settles, whoever made it and however sure; an accepting ratification too.
  predicate DefaultSettles(e: Event) { (e.RulePoint? && e.outcome == Decided) || (e.RatifyPoint? && e.accept) }

  predicate RuledByBoard(p: Policy, e: Event) { |p.board| > 0 && e.RulePoint? && e.outcome == Decided }

  function FailRound(d: Point): Point { d.(policy := d.policy.(rounds := d.policy.rounds + 1)) }

  // The point once the policy has read an event, and whether it settles the point.
  ghost function PolicyFolded(d: Point, e: Event, rules: Rules := PlatformRules): (Point, bool) {
    if rules.DefaultRules? then (d, DefaultSettles(e))
    else if RuledByBoard(d.policy, e) then
      var (policy, option) := BoardRuled(d.policy, e);
      var q := d.(policy := policy);
      if option.None? then (q.(ruling := None), false)
      else if q.ruling.Some? then (q.(ruling := Some(q.ruling.value.(option := option.value))), true)
      else (q, true)
    else match e
      case RulePoint(_, outcome, _, confidence, _, _, human, _, _) =>
        if outcome == Undecidable then (FailRound(d), false) else (d, human || confidence >= d.policy.threshold)
      case RatifyPoint(_, accept, _) => if accept then (d, true) else (FailRound(d), false)
      case _ => (d, false)
  }

  method FoldPolicy(d: Point, e: Event, rules: Rules) returns (q: Point, settled: bool)
    ensures (q, settled) == PolicyFolded(d, e, rules)
  {
    q := d;
    if rules.DefaultRules? {
      match e {
        case RulePoint(_, outcome, _, _, _, _, _, _, _) => return q, outcome == Decided;
        case RatifyPoint(_, accept, _) => return q, accept;
        case _ => return q, false;
      }
    }
    if |d.policy.board| > 0 && e.RulePoint? && e.outcome == Decided {
      var policy, option := BoardRuling(d.policy, e);
      q := q.(policy := policy);
      if option.None? {
        return q.(ruling := None), false;
      }
      if q.ruling.Some? { q := q.(ruling := Some(q.ruling.value.(option := option.value))); }
      return q, true;
    }
    match e {
      case RulePoint(_, outcome, _, confidence, _, _, human, _, _) =>
        if outcome == Undecidable { return FailRound(q), false; }
        return q, human || confidence >= q.policy.threshold;
      case RatifyPoint(_, accept, _) =>
        if accept { return q, true; }
        return FailRound(q), false;
      case _ =>
        return q, false;
    }
  }

  // Who may rule the point at a moment, a person alone or not, with the reason of an escalation.
  function Reserved(p: Policy, now: int, rules: Rules := PlatformRules): (bool, Escalation) {
    if rules.DefaultRules? then (false, NotEscalated)
    else if p.maxRounds > 0 && p.rounds >= p.maxRounds then (p.human, TooManyRounds(p.rounds))
    else if p.deadline.Some? && now > p.deadline.value then (p.human, PastDeadline(p.deadline.value))
    else (p.human, NotEscalated)
  }

  // ---- the replay of the log

  function Settle(d: Point, r: Ruling): Point {
    d.(ruling := Some(r), option := r.option, decidedAt := r.at, decidedBy := r.writer)
  }

  function Asked(it: Item, texts: seq<string>, n: nat): seq<Question>
    requires n <= |texts|
  {
    if n == 0 then [] else Asked(it, texts, n - 1) + [Question(it.id + ":" + Itoa(n), texts[n - 1], false, "", "", "", it.at)]
  }

  function AnswerOne(q: Question, e: Event): Question
    requires e.AnswerPoint?
  {
    if q.id == e.questionId && !q.answered
    then q.(answered := true, answer := e.answer, answeredBy := e.writer, process := e.process) else q
  }

  function Answered(qs: seq<Question>, e: Event): (out: seq<Question>)
    requires e.AnswerPoint?
    ensures |out| == |qs| && forall i :: 0 <= i < |qs| ==> out[i] == AnswerOne(qs[i], e)
  {
    seq(|qs|, i requires 0 <= i < |qs| => AnswerOne(qs[i], e))
  }

  function RulingOf(it: Item, e: Event): Ruling
    requires e.RulePoint?
  {
    Ruling(e.outcome, e.option, e.confidence, e.justification, e.writer, e.human, e.role, it.at)
  }

  ghost function Ruled(d: Point, it: Item, e: Event, rules: Rules := PlatformRules): Point
    requires e.RulePoint?
  {
    var (q, settled) := PolicyFolded(d.(ruling := Some(RulingOf(it, e))), e, rules);
    if e.outcome == Undecidable then q.(questions := q.questions + Asked(it, e.questions, |e.questions|))
    else if settled && q.ruling.Some? then Settle(q, q.ruling.value) else q
  }

  ghost function Ratified(d: Point, it: Item, e: Event, rules: Rules := PlatformRules): Point
    requires e.RatifyPoint?
  {
    if d.ruling.None? || d.ruling.value.outcome != Decided then d
    else
      var (q, settled) := PolicyFolded(d, e, rules);
      if settled && q.ruling.Some? then
        Settle(q, q.ruling.value.(outcome := Decided, writer := e.writer, human := true, role := "", at := it.at))
      else q.(ruling := None)
  }

  // A point after an event about it; once decided it stays.
  ghost function PointAfter(d: Point, it: Item, e: Event, rules: Rules := PlatformRules): Point {
    if d.Settled() then d
    else match e
      case OpenPoint(_, _, _, _, _) => d
      case RulePoint(_, _, _, _, _, _, _, _, _) => Ruled(d, it, e, rules)
      case RatifyPoint(_, _, _) => Ratified(d, it, e, rules)
      case AnswerPoint(_, _, _, _, _) => d.(questions := Answered(d.questions, e))
  }

  function Opened(it: Item, e: Event): Point
    requires e.OpenPoint?
  {
    Point(it.id, e.question, e.options, e.criteria, e.policy, it.at, e.writer, PointOpen, [], None, false, NotEscalated, "", 0, "")
  }

  function PointId(d: Point): string { d.id }

  // The last point opened under an id.
  function IndexOf(points: seq<Point>, id: string): (i: int)
    ensures -1 <= i < |points|
    ensures i >= 0 ==> points[i].id == id
  {
    LastWith(points, PointId, id)
  }

  ghost function Replayed(points: seq<Point>, it: Item, rules: Rules := PlatformRules): seq<Point> {
    if it.event.None? || it.flow != "" then points
    else if it.event.value.OpenPoint? then points + [Opened(it, it.event.value)]
    else
      var i := IndexOf(points, it.event.value.point);
      if i < 0 then points else points[i := PointAfter(points[i], it, it.event.value, rules)]
  }

  ghost function Replay(items: seq<Item>, rules: Rules := PlatformRules): seq<Point> {
    if items == [] then [] else Replayed(Replay(items[..|items| - 1], rules), items[|items| - 1], rules)
  }

  function OpenQuestions(qs: seq<Question>): nat {
    if qs == [] then 0 else OpenQuestions(qs[..|qs| - 1]) + if qs[|qs| - 1].answered then 0 else 1
  }

  // The status of a replayed point at a moment.
  function WithStatus(d: Point, now: int, rules: Rules := PlatformRules): Point {
    if d.decidedAt != 0 then d.(status := PointDecided)
    else
      var (human, escalation) := Reserved(d.policy, now, rules);
      d.(humanOnly := human || escalation != NotEscalated, escalation := escalation,
         status := if d.ruling.Some? && d.ruling.value.outcome == Decided then PointRatifying
                   else if OpenQuestions(d.questions) > 0 then PointBlocked
                   else if escalation != NotEscalated then PointEscalated else PointOpen)
  }

  method AnswerAll(qs: seq<Question>, e: Event) returns (out: seq<Question>)
    requires e.AnswerPoint?
    ensures out == Answered(qs, e)
  {
    out := qs;
    for i := 0 to |out|
      invariant |out| == |qs|
      invariant forall j :: 0 <= j < i ==> out[j] == AnswerOne(qs[j], e)
      invariant forall j :: i <= j < |qs| ==> out[j] == qs[j]
    {
      if out[i].id == e.questionId && !out[i].answered {
        out := out[i := out[i].(answered := true, answer := e.answer, answeredBy := e.writer, process := e.process)];
      }
    }
  }

  method AskAll(it: Item, texts: seq<string>) returns (out: seq<Question>)
    ensures out == Asked(it, texts, |texts|)
  {
    out := [];
    for i := 0 to |texts|
      invariant out == Asked(it, texts, i)
    {
      out := out + [Question(it.id + ":" + Itoa(i + 1), texts[i], false, "", "", "", it.at)];
    }
  }

  method ApplyEvent(d: Point, it: Item, e: Event, rules: Rules) returns (q: Point)
    ensures q == PointAfter(d, it, e, rules)
  {
    q := d;
    if d.decidedBy != "" || d.decidedAt != 0 { return; }
    var settled;
    match e {
      case RulePoint(_, outcome, _, _, _, texts, _, _, _) =>
        q := q.(ruling := Some(RulingOf(it, e)));
        q, settled := FoldPolicy(q, e, rules);
        if outcome == Undecidable {
          var asked := AskAll(it, texts);
          q := q.(questions := q.questions + asked);
        } else if settled && q.ruling.Some? {
          q := Settle(q, q.ruling.value);
        }
      case RatifyPoint(_, _, writer) =>
        if q.ruling.None? || q.ruling.value.outcome != Decided { return; }
        q, settled := FoldPolicy(q, e, rules);
        if settled && q.ruling.Some? {
          q := Settle(q, q.ruling.value.(outcome := Decided, writer := writer, human := true, role := "", at := it.at));
        } else {
          q := q.(ruling := None);
        }
      case AnswerPoint(_, _, _, _, _) =>
        var questions := AnswerAll(q.questions, e);
        q := q.(questions := questions);
      case OpenPoint(_, _, _, _, _) =>
    }
  }

  lemma PointKeepsId(d: Point, it: Item, e: Event, rules: Rules := PlatformRules)
    ensures PointAfter(d, it, e, rules).id == d.id
  {
  }

  // The last point opened under each id.
  ghost predicate Indexed(at: map<string, nat>, points: seq<Point>) {
    forall id :: (if id in at then at[id] else -1) == IndexOf(points, id)
  }

  lemma IndexedOpening(at: map<string, nat>, points: seq<Point>, d: Point)
    requires Indexed(at, points)
    ensures Indexed(at[d.id := |points|], points + [d])
  {
    forall id { LastWithAdded(points, PointId, d, id); }
  }

  lemma IndexedChange(at: map<string, nat>, points: seq<Point>, i: nat, d: Point)
    requires Indexed(at, points) && i < |points| && points[i].id == d.id
    ensures Indexed(at, points[i := d])
  {
    forall id { LastWithUpdated(points, PointId, i, d, id); }
  }

  // One item of the log, with the index of the points kept beside them.
  method ReplayItem(points: seq<Point>, at: map<string, nat>, it: Item, rules: Rules)
    returns (out: seq<Point>, index: map<string, nat>)
    requires Indexed(at, points)
    ensures out == Replayed(points, it, rules) && Indexed(index, out)
  {
    out, index := points, at;
    if it.event.None? || it.flow != "" { return; }
    var e := it.event.value;
    if e.OpenPoint? {
      index := index[it.id := |out|];
      out := out + [Opened(it, e)];
      IndexedOpening(at, points, Opened(it, e));
      return;
    }
    assert (if e.point in at then at[e.point] else -1) == IndexOf(points, e.point);
    if e.point !in at { return; }
    var i := at[e.point];
    var d := ApplyEvent(points[i], it, e, rules);
    PointKeepsId(points[i], it, e, rules);
    IndexedChange(at, points, i, d);
    out := out[i := d];
  }

  method SettleAll(points: seq<Point>, now: int, rules: Rules) returns (out: seq<Point>)
    ensures |out| == |points|
    ensures forall i :: 0 <= i < |out| ==> out[i] == WithStatus(points[i], now, rules)
  {
    out := points;
    for k := 0 to |out|
      invariant |out| == |points|
      invariant forall i :: 0 <= i < k ==> out[i] == WithStatus(points[i], now, rules)
      invariant forall i :: k <= i < |out| ==> out[i] == points[i]
    {
      out := out[k := WithStatus(out[k], now, rules)];
    }
  }

  /** The points a log opened, in its order, as they stand at a moment under a policy. */
  method DecisionPointsAt(items: seq<Item>, now: int, rules: Rules) returns (out: seq<Point>)
    ensures |out| == |Replay(items, rules)|
    ensures forall i :: 0 <= i < |out| ==> out[i] == WithStatus(Replay(items, rules)[i], now, rules)
  {
    var points: seq<Point>, at: map<string, nat> := [], map[];
    for k := 0 to |items|
      invariant points == Replay(items[..k], rules) && Indexed(at, points)
    {
      PrefixGrows(items, k);
      points, at := ReplayItem(points, at, items[k], rules);
    }
    WholePrefix(items);
    out := SettleAll(points, now, rules);
  }
}
