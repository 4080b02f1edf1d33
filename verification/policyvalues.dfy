// The policy values of a decision point (contracts/decision/decision.go): what an opening makes of the values it is given,
// and what the platform's policy reads of them, in process or back from the log.
module PolicyValues {
  import opened Prelude
  import opened Decisions

  /** A value of any type. Names and votes are typed in process, and lists and objects once they were stored as JSON. */
  datatype Value = NilValue | TextValue(text: string) | NumberValue(number: real) | DurationValue(length: int)
                 | NamesValue(names: seq<string>) | ListValue(items: seq<Value>)
                 | VotesValue(votes: map<string, string>) | ObjectValue(fields: map<string, Value>) | OtherValue

  type Values = map<string, Value>

  /** The texts of times and durations, times being what the texts name. */
  datatype Texts = Texts(format: int -> string, parse: string -> Option<int>, parseDuration: string -> Option<int>)
  {
    ghost predicate Inverse() { forall t :: format(t) != "" && parse(format(t)) == Some(t) }
  }

  const KeyDecider := "decider"
  const KeyThreshold := "threshold"
  const KeyMaxRounds := "maxRounds"
  const KeyMaxDuration := "maxDuration"
  const KeyDeadline := "deadline"
  const KeyRounds := "rounds"
  const KeyBoard := "board"
  const KeyRule := "rule"
  const KeyVotes := "votes"
  const KeyChair := "chair"
  const KeyGate := "gate"
  const KeyTransition := "transition"

  const DeciderAgent := "agent"
  const DeciderHuman := "human"
  const RuleUnanimity := "unanimity"
  const RuleMajority := "majority"
  const RuleConsent := "consent"

  const DefaultThreshold: real := 0.7
  const DefaultRounds: real := 3.0

  // The values an opener may give.
  const Given: set<string> := {KeyDecider, KeyThreshold, KeyMaxRounds, KeyMaxDuration, KeyBoard, KeyRule, KeyChair, KeyGate, KeyTransition}

  // ---- what is read of the values

  // A missing value is nil.
  function At(m: Values, k: string): Value { if k in m then m[k] else NilValue }

  function TextOf(v: Value): string { if v.TextValue? then v.text else "" }

  function NumberOf(v: Value): Option<real> {
    if v.NilValue? then Some(0.0) else if v.NumberValue? then Some(v.number) else None
  }

  // A conversion to an integer drops the fraction.
  function Truncated(r: real): int { if r >= 0.0 then r.Floor else -((-r).Floor) }

  predicate AllNames(items: seq<Value>) { forall i :: 0 <= i < |items| ==> items[i].TextValue? && items[i].text != "" }

  function NamesIn(items: seq<Value>): seq<string> { seq(|items|, i requires 0 <= i < |items| => TextOf(items[i])) }

  function NamesOf(v: Value): Option<seq<string>> {
    match v
    case NilValue => Some([])
    case NamesValue(names) => Some(names)
    case ListValue(items) => if AllNames(items) then Some(NamesIn(items)) else None
    case _ => None
  }

  function VotesOf(v: Value): map<string, string> {
    match v
    case VotesValue(votes) => votes
    case ObjectValue(fields) => map k | k in fields && fields[k].TextValue? :: fields[k].text
    case _ => map[]
  }

  function NumberAt(m: Values, k: string): real { var n := NumberOf(At(m, k)); if n.Some? then n.value else 0.0 }

  function BoardOf(m: Values): seq<string> { var b := NamesOf(At(m, KeyBoard)); if b.Some? then b.value else [] }

  function RuleNamed(name: string): Rule {
    if name == RuleMajority then Majority else if name == RuleConsent then Consent else Unanimity
  }

  function DeadlineOf(m: Values, parse: string -> Option<int>): Option<int> {
    var text := TextOf(At(m, KeyDeadline));
    if text == "" then None else parse(text)
  }

  // The policy of a point, as its values say.
  function PolicyOf(m: Values, parse: string -> Option<int>): Policy {
    Policy(TextOf(At(m, KeyDecider)) == DeciderHuman, NumberAt(m, KeyThreshold), Truncated(NumberAt(m, KeyMaxRounds)),
           DeadlineOf(m, parse), BoardOf(m), RuleNamed(TextOf(At(m, KeyRule))), TextOf(At(m, KeyChair)),
           Truncated(NumberAt(m, KeyRounds)), VotesOf(At(m, KeyVotes)))
  }

  method ReadNames(v: Value) returns (names: Option<seq<string>>)
    ensures names == NamesOf(v)
  {
    match v {
      case NilValue => names := Some([]);
      case NamesValue(given) => names := Some(given);
      case ListValue(items) =>
        var out: seq<string> := [];
        for i := 0 to |items|
          invariant |out| == i
          invariant forall j :: 0 <= j < i ==> items[j].TextValue? && items[j].text != "" && out[j] == items[j].text
        {
          if !items[i].TextValue? || items[i].text == "" { return None; }
          out := out + [items[i].text];
        }
        assert out == NamesIn(items);
        names := Some(out);
      case _ => names := None;
    }
  }

  // ---- what is stored

  // A value as it comes back from the log: typed lists and maps are plain ones.
  function Stored(v: Value): Value {
    match v
    case NamesValue(names) => ListValue(seq(|names|, i requires 0 <= i < |names| => TextValue(names[i])))
    case VotesValue(votes) => ObjectValue(map role | role in votes :: TextValue(votes[role]))
    case _ => v
  }

  function StoredAll(m: Values): Values { map k | k in m :: Stored(m[k]) }

  lemma StoredNames(names: seq<string>)
    ensures NamesOf(Stored(NamesValue(names))) == if "" in names then None else Some(names)
  {
    var items := Stored(NamesValue(names)).items;
    if i :| 0 <= i < |names| && names[i] == "" {
      assert items[i].text == "";
    } else {
      assert NamesIn(items) == names;
    }
  }

  lemma StoredVotes(v: Value)
    ensures VotesOf(Stored(v)) == VotesOf(v)
  {
  }

  // A board none of whose roles is nameless.
  predicate Nameable(v: Value) { v.NamesValue? ==> "" !in v.names }

  /** The policy of a point is the same once its values were stored, if and only if no role of a typed board is nameless. */
  lemma StoredReadsAlike(m: Values, parse: string -> Option<int>)
    ensures PolicyOf(StoredAll(m), parse) == PolicyOf(m, parse) <==> Nameable(At(m, KeyBoard))
  {
    var n := StoredAll(m);
    assert forall k :: At(n, k) == Stored(At(m, k));
    StoredVotes(At(m, KeyVotes));
    StoredBoard(At(m, KeyBoard));
  }

  lemma StoredBoard(v: Value)
    ensures NamesOf(Stored(v)) == if Nameable(v) then NamesOf(v) else None
    ensures !Nameable(v) ==> NamesOf(v).Some? && NamesOf(v).value != []
  {
    if v.NamesValue? { StoredNames(v.names); }
  }

  // ---- the opening

  // The length of the time a point is given, none when the value is no duration.
  function LengthOf(v: Value, texts: Texts): Option<int> {
    match v
    case NilValue => Some(0)
    case DurationValue(length) => Some(length)
    case TextValue(text) => if text == "" then Some(0) else texts.parseDuration(text)
    case _ => None
  }

  predicate DeciderNamed(v: Value) { v.NilValue? || (v.TextValue? && v.text in {"", DeciderAgent, DeciderHuman}) }

  predicate RuleGiven(v: Value) { v.NilValue? || (v.TextValue? && v.text in {"", RuleUnanimity, RuleMajority, RuleConsent}) }

  // The values that say when a point with no board is settled.
  ghost predicate AloneGiven(given: Values, texts: Texts) {
    DeciderNamed(At(given, KeyDecider)) &&
    NumberOf(At(given, KeyThreshold)).Some? && 0.0 <= NumberAt(given, KeyThreshold) <= 1.0 &&
    NumberOf(At(given, KeyMaxRounds)).Some? &&
    LengthOf(At(given, KeyMaxDuration), texts).Some?
  }

  // The values an opening takes: known, each of its type, a threshold a probability, a rule only where there is a board.
  ghost predicate Acceptable(given: Values, texts: Texts) {
    given.Keys <= Given && AloneGiven(given, texts) && BoardGiven(given)
  }

  predicate BoardGiven(given: Values) {
    NamesOf(At(given, KeyBoard)).Some? &&
    if BoardOf(given) != [] then RuleGiven(At(given, KeyRule)) else TextOf(At(given, KeyRule)) == ""
  }

  function OrDefault(r: real, default: real): real { if r == 0.0 then default else r }

  // The policy a point is opened with.
  function Meant(given: Values, now: int, texts: Texts): Policy
    requires LengthOf(At(given, KeyMaxDuration), texts).Some?
  {
    var board, length := BoardOf(given), LengthOf(At(given, KeyMaxDuration), texts).value;
    Policy(board != [] || TextOf(At(given, KeyDecider)) == DeciderHuman,
           OrDefault(NumberAt(given, KeyThreshold), DefaultThreshold),
           Truncated(OrDefault(NumberAt(given, KeyMaxRounds), DefaultRounds)),
           if length > 0 then Some(now + length) else None,
           board, if board == [] then Unanimity else RuleNamed(TextOf(At(given, KeyRule))), TextOf(At(given, KeyChair)),
           0, map[])
  }

  method OpenLength(v: Value, texts: Texts) returns (length: Option<int>)
    ensures length == LengthOf(v, texts)
  {
    match v {
      case NilValue => length := Some(0);
      case DurationValue(given) => length := Some(given);
      case TextValue(text) => if text != "" { length := texts.parseDuration(text); } else { length := Some(0); }
      case _ => length := None;
    }
  }

  // Values that differ under some keys only.
  ghost predicate SameBut(m: Values, out: Values, keys: set<string>) { forall k :: k !in keys ==> At(out, k) == At(m, k) }

  method AllKnown(given: Values) returns (known: bool)
    ensures known <==> given.Keys <= Given
  {
    var rest := given.Keys;
    while rest != {}
      invariant rest <= given.Keys && given.Keys - rest <= Given
      decreases |rest|
    {
      var k :| k in rest;
      if k !in Given { return false; }
      rest := rest - {k};
    }
    known := true;
  }

  method OpenDecider(given: Values, m: Values) returns (out: Option<Values>)
    ensures out.Some? <==> DeciderNamed(At(given, KeyDecider))
    ensures out.Some? ==>
              SameBut(m, out.value, {KeyDecider}) &&
              TextOf(At(out.value, KeyDecider)) ==
                if TextOf(At(given, KeyDecider)) == DeciderHuman then DeciderHuman else DeciderAgent
  {
    var v := At(given, KeyDecider);
    if v.NilValue? || (v.TextValue? && (v.text == "" || v.text == DeciderAgent)) {
      out := Some(m[KeyDecider := TextValue(DeciderAgent)]);
    } else if v.TextValue? && v.text == DeciderHuman {
      out := Some(m[KeyDecider := TextValue(DeciderHuman)]);
    } else {
      out := None;
    }
  }

  method OpenThreshold(given: Values, m: Values) returns (out: Option<Values>)
    ensures out.Some? <==> NumberOf(At(given, KeyThreshold)).Some? && 0.0 <= NumberAt(given, KeyThreshold) <= 1.0
    ensures out.Some? ==>
              SameBut(m, out.value, {KeyThreshold}) &&
              NumberAt(out.value, KeyThreshold) == OrDefault(NumberAt(given, KeyThreshold), DefaultThreshold)
  {
    var threshold := NumberOf(At(given, KeyThreshold));
    if threshold.None? { return None; }
    var t := threshold.value;
    if t == 0.0 { t := DefaultThreshold; }
    if t < 0.0 || t > 1.0 { return None; }
    out := Some(m[KeyThreshold := NumberValue(t)]);
  }

  method OpenRounds(given: Values, m: Values) returns (out: Option<Values>)
    ensures out.Some? <==> NumberOf(At(given, KeyMaxRounds)).Some?
    ensures out.Some? ==>
              SameBut(m, out.value, {KeyMaxRounds}) &&
              Truncated(NumberAt(out.value, KeyMaxRounds)) == Truncated(OrDefault(NumberAt(given, KeyMaxRounds), DefaultRounds))
  {
    var rounds := NumberOf(At(given, KeyMaxRounds));
    if rounds.None? { return None; }
    var n := rounds.value;
    if n == 0.0 { n := DefaultRounds; }
    out := Some(m[KeyMaxRounds := NumberValue(Truncated(n) as real)]);
    WholeTruncated(Truncated(n));
  }

  lemma WholeTruncated(n: int)
    ensures Truncated(n as real) == n
  {
    if n < 0 { assert -(n as real) == (-n) as real; }
  }

  method OpenDeadline(given: Values, m: Values, now: int, texts: Texts) returns (out: Option<Values>)
    requires texts.Inverse() && At(m, KeyDeadline).NilValue?
    ensures out.Some? <==> LengthOf(At(given, KeyMaxDuration), texts).Some?
    ensures out.Some? ==>
              var length := LengthOf(At(given, KeyMaxDuration), texts).value;
              SameBut(m, out.value, {KeyDeadline}) &&
              DeadlineOf(out.value, texts.parse) == if length > 0 then Some(now + length) else None
  {
    var length := OpenLength(At(given, KeyMaxDuration), texts);
    if length.None? { return None; }
    out := Some(m);
    if length.value > 0 { out := Some(m[KeyDeadline := TextValue(texts.format(now + length.value))]); }
  }

  method CopyTexts(given: Values, m: Values) returns (out: Values)
    requires At(m, KeyGate).NilValue? && At(m, KeyTransition).NilValue? && At(m, KeyChair).NilValue?
    ensures SameBut(m, out, {KeyGate, KeyTransition, KeyChair})
    ensures TextOf(At(out, KeyGate)) == TextOf(At(given, KeyGate)) && TextOf(At(out, KeyTransition)) == TextOf(At(given, KeyTransition))
    ensures TextOf(At(out, KeyChair)) == TextOf(At(given, KeyChair))
  {
    out := m;
    var keys := [KeyGate, KeyTransition, KeyChair];
    for i := 0 to |keys|
      invariant SameBut(m, out, {KeyGate, KeyTransition, KeyChair})
      invariant forall j :: 0 <= j < i ==> TextOf(At(out, keys[j])) == TextOf(At(given, keys[j]))
      invariant forall j :: i <= j < |keys| ==> At(out, keys[j]).NilValue?
    {
      var v := At(given, keys[i]);
      if v.TextValue? && v.text != "" { out := out[keys[i] := v]; }
    }
    assert keys[0] == KeyGate && keys[1] == KeyTransition && keys[2] == KeyChair;
  }

  ghost predicate BoardMeans(given: Values, m: Values, out: Values) {
    var board := BoardOf(given);
    SameBut(m, out, {KeyBoard, KeyRule, KeyDecider}) &&
    At(out, KeyBoard) == (if board != [] then NamesValue(board) else NilValue) &&
    At(out, KeyDecider) == (if board != [] then TextValue(DeciderHuman) else At(m, KeyDecider)) &&
    RuleNamed(TextOf(At(out, KeyRule))) == if board == [] then Unanimity else RuleNamed(TextOf(At(given, KeyRule)))
  }

  method OpenBoard(given: Values, m: Values) returns (out: Option<Values>)
    requires At(m, KeyBoard).NilValue? && At(m, KeyRule).NilValue?
    ensures out.Some? <==> BoardGiven(given)
    ensures out.Some? ==> BoardMeans(given, m, out.value)
  {
    var board := ReadNames(At(given, KeyBoard));
    if board.None? { return None; }
    var rule := At(given, KeyRule);
    if board.value == [] {
      return if TextOf(rule) != "" then None else Some(m);
    }
    var q := m[KeyBoard := NamesValue(board.value)][KeyDecider := TextValue(DeciderHuman)];
    if rule.NilValue? || (rule.TextValue? && rule.text == "") {
      out := Some(q[KeyRule := TextValue(RuleUnanimity)]);
    } else if rule.TextValue? && rule.text in {RuleUnanimity, RuleMajority, RuleConsent} {
      out := Some(q[KeyRule := rule]);
    } else {
      out := None;
    }
  }

  ghost predicate AloneMeans(given: Values, now: int, texts: Texts, m: Values)
    requires AloneGiven(given, texts)
  {
    var length := LengthOf(At(given, KeyMaxDuration), texts).value;
    TextOf(At(m, KeyDecider)) == (if TextOf(At(given, KeyDecider)) == DeciderHuman then DeciderHuman else DeciderAgent) &&
    NumberAt(m, KeyThreshold) == OrDefault(NumberAt(given, KeyThreshold), DefaultThreshold) &&
    Truncated(NumberAt(m, KeyMaxRounds)) == Truncated(OrDefault(NumberAt(given, KeyMaxRounds), DefaultRounds)) &&
    DeadlineOf(m, texts.parse) == (if length > 0 then Some(now + length) else None) &&
    SameBut(map[], m, {KeyDecider, KeyThreshold, KeyMaxRounds, KeyDeadline})
  }

  method OpenAlone(given: Values, now: int, texts: Texts) returns (out: Option<Values>)
    requires texts.Inverse()
    ensures out.Some? <==> AloneGiven(given, texts)
    ensures out.Some? ==> AloneMeans(given, now, texts, out.value)
  {
    out := OpenDecider(given, map[]);
    if out.None? { return; }
    out := OpenThreshold(given, out.value);
    if out.None? { return; }
    out := OpenRounds(given, out.value);
    if out.None? { return; }
    out := OpenDeadline(given, out.value, now, texts);
  }

  // The parts of the values, put together.
  lemma PartsMean(given: Values, now: int, texts: Texts, m: Values, n: Values, out: Values)
    requires AloneGiven(given, texts) && AloneMeans(given, now, texts, m)
    requires SameBut(m, n, {KeyGate, KeyTransition, KeyChair}) && TextOf(At(n, KeyChair)) == TextOf(At(given, KeyChair))
    requires BoardMeans(given, n, out)
    ensures PolicyOf(out, texts.parse) == Meant(given, now, texts)
  {
    AloneStands(given, now, texts, m, n, out);
    var p, q := PolicyOf(out, texts.parse), Meant(given, now, texts);
    assert p.human == q.human && p.board == q.board && p.rule == q.rule && p.chair == q.chair;
  }

  // What the board adds leaves the other values as they were.
  lemma AloneStands(given: Values, now: int, texts: Texts, m: Values, n: Values, out: Values)
    requires AloneGiven(given, texts) && AloneMeans(given, now, texts, m)
    requires SameBut(m, n, {KeyGate, KeyTransition, KeyChair}) && SameBut(n, out, {KeyBoard, KeyRule, KeyDecider})
    ensures var p, q := PolicyOf(out, texts.parse), Meant(given, now, texts);
            p.threshold == q.threshold && p.maxRounds == q.maxRounds && p.deadline == q.deadline && p.rounds == 0 && p.votes == map[]
    ensures At(out, KeyChair) == At(n, KeyChair) && At(n, KeyDecider) == At(m, KeyDecider)
  {
    assert At(out, KeyRounds).NilValue? && At(out, KeyVotes).NilValue?;
    assert At(out, KeyThreshold) == At(m, KeyThreshold) && At(out, KeyMaxRounds) == At(m, KeyMaxRounds);
    assert At(out, KeyDeadline) == At(m, KeyDeadline);
  }

  lemma OpenedMeans(given: Values, now: int, texts: Texts, m: Values, n: Values, out: Values)
    requires AloneGiven(given, texts) && AloneMeans(given, now, texts, m)
    requires SameBut(m, n, {KeyGate, KeyTransition, KeyChair}) && TextOf(At(n, KeyChair)) == TextOf(At(given, KeyChair))
    requires BoardMeans(given, n, out)
    ensures PolicyOf(out, texts.parse) == Meant(given, now, texts)
    ensures PolicyOf(StoredAll(out), texts.parse) == Meant(given, now, texts) <==> "" !in BoardOf(given)
  {
    PartsMean(given, now, texts, m, n, out);
    StoredReadsAlike(out, texts.parse);
  }

  lemma OtherTexts(m: Values, out: Values)
    requires SameBut(m, out, {KeyBoard, KeyRule, KeyDecider})
    ensures At(out, KeyGate) == At(m, KeyGate) && At(out, KeyTransition) == At(m, KeyTransition)
  {
  }

  lemma NothingElse(m: Values)
    requires SameBut(map[], m, {KeyDecider, KeyThreshold, KeyMaxRounds, KeyDeadline})
    ensures At(m, KeyGate).NilValue? && At(m, KeyTransition).NilValue? && At(m, KeyChair).NilValue?
    ensures At(m, KeyBoard).NilValue? && At(m, KeyRule).NilValue?
  {
  }

  lemma TextsApart(m: Values, n: Values)
    requires SameBut(m, n, {KeyGate, KeyTransition, KeyChair})
    ensures At(n, KeyBoard) == At(m, KeyBoard) && At(n, KeyRule) == At(m, KeyRule)
  {
  }

  // The values of the opening, all of them known.
  method OpenKnown(given: Values, now: int, texts: Texts) returns (out: Option<Values>)
    requires texts.Inverse()
    ensures out.Some? <==> AloneGiven(given, texts) && BoardGiven(given)
    ensures out.Some? ==> PolicyOf(out.value, texts.parse) == Meant(given, now, texts)
    ensures out.Some? ==>
              (PolicyOf(StoredAll(out.value), texts.parse) == Meant(given, now, texts) <==> "" !in BoardOf(given))
    ensures out.Some? ==> SameTexts(given, out.value)
  {
    var alone := OpenAlone(given, now, texts);
    if alone.None? { return None; }
    NothingElse(alone.value);
    var m := CopyTexts(given, alone.value);
    TextsApart(alone.value, m);
    out := OpenBoard(given, m);
    if out.Some? {
      OpenedMeans(given, now, texts, alone.value, m, out.value);
      OtherTexts(m, out.value);
    }
  }

  // The texts the policy only keeps for its readers.
  predicate SameTexts(given: Values, out: Values) {
    TextOf(At(out, KeyGate)) == TextOf(At(given, KeyGate)) &&
    TextOf(At(out, KeyTransition)) == TextOf(At(given, KeyTransition))
  }

  /** What a point is opened with: the values resolved, or none when one is refused. */
  method Open(given: Values, now: int, texts: Texts) returns (out: Option<Values>)
    requires texts.Inverse()
    ensures out.Some? <==> Acceptable(given, texts)
    ensures out.Some? ==> PolicyOf(out.value, texts.parse) == Meant(given, now, texts)
    ensures out.Some? ==>
              (PolicyOf(StoredAll(out.value), texts.parse) == Meant(given, now, texts) <==> "" !in BoardOf(given))
    ensures out.Some? ==> SameTexts(given, out.value)
  {
    var known := AllKnown(given);
    if !known { return None; }
    out := OpenKnown(given, now, texts);
  }

  // ---- the folding of an event

  lemma VotesReadBack(m: Values, votes: map<string, string>, parse: string -> Option<int>)
    ensures PolicyOf(m[KeyVotes := VotesValue(votes)], parse) == PolicyOf(m, parse).(votes := votes)
  {
  }

  lemma RoundsReadBack(m: Values, rounds: int, parse: string -> Option<int>)
    ensures PolicyOf(m[KeyRounds := NumberValue(rounds as real)], parse) == PolicyOf(m, parse).(rounds := rounds)
  {
    WholeTruncated(rounds);
  }

  method FailRoundIn(m: Values, ghost parse: string -> Option<int>) returns (out: Values)
    ensures PolicyOf(out, parse) == PolicyOf(m, parse).(rounds := PolicyOf(m, parse).rounds + 1)
  {
    var rounds := Truncated(NumberAt(m, KeyRounds)) + 1;
    out := m[KeyRounds := NumberValue(rounds as real)];
    RoundsReadBack(m, rounds, parse);
  }

  method VoteIn(m: Values, e: Event, ghost parse: string -> Option<int>) returns (out: Values)
    requires e.RulePoint?
    ensures PolicyOf(out, parse) == BoardRuled(PolicyOf(m, parse), e).0
  {
    var board, votes, chair := BoardOf(m), VotesOf(At(m, KeyVotes)), TextOf(At(m, KeyChair));
    out := m;
    if chair != "" && e.role == chair && |votes| >= |board| { return; }
    if e.role !in board || (e.role in votes && votes[e.role] != "") { return; }
    out := m[KeyVotes := VotesValue(votes[e.role := e.option])];
    VotesReadBack(m, votes[e.role := e.option], parse);
  }

  /** What an event writes into the values of a point reads as what it makes of the policy. */
  method FoldValues(m: Values, d: Point, e: Event, ghost parse: string -> Option<int>) returns (out: Values)
    requires d.policy == PolicyOf(m, parse)
    ensures PolicyOf(out, parse) == PolicyFolded(d, e).0.policy
  {
    if |BoardOf(m)| > 0 && e.RulePoint? && e.outcome == Decided {
      out := VoteIn(m, e, parse);
    } else if (e.RulePoint? && e.outcome == Undecidable) || (e.RatifyPoint? && !e.accept) {
      out := FailRoundIn(m, parse);
    } else {
      out := m;
    }
  }

  // ---- a board of nobody

  const NobodysBoard: Values := map[KeyBoard := NamesValue([""])]

  /** A point opened with one nameless seat has a board in process, and none once it is read back from the log. */
  lemma NamelessSeatIsLost(parse: string -> Option<int>)
    ensures PolicyOf(NobodysBoard, parse).board == [""]
    ensures PolicyOf(StoredAll(NobodysBoard), parse).board == []
  {
    StoredNames([""]);
  }
}
