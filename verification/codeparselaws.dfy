// What a code text reads as, line by line, and what its print holds (contracts/codetext/codetext.go).
module CodeParseLaws {
  import opened Prelude
  import opened CodeText
  import opened CodeTextLaws

  // ---- one line

  ghost predicate AllOf(s: string, cut: char -> bool) { forall i :: 0 <= i < |s| ==> cut(s[i]) }

  // A text without the spaces around it.
  ghost predicate TrimmedTo(s: string, t: string) {
    (t == [] || (!IsSpace(t[0]) && !IsSpace(t[|t| - 1]))) &&
    exists a: nat :: a + |t| <= |s| && s[a..a + |t|] == t && AllOf(s[..a], IsSpace) && AllOf(s[a + |t|..], IsSpace)
  }

  lemma {:induction false} TrimRightIs(s: string, cut: char -> bool)
    ensures TrimRight(s, cut) <= s && AllOf(s[|TrimRight(s, cut)|..], cut)
    ensures TrimRight(s, cut) == [] || !cut(TrimRight(s, cut)[|TrimRight(s, cut)| - 1])
  {
    if s != [] && cut(s[|s| - 1]) {
      var n := |s| - 1;
      TrimRightIs(s[..n], cut);
      var t := TrimRight(s, cut);
      forall i | 0 <= i < |s[|t|..]| ensures cut(s[|t|..][i]) {
        if |t| + i < n { assert s[..n][|t|..][i] == s[|t|..][i]; }
      }
    }
  }

  lemma {:induction false} TrimLeftIs(s: string, cut: char -> bool)
    ensures |TrimLeft(s, cut)| <= |s| && s[|s| - |TrimLeft(s, cut)|..] == TrimLeft(s, cut)
    ensures AllOf(s[..|s| - |TrimLeft(s, cut)|], cut)
    ensures TrimLeft(s, cut) == [] || !cut(TrimLeft(s, cut)[0])
  {
    if s != [] && cut(s[0]) {
      TrimLeftIs(s[1..], cut);
      var n := |s| - |TrimLeft(s, cut)|;
      assert s[n..] == s[1..][n - 1..];
      forall i | 0 <= i < n ensures cut(s[..n][i]) {
        if i > 0 { assert s[..n][i] == s[1..][..n - 1][i - 1]; }
      }
    }
  }

  lemma TrimSpaceIs(s: string)
    ensures TrimmedTo(s, TrimSpace(s))
  {
    var l := TrimLeft(s, IsSpace);
    TrimLeftIs(s, IsSpace);
    TrimRightIs(l, IsSpace);
    var t, a := TrimSpace(s), |s| - |l|;
    assert s[a..a + |t|] == l[..|t|] == t && s[a + |t|..] == l[|t|..];
  }

  // A line opens a fence of a mark: three of them at least, then an info without backticks after backticks.
  ghost predicate OpensFence(line: string, c: char, n: nat, info: string) {
    (c == '`' || c == '~') && 3 <= n <= |line| && AllOf(line[..n], x => x == c) && (n < |line| ==> line[n] != c) &&
    exists words :: TrimmedTo(line[n..], words) && (c == '`' ==> '`' !in words) && info <= words && ' ' !in info &&
                    (|info| < |words| ==> words[|info|] == ' ')
  }

  lemma FenceIsOpened(line: string)
    ensures var f := Opening(line); f.Some? ==> OpensFence(line, f.value.mark, f.value.n, f.value.info)
    ensures Opening(line).None? ==> forall c, n: nat, info :: !OpensFence(line, c, n, info)
  {
    var f := Opening(line);
    if |line| >= 3 && (line[0] == '`' || line[0] == '~') {
      var k := Leading(line, line[0]);
      TrimSpaceIs(line[k..]);
      forall c, n: nat, info | OpensFence(line, c, n, info) ensures c == line[0] && n == k && f.Some? {
        SameFence(line, c, n, info);
      }
    } else {
      forall c, n: nat, info ensures !OpensFence(line, c, n, info) { OpeningStarts(line, c, n, info); }
    }
  }

  lemma OpeningStarts(line: string, c: char, n: nat, info: string)
    ensures OpensFence(line, c, n, info) ==> |line| >= 3 && line[0] == c && (c == '`' || c == '~')
  {
    if OpensFence(line, c, n, info) { assert line[..n][0] == line[0]; }
  }

  lemma SameFence(line: string, c: char, n: nat, info: string)
    requires OpensFence(line, c, n, info)
    ensures |line| >= 3 && c == line[0] && n == Leading(line, c) && Opening(line).Some?
  {
    OpeningStarts(line, c, n, info);
    var k := Leading(line, c);
    if k < n {
      HeadOf(line, n, k, x => x == c);
      assert false;
    }
    TrimSpaceIs(line[n..]);
    var words :| TrimmedTo(line[n..], words) && (c == '`' ==> '`' !in words);
    TrimmedOnce(line[n..], words, TrimSpace(line[n..]));
  }

  lemma HeadOf(s: string, n: nat, i: nat, cut: char -> bool)
    requires i < n <= |s| && AllOf(s[..n], cut)
    ensures cut(s[i])
  {
    assert s[..n][i] == s[i];
  }

  lemma TailOf(s: string, n: nat, i: nat, cut: char -> bool)
    requires n <= i < |s| && AllOf(s[n..], cut)
    ensures cut(s[i])
  {
    assert s[n..][i - n] == s[i];
  }

  // There is one way to trim a text.
  lemma TrimmedOnce(s: string, t: string, u: string)
    requires TrimmedTo(s, t) && TrimmedTo(s, u)
    ensures t == u
  {
    var a: nat :| a + |t| <= |s| && s[a..a + |t|] == t && AllOf(s[..a], IsSpace) && AllOf(s[a + |t|..], IsSpace);
    var b: nat :| b + |u| <= |s| && s[b..b + |u|] == u && AllOf(s[..b], IsSpace) && AllOf(s[b + |u|..], IsSpace);
    LiesWithin(s, t, a, b, |u|);
    LiesWithin(s, u, b, a, |t|);
    SameSlice(s, t, u, a, b);
  }

  lemma SameSlice(s: string, t: string, u: string, a: nat, b: nat)
    requires a + |t| <= |s| && s[a..a + |t|] == t && b + |u| <= |s| && s[b..b + |u|] == u
    requires t == [] || (b <= a && a + |t| <= b + |u|)
    requires u == [] || (a <= b && b + |u| <= a + |t|)
    ensures t == u
  {
  }

  // What is trimmed lies within any other trimming.
  lemma LiesWithin(s: string, t: string, a: nat, b: nat, n: nat)
    requires t == [] || (!IsSpace(t[0]) && !IsSpace(t[|t| - 1]))
    requires a + |t| <= |s| && s[a..a + |t|] == t
    requires b + n <= |s| && AllOf(s[..b], IsSpace) && AllOf(s[b + n..], IsSpace)
    ensures t == [] || (b <= a && a + |t| <= b + n)
  {
    if t != [] {
      TrimmedFirst(s, t, a, b);
      TrimmedLast(s, t, a, b + n);
    }
  }

  lemma TrimmedFirst(s: string, t: string, a: nat, b: nat)
    requires t != [] && a + |t| <= |s| && s[a..a + |t|] == t && !IsSpace(t[0]) && b <= |s| && AllOf(s[..b], IsSpace)
    ensures b <= a
  {
    assert s[a] == t[0];
    if a < b {
      HeadOf(s, b, a, IsSpace);
      assert false;
    }
  }

  lemma TrimmedLast(s: string, t: string, a: nat, end: nat)
    requires t != [] && a + |t| <= |s| && s[a..a + |t|] == t && !IsSpace(t[|t| - 1]) && end <= |s| && AllOf(s[end..], IsSpace)
    ensures a + |t| <= end
  {
    var k: nat := a + |t| - 1;
    assert s[k] == t[|t| - 1];
    if end <= k {
      TailOf(s, end, k, IsSpace);
      assert false;
    }
  }

  // A line closes a fence: as many marks at least, and blanks after them.
  ghost predicate ClosesFence(line: string, c: char, n: nat) {
    exists m: nat :: n <= m <= |line| && AllOf(line[..m], x => x == c) && AllOf(line[m..], IsBlank)
  }

  lemma FenceIsClosed(line: string, c: char, n: nat)
    requires !IsBlank(c)
    ensures Closes(line, c, n) <==> ClosesFence(line, c, n)
  {
    var t := TrimRight(line, IsBlank);
    TrimRightIs(line, IsBlank);
    assert line[..|t|] == t;
    if Closes(line, c, n) { assert AllOf(line[..|t|], x => x == c); }
    if ClosesFence(line, c, n) {
      var m: nat :| n <= m <= |line| && AllOf(line[..m], x => x == c) && AllOf(line[m..], IsBlank);
      MarksEnd(line, c, m, t);
    }
  }

  lemma LastIsBlank(line: string, m: nat, t: string)
    requires m < |t| && t <= line && AllOf(line[m..], IsBlank)
    ensures IsBlank(t[|t| - 1])
  {
    TailOf(line, m, |t| - 1, IsBlank);
  }

  lemma MarksEnd(line: string, c: char, m: nat, t: string)
    requires !IsBlank(c) && m <= |line| && AllOf(line[..m], x => x == c) && AllOf(line[m..], IsBlank)
    requires t <= line && AllOf(line[|t|..], IsBlank) && (t == [] || !IsBlank(t[|t| - 1]))
    ensures |t| == m && forall i :: 0 <= i < |t| ==> t[i] == c
  {
    if |t| < m {
      HeadOf(line, m, |t|, x => x == c);
      TailOf(line, |t|, |t|, IsBlank);
      assert false;
    }
    if m < |t| {
      LastIsBlank(line, m, t);
      assert false;
    }
    forall i: nat | i < m ensures line[i] == c { HeadOf(line, m, i, x => x == c); }
  }

  // The value of a key: the text in double quotes read as Go reads it, the text in single quotes, or the text.
  ghost predicate ValueIs(val: string, unquote: string -> Option<string>, v: Option<string>) {
    if val != [] && val[0] == '"' then v == unquote(val)
    else if |val| >= 2 && val[0] == '\'' && val[|val| - 1] == '\'' then v.Some? && Halved(val[1..|val| - 1], v.value)
    else v == Some(val)
  }

  // Each pair of single quotes, from the left, is one.
  ghost predicate Halved(s: string, t: string)
    decreases |s|
  {
    if s == [] then t == []
    else if |s| >= 2 && s[0] == s[1] == '\'' then t != [] && t[0] == '\'' && Halved(s[2..], t[1..])
    else t != [] && t[0] == s[0] && Halved(s[1..], t[1..])
  }

  lemma {:induction false} UndoubleHalves(s: string)
    ensures Halved(s, Undouble(s))
    decreases |s|
  {
    if |s| >= 2 && s[0] == '\'' && s[1] == '\'' {
      UndoubleHalves(s[2..]);
    } else if s != [] {
      UndoubleHalves(s[1..]);
    }
  }

  // ---- the lines of the front matter

  // A line that says nothing: blank, or a comment.
  ghost predicate SaysNothing(line: string) { exists t :: TrimmedTo(line, t) && (t == [] || t[0] == '#') }

  // A line split at its first colon, the spaces around both sides left out.
  ghost predicate SplitsAt(line: string, at: nat, key: string, val: string) {
    at < |line| && line[at] == ':' && ':' !in line[..at] && TrimmedTo(line[..at], key) && TrimmedTo(line[at + 1..], val)
  }

  /** A line that is a key and a value. */
  ghost predicate IsPair(line: string, unquote: string -> Option<string>, key: string, v: Option<string>) {
    exists at: nat, val :: SplitsAt(line, at, key, val) && ValidKey(key) && ValueIs(val, unquote, v)
  }

  /** A line that is none: it has no colon, or no key before it. */
  ghost predicate IsNoPair(line: string) { forall at: nat, key, val :: SplitsAt(line, at, key, val) ==> !ValidKey(key) }

  lemma SkippedSaysNothing(line: string)
    ensures Skipped(line) <==> SaysNothing(line)
  {
    TrimSpaceIs(line);
    forall t | TrimmedTo(line, t) ensures t == TrimSpace(line) { TrimmedOnce(line, t, TrimSpace(line)); }
  }

  lemma SplitOnce(line: string, at: nat, key: string, val: string)
    requires SplitsAt(line, at, key, val)
    ensures at == |Before(line, ':')| && key == TrimSpace(Before(line, ':')) && val == TrimSpace(line[at + 1..])
  {
    BeforeFirst(line[..at], ':', line[at + 1..]);
    assert line[..at] + [':'] + line[at + 1..] == line;
    TrimSpaceIs(line[..at]);
    TrimSpaceIs(line[at + 1..]);
    TrimmedOnce(line[..at], key, TrimSpace(line[..at]));
    TrimmedOnce(line[at + 1..], val, TrimSpace(line[at + 1..]));
  }

  lemma Splits(line: string)
    requires |Before(line, ':')| < |line|
    ensures var at := |Before(line, ':')|; SplitsAt(line, at, TrimSpace(Before(line, ':')), TrimSpace(line[at + 1..]))
  {
    var at := |Before(line, ':')|;
    assert line[..at] == Before(line, ':');
    TrimSpaceIs(line[..at]);
    TrimSpaceIs(line[at + 1..]);
  }

  lemma ValueIsRead(val: string, unquote: string -> Option<string>)
    ensures ValueIs(val, unquote, ReadValue(val, unquote))
  {
    if |val| >= 2 { UndoubleHalves(val[1..|val| - 1]); }
  }

  /** What a line reads as: a pair, or the error of its number. */
  ghost predicate LineReads(line: string, i: nat, unquote: string -> Option<string>, r: Result<(string, string)>) {
    match r
    case Ok((key, val)) => IsPair(line, unquote, key, Some(val))
    case Err(BadLine(n)) => n == i + 1 && IsNoPair(line)
    case Err(BadQuotes(n)) => n == i + 1 && exists key :: IsPair(line, unquote, key, None)
    case Err(_) => false
  }

  lemma LineIsRead(line: string, i: nat, unquote: string -> Option<string>)
    ensures LineReads(line, i, unquote, ReadPair(line, i, unquote))
  {
    var before := Before(line, ':');
    var key := TrimSpace(before);
    if |before| < |line| && ValidKey(key) {
      var v := ReadValue(TrimSpace(line[|before| + 1..]), unquote);
      PairIsRead(line, unquote);
      PairReads(line, i, unquote, key, v, ReadPair(line, i, unquote));
    } else {
      NoPairIsRead(line);
      assert ReadPair(line, i, unquote) == Err(BadLine(i + 1));
    }
  }

  lemma PairReads(line: string, i: nat, unquote: string -> Option<string>, key: string, v: Option<string>, r: Result<(string, string)>)
    requires IsPair(line, unquote, key, v) && r == if v.Some? then Ok((key, v.value)) else Err(BadQuotes(i + 1))
    ensures LineReads(line, i, unquote, r)
  {
  }

  lemma PairIsRead(line: string, unquote: string -> Option<string>)
    requires |Before(line, ':')| < |line| && ValidKey(TrimSpace(Before(line, ':')))
    ensures var before := Before(line, ':');
      IsPair(line, unquote, TrimSpace(before), ReadValue(TrimSpace(line[|before| + 1..]), unquote))
  {
    var at := |Before(line, ':')|;
    Splits(line);
    ValueIsRead(TrimSpace(line[at + 1..]), unquote);
    assert SplitsAt(line, at, TrimSpace(Before(line, ':')), TrimSpace(line[at + 1..]));
  }

  lemma NoPairIsRead(line: string)
    requires |Before(line, ':')| == |line| || !ValidKey(TrimSpace(Before(line, ':')))
    ensures IsNoPair(line)
  {
    forall at: nat, key, val | SplitsAt(line, at, key, val) ensures !ValidKey(key) { SplitOnce(line, at, key, val); }
  }

  // ---- the front matter

  /** What a line of the front matter is. */
  datatype Line = RuleLine | NothingLine | Pair(key: string, val: string) | NoPair | NoValue

  ghost predicate LineIs(line: string, unquote: string -> Option<string>, l: Line) {
    if line == "---" then l == RuleLine
    else if SaysNothing(line) then l == NothingLine
    else match l
      case Pair(key, val) => IsPair(line, unquote, key, Some(val))
      case NoPair => IsNoPair(line)
      case NoValue => exists key :: IsPair(line, unquote, key, None)
      case _ => false
  }

  ghost predicate LinesAre(lines: seq<string>, unquote: string -> Option<string>, ls: seq<Line>) {
    |ls| == |lines| && forall i :: 0 <= i < |lines| ==> LineIs(lines[i], unquote, ls[i])
  }

  ghost predicate KeyAt(ls: seq<Line>, j: nat, key: string) { 1 <= j < |ls| && ls[j].Pair? && ls[j].key == key }

  ghost predicate LastKey(ls: seq<Line>, n: nat, key: string, j: nat) {
    j < n && KeyAt(ls, j, key) && forall k: nat :: j < k < n ==> !KeyAt(ls, k, key)
  }

  // The value of a key is that of the last line that gives it, none when no line does.
  ghost predicate KeySays(ls: seq<Line>, n: nat, key: string, v: Option<string>) {
    if v.None? then forall j: nat :: j < n ==> !KeyAt(ls, j, key)
    else exists j: nat :: LastKey(ls, n, key, j) && ls[j].val == v.value
  }

  /** The language is the value of its key, and the other keys are kept. */
  ghost predicate ReadSays(ls: seq<Line>, n: nat, v: Value) {
    v.code == "" && LanguageSays(ls, n, v.language) && "language" !in v.meta &&
    forall key :: key != "language" ==> KeySays(ls, n, key, Lookup(v.meta, key))
  }

  ghost predicate LanguageSays(ls: seq<Line>, n: nat, language: string) {
    (language == "" && KeySays(ls, n, "language", None)) || KeySays(ls, n, "language", Some(language))
  }

  // The lines after the first one read: they say nothing or are pairs.
  ghost predicate FineTo(ls: seq<Line>, n: nat) {
    forall k :: 1 <= k < n && k < |ls| ==> ls[k].NothingLine? || ls[k].Pair?
  }

  /**
   * The front matter runs to the first rule after the first line, all the lines between reading; it is not closed when there
   * is none, and it has the error of its first line that does not read.
   */
  ghost predicate FrontSays(ls: seq<Line>, r: Result<(nat, Value)>) {
    match r
    case Ok((next, v)) => exists end: nat :: ClosedAt(ls, end) && end + 1 == next && ReadSays(ls, end, v)
    case Err(NotClosed) => FineTo(ls, |ls|)
    case Err(BadLine(n)) => 1 < n <= |ls| && ls[n - 1].NoPair? && FineTo(ls, n - 1)
    case Err(BadQuotes(n)) => 1 < n <= |ls| && ls[n - 1].NoValue? && FineTo(ls, n - 1)
    case Err(TextAfterBlock) => false
  }

  ghost predicate ClosedAt(ls: seq<Line>, end: nat) { 1 <= end < |ls| && ls[end].RuleLine? && FineTo(ls, end) }

  lemma KeyMore(ls: seq<Line>, n: nat, next: nat, key: string, v: Option<string>)
    requires next == n + 1 && KeySays(ls, n, key, v) && !KeyAt(ls, n, key)
    ensures KeySays(ls, next, key, v)
  {
    if v.Some? {
      var j: nat :| LastKey(ls, n, key, j) && ls[j].val == v.value;
      assert LastKey(ls, next, key, j);
    }
  }

  lemma KeyNow(ls: seq<Line>, n: nat, next: nat, key: string)
    requires next == n + 1 && KeyAt(ls, n, key)
    ensures KeySays(ls, next, key, Some(ls[n].val))
  {
    assert LastKey(ls, next, key, n);
  }

  lemma ReadMore(ls: seq<Line>, n: nat, next: nat, v: Value)
    requires 1 <= n < |ls| && next == n + 1 && ReadSays(ls, n, v) && ls[n].Pair?
    ensures ReadSays(ls, next, With(v, ls[n].key, ls[n].val))
  {
    var key := ls[n].key;
    var now := With(v, key, ls[n].val);
    KeyNow(ls, n, next, key);
    forall k | k != "language" ensures KeySays(ls, next, k, Lookup(now.meta, k)) {
      if k != key { KeyMore(ls, n, next, k, Lookup(v.meta, k)); }
    }
    if key != "language" { LanguageMore(ls, n, next, v.language); }
  }

  lemma LanguageMore(ls: seq<Line>, n: nat, next: nat, language: string)
    requires next == n + 1 && LanguageSays(ls, n, language) && !KeyAt(ls, n, "language")
    ensures LanguageSays(ls, next, language)
  {
    if language == "" && KeySays(ls, n, "language", None) {
      KeyMore(ls, n, next, "language", None);
    } else {
      KeyMore(ls, n, next, "language", Some(language));
    }
  }

  lemma ReadOn(ls: seq<Line>, n: nat, next: nat, v: Value)
    requires 1 <= n < |ls| && next == n + 1 && ReadSays(ls, n, v) && ls[n].NothingLine?
    ensures ReadSays(ls, next, v)
  {
    forall k | k != "language" ensures KeySays(ls, next, k, Lookup(v.meta, k)) { KeyMore(ls, n, next, k, Lookup(v.meta, k)); }
    LanguageMore(ls, n, next, v.language);
  }

  // What the parser makes of a line.
  function LineOf(line: string, unquote: string -> Option<string>): Line {
    if line == Rule then RuleLine
    else if Skipped(line) then NothingLine
    else match ReadPair(line, 0, unquote)
      case Ok((key, val)) => Pair(key, val)
      case Err(BadQuotes(_)) => NoValue
      case Err(_) => NoPair
  }

  function LinesOf(lines: seq<string>, unquote: string -> Option<string>): (ls: seq<Line>)
    ensures |ls| == |lines| && forall i :: 0 <= i < |lines| ==> ls[i] == LineOf(lines[i], unquote)
  {
    seq(|lines|, i requires 0 <= i < |lines| => LineOf(lines[i], unquote))
  }

  lemma LineOfIs(line: string, unquote: string -> Option<string>)
    ensures LineIs(line, unquote, LineOf(line, unquote))
  {
    SkippedSaysNothing(line);
    LineIsRead(line, 0, unquote);
  }

  /** Every line is one of these, and the parser finds which. */
  lemma LinesOfAre(lines: seq<string>, unquote: string -> Option<string>)
    ensures LinesAre(lines, unquote, LinesOf(lines, unquote))
  {
    forall i | 0 <= i < |lines| ensures LineIs(lines[i], unquote, LinesOf(lines, unquote)[i]) { LineOfIs(lines[i], unquote); }
  }

  // One line of the front matter, by what it is.
  lemma FrontNext(lines: seq<string>, i: nat, v: Value, unquote: string -> Option<string>)
    requires i < |lines|
    ensures Front(lines, i, v, unquote) == match LineOf(lines[i], unquote)
      case RuleLine => Ok((i + 1, v))
      case NothingLine => Front(lines, i + 1, v, unquote)
      case Pair(key, val) => Front(lines, i + 1, With(v, key, val), unquote)
      case NoPair => Err(BadLine(i + 1))
      case NoValue => Err(BadQuotes(i + 1))
  {
  }

  lemma {:induction false} FrontIsSaid(lines: seq<string>, i: nat, v: Value, unquote: string -> Option<string>, ls: seq<Line>)
    requires ls == LinesOf(lines, unquote) && 1 <= i <= |lines| && FineTo(ls, i) && ReadSays(ls, i, v)
    ensures FrontSays(ls, Front(lines, i, v, unquote))
    decreases |lines| - i
  {
    if i < |lines| {
      var next := i + 1;
      if ls[i].NothingLine? || ls[i].Pair? {
        var w := ReadNext(ls, i, next, v);
        FrontIsSaid(lines, next, w, unquote, ls);
      }
      FrontGoes(lines, i, next, v, unquote, ls);
    } else {
      assert Front(lines, i, v, unquote) == Err(NotClosed);
    }
  }

  // What is read after a line that reads.
  lemma ReadNext(ls: seq<Line>, i: nat, next: nat, v: Value) returns (w: Value)
    requires 1 <= i < |ls| && next == i + 1 && FineTo(ls, i) && ReadSays(ls, i, v) && (ls[i].NothingLine? || ls[i].Pair?)
    ensures FineTo(ls, next) && ReadSays(ls, next, w)
    ensures w == if ls[i].Pair? then With(v, ls[i].key, ls[i].val) else v
  {
    if ls[i].Pair? {
      ReadMore(ls, i, next, v);
      w := With(v, ls[i].key, ls[i].val);
    } else {
      ReadOn(ls, i, next, v);
      w := v;
    }
  }

  lemma FrontGoes(lines: seq<string>, i: nat, next: nat, v: Value, unquote: string -> Option<string>, ls: seq<Line>)
    requires ls == LinesOf(lines, unquote) && 1 <= i < |lines| && next == i + 1 && FineTo(ls, i) && ReadSays(ls, i, v)
    requires ls[i].NothingLine? ==> FrontSays(ls, Front(lines, next, v, unquote))
    requires ls[i].Pair? ==> FrontSays(ls, Front(lines, next, With(v, ls[i].key, ls[i].val), unquote))
    ensures FrontSays(ls, Front(lines, i, v, unquote))
  {
    FrontNext(lines, i, v, unquote);
    if !ls[i].NothingLine? && !ls[i].Pair? { FrontStops(ls, i, v, Front(lines, i, v, unquote)); }
  }

  lemma FrontStops(ls: seq<Line>, i: nat, v: Value, r: Result<(nat, Value)>)
    requires 1 <= i < |ls| && FineTo(ls, i) && ReadSays(ls, i, v)
    requires (ls[i].RuleLine? && r == Ok((i + 1, v))) || (ls[i].NoPair? && r == Err(BadLine(i + 1))) ||
             (ls[i].NoValue? && r == Err(BadQuotes(i + 1)))
    ensures FrontSays(ls, r)
  {
    if ls[i].RuleLine? { assert ClosedAt(ls, i); }
  }

  // ---- the block

  // The line is blank, or it is the last one.
  ghost predicate BlankLine(line: string) { forall i :: 0 <= i < |line| ==> IsSpace(line[i]) }

  // Where the block starts: the first line that is not blank, the last line when all are.
  ghost predicate StartsAt(lines: seq<string>, from: nat, j: nat) {
    from <= j && (forall k :: from <= k < j && k < |lines| ==> k < |lines| - 1 && BlankLine(lines[k])) &&
    (j < |lines| - 1 ==> !BlankLine(lines[j])) && (from < |lines| ==> j < |lines|) && (from >= |lines| ==> j == from)
  }

  // The first line that closes a fence after its opening, past the end when none does.
  ghost predicate EndsAt(rest: seq<string>, c: char, n: nat, end: nat) {
    1 <= end <= |rest| && (forall k :: 1 <= k < end ==> !ClosesFence(rest[k], c, n)) &&
    (end < |rest| ==> ClosesFence(rest[end], c, n))
  }

  /**
   * A block that opens no fence is code as it is; else its code lies between the fences, or runs to the end when no line
   * closes the fence, its info naming a language that was not; text after the closing fence is an error.
   */
  ghost predicate BlockSays(rest: seq<string>, v: Value, r: Result<Value>)
    requires rest != []
  {
    if exists c, n: nat, info :: OpensFence(rest[0], c, n, info)
    then exists c, n: nat, info :: OpensFence(rest[0], c, n, info) &&
           FencedSays(rest, c, n, v.(language := if v.language == "" then info else v.language), r)
    else r == Ok(v.(code := Join(rest)))
  }

  ghost predicate FencedSays(rest: seq<string>, c: char, n: nat, v: Value, r: Result<Value>) {
    exists end: nat :: EndsAt(rest, c, n, end) &&
      if end < |rest| && exists k :: end < k < |rest| && !BlankLine(rest[k]) then r == Err(TextAfterBlock)
      else r == Ok(v.(code := Join(rest[1..end])))
  }

  lemma {:induction false} BlankIsTrimmed(s: string)
    ensures TrimSpace(s) == "" <==> BlankLine(s)
  {
    TrimSpaceIs(s);
    if TrimSpace(s) == "" {
      var a: nat :| a <= |s| && AllOf(s[..a], IsSpace) && AllOf(s[a..], IsSpace);
      forall i: nat | i < |s| ensures IsSpace(s[i]) {
        if i < a { HeadOf(s, a, i, IsSpace); } else { TailOf(s, a, i, IsSpace); }
      }
    } else {
      NotBlank(s, TrimSpace(s));
    }
  }

  lemma NotBlank(s: string, t: string)
    requires TrimmedTo(s, t) && t != ""
    ensures !BlankLine(s)
  {
    var a: nat :| a + |t| <= |s| && s[a..a + |t|] == t && AllOf(s[..a], IsSpace) && AllOf(s[a + |t|..], IsSpace);
    assert s[a] == s[a..a + |t|][0];
  }

  lemma {:induction false} JoinBlank(lines: seq<string>)
    ensures BlankLine(Join(lines)) <==> forall k :: 0 <= k < |lines| ==> BlankLine(lines[k])
  {
    if |lines| > 1 {
      JoinBlank(lines[1..]);
      var head, tail := lines[0], Join(lines[1..]);
      assert Join(lines) == head + "\n" + tail;
      BlankParts(head, tail);
      forall k | 0 < k < |lines| ensures lines[k] == lines[1..][k - 1] { }
      if forall k :: 0 <= k < |lines[1..]| ==> BlankLine(lines[1..][k]) {
        forall k | 0 < k < |lines| ensures BlankLine(lines[k]) { assert lines[k] == lines[1..][k - 1]; }
      }
      if forall k :: 0 <= k < |lines| ==> BlankLine(lines[k]) {
        forall k | 0 <= k < |lines[1..]| ensures BlankLine(lines[1..][k]) { assert lines[1..][k] == lines[k + 1]; }
      }
    }
  }

  lemma BlankParts(head: string, tail: string)
    ensures BlankLine(head + "\n" + tail) <==> BlankLine(head) && BlankLine(tail)
  {
    var s := head + "\n" + tail;
    if BlankLine(s) {
      forall i | 0 <= i < |head| ensures IsSpace(head[i]) { assert s[i] == head[i]; }
      forall i | 0 <= i < |tail| ensures IsSpace(tail[i]) { assert s[|head| + 1 + i] == tail[i]; }
    }
    if BlankLine(head) && BlankLine(tail) {
      forall i | 0 <= i < |s| ensures IsSpace(s[i]) {
        if i > |head| { assert s[i] == tail[i - |head| - 1]; }
      }
    }
  }

  lemma {:induction false} SkipBlankIs(lines: seq<string>, from: nat, i: nat)
    requires from <= i && forall k :: from <= k < i && k < |lines| ==> k < |lines| - 1 && BlankLine(lines[k])
    requires (from < |lines| ==> i < |lines|) && (from >= |lines| ==> i == from)
    ensures StartsAt(lines, from, SkipBlank(lines, i))
    decreases |lines| - i
  {
    if i < |lines| - 1 {
      BlankIsTrimmed(lines[i]);
      if TrimSpace(lines[i]) == "" { SkipBlankIs(lines, from, i + 1); }
    }
  }

  lemma {:induction false} ClosingIs(rest: seq<string>, j: nat, c: char, n: nat)
    requires 1 <= j <= |rest| && !IsBlank(c) && forall k :: 1 <= k < j ==> !ClosesFence(rest[k], c, n)
    ensures EndsAt(rest, c, n, Closing(rest, j, c, n))
    decreases |rest| - j
  {
    if j < |rest| {
      FenceIsClosed(rest[j], c, n);
      if !Closes(rest[j], c, n) { ClosingIs(rest, j + 1, c, n); }
    }
  }

  lemma FencedIsSaid(rest: seq<string>, c: char, n: nat, v: Value, r: Result<Value>)
    requires rest != [] && (c == '`' || c == '~')
    requires var end := Closing(rest, 1, c, n);
      r == if end == |rest| then Ok(v.(code := Join(rest[1..])))
           else if TrimSpace(Join(rest[end + 1..])) != "" then Err(TextAfterBlock)
           else Ok(v.(code := Join(rest[1..end])))
    ensures FencedSays(rest, c, n, v, r)
  {
    var end := Closing(rest, 1, c, n);
    ClosingIs(rest, 1, c, n);
    if end < |rest| {
      var after := rest[end + 1..];
      BlankIsTrimmed(Join(after));
      JoinBlank(after);
      forall k | end < k < |rest| ensures rest[k] == after[k - end - 1] { }
      forall k | 0 <= k < |after| ensures after[k] == rest[k + end + 1] { }
    } else {
      assert rest[1..end] == rest[1..];
    }
  }

  lemma BlockIsSaid(rest: seq<string>, v: Value)
    requires rest != []
    ensures BlockSays(rest, v, ReadBlock(rest, v))
  {
    FenceIsOpened(rest[0]);
    var f := Opening(rest[0]);
    if f.Some? { FencedBlock(rest, v, f.value.mark, f.value.n, f.value.info); }
  }

  lemma FencedBlock(rest: seq<string>, v: Value, c: char, n: nat, info: string)
    requires rest != [] && Opening(rest[0]) == Some(Fence(c, n, info)) && OpensFence(rest[0], c, n, info)
    ensures BlockSays(rest, v, ReadBlock(rest, v))
  {
    FencedRead(rest, v, c, n, info);
    FencedGives(rest, v, c, n, info, ReadBlock(rest, v));
  }

  lemma FencedRead(rest: seq<string>, v: Value, c: char, n: nat, info: string)
    requires rest != [] && Opening(rest[0]) == Some(Fence(c, n, info)) && (c == '`' || c == '~')
    ensures FencedSays(rest, c, n, v.(language := if v.language == "" then info else v.language), ReadBlock(rest, v))
  {
    var w := v.(language := if v.language == "" then info else v.language);
    var end, r := Closing(rest, 1, c, n), ReadBlock(rest, v);
    assert r == if end == |rest| then Ok(w.(code := Join(rest[1..])))
                else if TrimSpace(Join(rest[end + 1..])) != "" then Err(TextAfterBlock)
                else Ok(w.(code := Join(rest[1..end])));
    FencedIsSaid(rest, c, n, w, r);
  }

  lemma FencedGives(rest: seq<string>, v: Value, c: char, n: nat, info: string, r: Result<Value>)
    requires rest != [] && OpensFence(rest[0], c, n, info)
    requires FencedSays(rest, c, n, v.(language := if v.language == "" then info else v.language), r)
    ensures BlockSays(rest, v, r)
  {
  }

  // ---- a text

  /** A text reads as its front matter, when it starts with one, and the block after it. */
  ghost predicate ParseSays(lines: seq<string>, ls: seq<Line>, r: Result<Value>)
    requires lines != []
  {
    if lines[0] != "---" then BlockSays(lines, Value("", map[], ""), r)
    else exists front :: FrontSays(ls, front) && AfterFront(lines, front, r)
  }

  ghost predicate AfterFront(lines: seq<string>, front: Result<(nat, Value)>, r: Result<Value>) {
    match front
    case Err(e) => r == Err(e)
    case Ok((next, v)) => exists j: nat :: StartsAt(lines, next, j) && if j >= |lines| then r == Ok(v) else BlockSays(lines[j..], v, r)
  }

  /** What any text reads as: the value its lines say, or the error of the line that has it. */
  lemma ParseIsItsLines(lines: seq<string>, unquote: string -> Option<string>)
    requires lines != []
    ensures LinesAre(lines, unquote, LinesOf(lines, unquote))
    ensures ParseSays(lines, LinesOf(lines, unquote), Parsed(lines, unquote))
  {
    LinesOfAre(lines, unquote);
    if lines[0] != Rule {
      BlockIsSaid(lines, Unread);
    } else {
      var ls, front := LinesOf(lines, unquote), Front(lines, 1, Unread, unquote);
      FrontIsSaid(lines, 1, Unread, unquote, ls);
      if front.Ok? {
        var j := SkipBlank(lines, front.value.0);
        SkipBlankIs(lines, front.value.0, front.value.0);
        if j < |lines| { BlockIsSaid(lines[j..], front.value.1); }
      }
      assert AfterFront(lines, front, Parsed(lines, unquote));
    }
  }

  // ---- what is printed

  // A value that would not read back as it is: empty, with spaces around it, or with a character of the format.
  predicate IsOdd(v: string) {
    v == "" || IsSpace(v[0]) || IsSpace(v[|v| - 1]) || v[0] == '\'' ||
    exists i :: 0 <= i < |v| && (v[i] == '\n' || v[i] == '\r' || v[i] == '"' || v[i] == '#')
  }

  // Any other value is printed as it is.
  lemma PlainValues(k: string, v: string, quote: string -> string)
    ensures PairLine(k, v, quote) == k + ": " + if IsOdd(v) then quote(v) else v
  {
    if v != "" { EdgesAreTrimmed(v); }
    assert NeedsQuotes(v) <==> IsOdd(v);
  }

  lemma EdgesAreTrimmed(v: string)
    requires v != ""
    ensures TrimSpace(v) == v <==> !IsSpace(v[0]) && !IsSpace(v[|v| - 1])
  {
    TrimSpaceIs(v);
    if !IsSpace(v[0]) && !IsSpace(v[|v| - 1]) {
      assert v[0..0 + |v|] == v && v[..0] == [] && v[0 + |v|..] == [];
      assert TrimmedTo(v, v);
      TrimmedOnce(v, v, TrimSpace(v));
    }
  }

  // So many backticks stand in a row.
  ghost predicate RunAt(s: string, a: nat, n: nat) { a + n <= |s| && forall i :: a <= i < a + n ==> s[i] == '`' }

  lemma {:induction false} LongestIsThere(s: string) returns (a: nat)
    ensures RunAt(s, a, LongestRun(s))
  {
    if s == [] {
      a := 0;
    } else {
      var n := |s| - 1;
      a := LongestIsThere(s[..n]);
      if EndRun(s) > LongestRun(s[..n]) {
        a := |s| - EndRun(s);
        EndRunIsThere(s);
      }
    }
  }

  lemma {:induction false} EndRunIsThere(s: string)
    ensures RunAt(s, |s| - EndRun(s), EndRun(s))
  {
    if s != [] && s[|s| - 1] == '`' { EndRunIsThere(s[..|s| - 1]); }
  }

  ghost predicate HoldsRun(s: string, n: nat) { exists a: nat :: RunAt(s, a, n) }

  /** The fence of a code is the shortest of three backticks or more that the code does not hold. */
  lemma FenceIsShortest(code: string)
    ensures |FenceOf(code)| >= 3 && FenceOf(code) == Ticks(|FenceOf(code)|)
    ensures !HoldsRun(code, |FenceOf(code)|) && (|FenceOf(code)| > 3 ==> HoldsRun(code, |FenceOf(code)| - 1))
  {
    var n := |FenceOf(code)|;
    var a := LongestIsThere(code);
    forall b: nat ensures !RunAt(code, b, n) {
      if RunAt(code, b, n) { RunIsBounded(code, b, n); }
    }
  }

  // The language follows the fence when it is one word, without a backtick.
  predicate OneWord(language: string) { forall i :: 0 <= i < |language| ==> language[i] !in [' ', '\t', '`', '\n'] }

  // Keys in order, those of the front matter but the language.
  ghost predicate KeysSay(meta: map<string, string>, keys: seq<string>) {
    (forall i, j :: 0 <= i < j < |keys| ==> Leq(keys[i], keys[j]) && keys[i] != keys[j]) &&
    forall k :: k in keys <==> k in meta && k != "language" && ValidKey(k)
  }

  // The code without one final newline, by lines, none when there is no text.
  ghost predicate CodeSays(code: string, lines: seq<string>) {
    var text := if code != "" && code[|code| - 1] == '\n' then code[..|code| - 1] else code;
    (text == "" <==> lines == []) && Join(lines) == text && forall i :: 0 <= i < |lines| ==> '\n' !in lines[i]
  }

  /** The print of a value: its front matter between rules, the language first, then its code between two fences. */
  ghost predicate PrintSays(v: Value, quote: string -> string, keys: seq<string>, code: seq<string>, lines: seq<string>) {
    KeysSay(v.meta, keys) && CodeSays(v.code, code) &&
    var head := if v.language == "" then ["---"] else ["---", PairLine("language", v.language, quote)];
    var block := [FenceOf(v.code) + if OneWord(v.language) then v.language else ""] + code + [FenceOf(v.code)];
    lines == head + PairLines(keys, v.meta, quote) + ["---"] + block
  }

  lemma PrintIsSaid(v: Value, quote: string -> string)
    ensures PrintSays(v, quote, SortedKeys(KeptKeys(v.meta)), CodeLines(v.code), FrontLines(v, quote) + BlockLines(v))
  {
    var keys := SortedKeys(KeptKeys(v.meta));
    SortedAscend(KeptKeys(v.meta));
    CodeIsSaid(v.code);
    HeadIsSaid(v, quote);
    assert InfoOf(v.language) == if OneWord(v.language) then v.language else "";
  }

  lemma HeadIsSaid(v: Value, quote: string -> string)
    ensures HeadLines(v, quote) == if v.language == "" then ["---"] else ["---", PairLine("language", v.language, quote)]
  {
  }

  lemma CodeIsSaid(code: string)
    ensures CodeSays(code, CodeLines(code))
  {
    var text := TrimNewline(code);
    if text != "" {
      LinesHaveNoNewline(text);
      TextOfLines(text);
      TextIsJoined(Lines(text));
      var joined := Join(Lines(text));
      assert (joined + "\n")[..|joined|] == joined && (text + "\n")[..|text|] == text;
    }
  }
}
