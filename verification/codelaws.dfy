// Parsing what was printed (contracts/codetext/codetext.go): the same value, up to what the printer leaves out.
module CodeTextLaws {
  import opened Prelude
  import opened CodeText

  // What strconv.Quote and strconv.Unquote promise of each other.
  ghost predicate Faithful(quote: string -> string, unquote: string -> Option<string>) {
    forall v: string ::
      var q := quote(v);
      unquote(q) == Some(v) && |q| >= 2 && q[0] == '"' && q[|q| - 1] == '"' && '\n' !in q && '\r' !in q
  }

  // The code as it reads back: one final newline dropped, line ends as \n.
  function Normal(code: string): string {
    var u := Unix(TrimNewline(code) + "\n");
    if u == [] then [] else u[..|u| - 1]
  }

  function KeptMeta(meta: map<string, string>): map<string, string> { map k | k in meta && Kept(k) :: meta[k] }

  // ---- lines

  lemma UnixOne(c: char, t: string)
    requires c != '\r' || t == [] || t[0] != '\n'
    ensures Unix([c] + t) == [c] + Unix(t)
  {
    assert ([c] + t)[1..] == t;
  }

  lemma UnixChar(line: string, t: string)
    requires '\n' !in line && line != [] && line != "\r"
    ensures Unix(line + "\n" + t) == [line[0]] + Unix(line[1..] + "\n" + t)
    ensures StripReturn(line) == [line[0]] + StripReturn(line[1..])
  {
    var rest := line[1..] + "\n" + t;
    assert line + "\n" + t == [line[0]] + rest;
    UnixOne(line[0], rest);
  }

  lemma UnixLineEnd(line: string, t: string)
    requires line == [] || line == "\r"
    ensures Unix(line + "\n" + t) == StripReturn(line) + "\n" + Unix(t)
  {
    var s := line + "\n" + t;
    assert s[|line| + 1..] == t;
  }

  lemma {:induction false} UnixLine(line: string, t: string)
    requires '\n' !in line
    ensures Unix(line + "\n" + t) == StripReturn(line) + "\n" + Unix(t)
  {
    if line == [] || line == "\r" {
      UnixLineEnd(line, t);
    } else {
      UnixLine(line[1..], t);
      UnixChar(line, t);
      var stripped := StripReturn(line[1..]);
      assert [line[0]] + (stripped + "\n" + Unix(t)) == [line[0]] + stripped + "\n" + Unix(t);
    }
  }

  lemma {:induction false} LinesOfLine(line: string, t: string)
    requires '\n' !in line
    ensures Lines(line + "\n" + t) == [line] + Lines(t)
  {
    var s := line + "\n" + t;
    if line == [] {
      assert s[1..] == t;
    } else {
      LinesOfLine(line[1..], t);
      assert s[1..] == line[1..] + "\n" + t;
      assert line == [line[0]] + line[1..];
      assert ([line[1..]] + Lines(t))[1..] == Lines(t);
    }
  }

  ghost predicate NoNewline(lines: seq<string>) { forall i :: 0 <= i < |lines| ==> '\n' !in lines[i] }

  lemma {:induction false} UnixText(lines: seq<string>)
    requires NoNewline(lines)
    ensures Unix(Text(lines)) == Text(StripReturns(lines))
  {
    if lines != [] {
      UnixLine(lines[0], Text(lines[1..]));
      UnixText(lines[1..]);
      assert StripReturns(lines)[1..] == StripReturns(lines[1..]);
    }
  }

  lemma {:induction false} LinesOfText(lines: seq<string>)
    requires NoNewline(lines)
    ensures Lines(Text(lines)) == lines + [""]
  {
    if lines != [] {
      LinesOfLine(lines[0], Text(lines[1..]));
      LinesOfText(lines[1..]);
      assert lines == [lines[0]] + lines[1..];
      assert [lines[0]] + (lines[1..] + [""]) == ([lines[0]] + lines[1..]) + [""];
    }
  }

  /** A printed text splits back into its lines, each without its final carriage return. */
  lemma PrintedLines(lines: seq<string>)
    requires NoNewline(lines)
    ensures Lines(Unix(Text(lines))) == StripReturns(lines) + [""]
  {
    UnixText(lines);
    LinesOfText(StripReturns(lines));
  }

  lemma {:induction false} LinesHaveNoNewline(s: string)
    ensures NoNewline(Lines(s))
  {
    if s != [] { LinesHaveNoNewline(s[1..]); }
  }

  lemma {:induction false} TextIsJoined(lines: seq<string>)
    requires lines != []
    ensures Text(lines) == Join(lines) + "\n"
  {
    if |lines| == 1 {
      TextOne(lines[0]);
      assert lines == [lines[0]];
    } else {
      TextIsJoined(lines[1..]);
      assert lines[0] + "\n" + (Join(lines[1..]) + "\n") == (lines[0] + "\n" + Join(lines[1..])) + "\n";
    }
  }

  lemma CodeReadsBack(code: string)
    ensures Join(StripReturns(CodeLines(code))) == Normal(code)
    ensures NoNewline(CodeLines(code))
  {
    var t := TrimNewline(code);
    if t == "" {
      assert Unix("\n") == "\n";
      assert t + "\n" == "\n";
    } else {
      LinesHaveNoNewline(t);
      TextOfLines(t);
      UnixText(Lines(t));
      TextIsJoined(StripReturns(Lines(t)));
    }
  }

  // ---- trimming

  lemma {:induction false} TrimRightIsPrefix(s: string, cut: char -> bool)
    ensures TrimRight(s, cut) <= s
    ensures s != [] && !cut(s[0]) ==> TrimRight(s, cut) != []
  {
    if s != [] && cut(s[|s| - 1]) { TrimRightIsPrefix(s[..|s| - 1], cut); }
  }

  lemma {:induction false} TrimLeftIsSuffix(s: string, cut: char -> bool)
    ensures forall c :: c in TrimLeft(s, cut) ==> c in s
  {
    if s != [] && cut(s[0]) { TrimLeftIsSuffix(s[1..], cut); }
  }

  lemma TrimSpaceWithin(s: string)
    ensures forall c :: c in TrimSpace(s) ==> c in s
  {
    TrimLeftIsSuffix(s, IsSpace);
    TrimRightIsPrefix(TrimLeft(s, IsSpace), IsSpace);
  }

  lemma TrimSpaceFirst(s: string)
    requires s != [] && !IsSpace(s[0])
    ensures TrimSpace(s) != [] && TrimSpace(s)[0] == s[0]
  {
    TrimRightIsPrefix(s, IsSpace);
  }

  lemma TrimAfterSpace(v: string)
    ensures TrimSpace(" " + v) == TrimSpace(v)
  {
    assert (" " + v)[1..] == v;
  }

  lemma {:induction false} BeforeFirst(k: string, c: char, t: string)
    requires c !in k
    ensures Before(k + [c] + t, c) == k
  {
    if k != [] {
      BeforeFirst(k[1..], c, t);
      assert (k + [c] + t)[1..] == k[1..] + [c] + t;
    }
  }

  // ---- a pair of the front matter

  lemma PairStarts(k: string, v: string, quote: string -> string)
    requires ValidKey(k)
    ensures var line := PairLine(k, v, quote); line != Rule && !Skipped(line)
  {
    TrimSpaceFirst(PairLine(k, v, quote));
  }

  lemma PairIsOneLine(k: string, v: string, quote: string -> string, unquote: string -> Option<string>)
    requires ValidKey(k) && Faithful(quote, unquote)
    ensures var line := PairLine(k, v, quote); '\n' !in line && '\r' !in line
  {
    assert IsKeyChar(k[0]);
    assert unquote(quote(v)) == Some(v);
  }

  lemma ValueReadsBack(v: string, quote: string -> string, unquote: string -> Option<string>)
    requires Faithful(quote, unquote)
    ensures ReadValue(TrimSpace(" " + if NeedsQuotes(v) then quote(v) else v), unquote) == Some(v)
  {
    var w := if NeedsQuotes(v) then quote(v) else v;
    TrimAfterSpace(w);
    assert unquote(quote(v)) == Some(v);
  }

  lemma PairReadsBack(k: string, v: string, i: nat, quote: string -> string, unquote: string -> Option<string>)
    requires ValidKey(k) && Faithful(quote, unquote)
    ensures ReadPair(PairLine(k, v, quote), i, unquote) == Ok((k, v))
  {
    var w := if NeedsQuotes(v) then quote(v) else v;
    var line := PairLine(k, v, quote);
    assert IsKeyChar(k[0]) && ':' !in k;
    assert line == k + [':'] + (" " + w);
    BeforeFirst(k, ':', " " + w);
    assert line[|k| + 1..] == " " + w;
    assert TrimSpace(k) == k;
    ValueReadsBack(v, quote, unquote);
  }

  // ---- the front matter

  function Put(m: map<string, string>, keys: seq<string>, meta: map<string, string>): map<string, string>
    requires forall k :: k in keys ==> k in meta
    decreases |keys|
  {
    if keys == [] then m else Put(m[keys[0] := meta[keys[0]]], keys[1..], meta)
  }

  lemma {:induction false} PutAll(m: map<string, string>, keys: seq<string>, meta: map<string, string>)
    requires forall k :: k in keys ==> k in meta
    ensures forall k :: Lookup(Put(m, keys, meta), k) == if k in keys then Some(meta[k]) else Lookup(m, k)
    decreases |keys|
  {
    if keys != [] {
      PutAll(m[keys[0] := meta[keys[0]]], keys[1..], meta);
      assert keys == [keys[0]] + keys[1..];
    }
  }

  lemma PutKept(meta: map<string, string>)
    ensures Put(map[], SortedKeys(KeptKeys(meta)), meta) == KeptMeta(meta)
  {
    var keys := SortedKeys(KeptKeys(meta));
    PutAll(map[], keys, meta);
    var all := Put(map[], keys, meta);
    forall k ensures Lookup(all, k) == Lookup(KeptMeta(meta), k) {
      assert k in keys <==> k in KeptKeys(meta);
    }
    SameLookups(all, KeptMeta(meta));
  }

  // Lines of the front matter from the i-th on: the pairs of some keys, and the closing rule.
  ghost predicate PairsAt(lines: seq<string>, i: nat, keys: seq<string>, meta: map<string, string>, quote: string -> string) {
    i + |keys| < |lines| && lines[i + |keys|] == Rule &&
    forall j :: 0 <= j < |keys| ==> keys[j] in meta && Kept(keys[j]) && lines[i + j] == PairLine(keys[j], meta[keys[j]], quote)
  }

  lemma PairsAtRest(lines: seq<string>, i: nat, keys: seq<string>, meta: map<string, string>, quote: string -> string)
    requires PairsAt(lines, i, keys, meta, quote) && keys != []
    ensures PairsAt(lines, i + 1, keys[1..], meta, quote)
    ensures keys[0] in meta && Kept(keys[0]) && lines[i] == PairLine(keys[0], meta[keys[0]], quote)
  {
    forall j | 0 <= j < |keys| - 1
      ensures keys[1..][j] in meta && Kept(keys[1..][j])
      ensures lines[i + 1 + j] == PairLine(keys[1..][j], meta[keys[1..][j]], quote)
    {
      assert lines[i + (j + 1)] == PairLine(keys[j + 1], meta[keys[j + 1]], quote);
    }
    assert lines[i + 0] == PairLine(keys[0], meta[keys[0]], quote);
  }

  lemma PairFolds(lines: seq<string>, i: nat, v: Value, k: string, val: string, quote: string -> string,
                  unquote: string -> Option<string>)
    requires Faithful(quote, unquote) && ValidKey(k) && i < |lines| && lines[i] == PairLine(k, val, quote)
    ensures Front(lines, i, v, unquote) == Front(lines, i + 1, With(v, k, val), unquote)
  {
    PairStarts(k, val, quote);
    PairReadsBack(k, val, i, quote, unquote);
  }

  lemma RuleCloses(lines: seq<string>, i: nat, v: Value, unquote: string -> Option<string>)
    requires i < |lines| && lines[i] == Rule
    ensures Front(lines, i, v, unquote) == Ok((i + 1, v))
  {
  }

  lemma PutFirst(v: Value, keys: seq<string>, meta: map<string, string>)
    requires keys != [] && (forall k :: k in keys ==> k in meta) && Kept(keys[0])
    ensures var w := With(v, keys[0], meta[keys[0]]);
            w.(meta := Put(w.meta, keys[1..], meta)) == v.(meta := Put(v.meta, keys, meta))
  {
  }

  lemma {:induction false} KeysReadBack(lines: seq<string>, i: nat, v: Value, keys: seq<string>, meta: map<string, string>,
                                        quote: string -> string, unquote: string -> Option<string>, end: nat)
    requires Faithful(quote, unquote) && PairsAt(lines, i, keys, meta, quote) && end == i + |keys|
    ensures Front(lines, i, v, unquote) == Ok((end + 1, v.(meta := Put(v.meta, keys, meta))))
    decreases |keys|
  {
    if keys == [] {
      RuleCloses(lines, i, v, unquote);
    } else {
      PairsAtRest(lines, i, keys, meta, quote);
      PairFolds(lines, i, v, keys[0], meta[keys[0]], quote, unquote);
      PutFirst(v, keys, meta);
      KeysReadBack(lines, i + 1, With(v, keys[0], meta[keys[0]]), keys[1..], meta, quote, unquote, end);
    }
  }

  lemma FrontPairAt(v: Value, rest: seq<string>, quote: string -> string, j: nat)
    requires j < |SortedKeys(KeptKeys(v.meta))|
    ensures var k := SortedKeys(KeptKeys(v.meta))[j];
            k in v.meta && Kept(k) && (FrontLines(v, quote) + rest)[|HeadLines(v, quote)| + j] == PairLine(k, v.meta[k], quote)
  {
    var keys := SortedKeys(KeptKeys(v.meta));
    assert keys[j] in KeptKeys(v.meta);
    assert (FrontLines(v, quote) + rest)[|HeadLines(v, quote)| + j] == PairLines(keys, v.meta, quote)[j];
  }

  lemma FrontPairsAt(v: Value, rest: seq<string>, quote: string -> string)
    ensures PairsAt(FrontLines(v, quote) + rest, |HeadLines(v, quote)|, SortedKeys(KeptKeys(v.meta)), v.meta, quote)
    ensures |FrontLines(v, quote)| == |HeadLines(v, quote)| + |SortedKeys(KeptKeys(v.meta))| + 1
  {
    var keys := SortedKeys(KeptKeys(v.meta));
    forall j: nat | j < |keys|
      ensures keys[j] in v.meta && Kept(keys[j])
      ensures (FrontLines(v, quote) + rest)[|HeadLines(v, quote)| + j] == PairLine(keys[j], v.meta[keys[j]], quote)
    {
      FrontPairAt(v, rest, quote, j);
    }
  }

  lemma HeadReadsBack(v: Value, lines: seq<string>, quote: string -> string, unquote: string -> Option<string>)
    requires Faithful(quote, unquote) && HeadLines(v, quote) <= lines
    ensures Front(lines, 1, Unread, unquote)
         == Front(lines, |HeadLines(v, quote)|, Value(v.language, map[], ""), unquote)
  {
    if v.language != "" {
      assert lines[1] == PairLine(KeyLanguage, v.language, quote);
      PairFolds(lines, 1, Unread, KeyLanguage, v.language, quote, unquote);
    }
  }

  // Lines that start with the printed front matter of a value: its head, its pairs, and the line that ends it.
  ghost predicate FrontAt(v: Value, lines: seq<string>, keys: seq<string>, end: nat, quote: string -> string) {
    HeadLines(v, quote) <= lines && end == |HeadLines(v, quote)| + |keys| &&
    PairsAt(lines, |HeadLines(v, quote)|, keys, v.meta, quote)
  }

  lemma FrontIsAt(v: Value, rest: seq<string>, quote: string -> string)
    ensures |FrontLines(v, quote)| > 0
    ensures FrontAt(v, FrontLines(v, quote) + rest, SortedKeys(KeptKeys(v.meta)), |FrontLines(v, quote)| - 1, quote)
  {
    FrontPairsAt(v, rest, quote);
  }

  lemma PairsReadBack(lines: seq<string>, start: nat, head: Value, keys: seq<string>, meta: map<string, string>, end: nat,
                      quote: string -> string, unquote: string -> Option<string>)
    requires Faithful(quote, unquote) && PairsAt(lines, start, keys, meta, quote) && end == start + |keys| && head.meta == map[]
    ensures Front(lines, start, head, unquote) == Ok((end + 1, head.(meta := Put(map[], keys, meta))))
  {
    KeysReadBack(lines, start, head, keys, meta, quote, unquote, end);
  }

  lemma HeadAndKeysReadBack(v: Value, lines: seq<string>, keys: seq<string>, end: nat, quote: string -> string,
                            unquote: string -> Option<string>)
    requires Faithful(quote, unquote) && FrontAt(v, lines, keys, end, quote)
    ensures forall k :: k in keys ==> k in v.meta
    ensures Front(lines, 1, Unread, unquote) == Ok((end + 1, Value(v.language, Put(map[], keys, v.meta), "")))
  {
    HeadReadsBack(v, lines, quote, unquote);
    PairsReadBack(lines, |HeadLines(v, quote)|, Value(v.language, map[], ""), keys, v.meta, end, quote, unquote);
  }

  lemma FrontReadsBack(v: Value, rest: seq<string>, quote: string -> string, unquote: string -> Option<string>)
    requires Faithful(quote, unquote)
    ensures Front(FrontLines(v, quote) + rest, 1, Unread, unquote)
         == Ok((|FrontLines(v, quote)|, Value(v.language, KeptMeta(v.meta), "")))
  {
    FrontIsAt(v, rest, quote);
    HeadAndKeysReadBack(v, FrontLines(v, quote) + rest, SortedKeys(KeptKeys(v.meta)), |FrontLines(v, quote)| - 1, quote, unquote);
    PutKept(v.meta);
  }

  // ---- the fence

  lemma {:induction false} LongestRunGrows(s: string, i: nat)
    requires i <= |s|
    ensures LongestRun(s[..i]) <= LongestRun(s)
  {
    if i < |s| {
      LongestRunGrows(s[..|s| - 1], i);
      assert s[..|s| - 1][..i] == s[..i];
    } else {
      assert s[..i] == s;
    }
  }

  lemma {:induction false} EndRunIsLong(s: string, n: nat)
    requires n <= |s| && forall i :: |s| - n <= i < |s| ==> s[i] == '`'
    ensures EndRun(s) >= n
  {
    if n > 0 { EndRunIsLong(s[..|s| - 1], n - 1); }
  }

  // No stretch of backticks is longer than the longest run.
  lemma RunIsBounded(s: string, a: nat, n: nat)
    requires a + n <= |s| && forall i :: a <= i < a + n ==> s[i] == '`'
    ensures n <= LongestRun(s)
  {
    EndRunIsLong(s[..a + n], n);
    LongestRunGrows(s, a + n);
  }

  lemma SliceOfTail(s: string, a: nat, n: nat)
    requires s != [] && a + n <= |s| - 1
    ensures s[1..][a..a + n] == s[a + 1..a + 1 + n]
  {
  }

  lemma {:induction false} LineWithin(s: string, k: nat) returns (a: nat)
    requires k < |Lines(s)|
    ensures k == 0 ==> a == 0
    ensures a + |Lines(s)[k]| <= |s| && s[a..a + |Lines(s)[k]|] == Lines(s)[k]
  {
    a := 0;
    if s != [] {
      if k == 0 {
        if s[0] != '\n' { var b := LineWithin(s[1..], 0); }
      } else {
        var j := if s[0] == '\n' then k - 1 else k;
        var line := Lines(s[1..])[j];
        assert Lines(s)[k] == line;
        a := LineWithin(s[1..], j);
        SliceOfTail(s, a, |line|);
        a := a + 1;
      }
    }
  }

  // Where a line of a code, without its return and its blanks, is in the code.
  lemma TrimmedWithin(code: string, k: nat) returns (a: nat)
    requires k < |CodeLines(code)|
    ensures var trimmed := TrimRight(StripReturn(CodeLines(code)[k]), IsBlank);
            a + |trimmed| <= |code| && forall i: nat :: i < |trimmed| ==> code[a + i] == trimmed[i]
  {
    var line, t := CodeLines(code)[k], TrimNewline(code);
    var trimmed := TrimRight(StripReturn(line), IsBlank);
    TrimRightIsPrefix(StripReturn(line), IsBlank);
    a := LineWithin(t, k);
    forall i: nat | i < |trimmed| ensures code[a + i] == trimmed[i] {
      assert t[a..a + |line|][i] == t[a + i];
    }
  }

  /** No line of a code, read without its return and its blanks, closes the fence the code is printed in. */
  lemma NoLineCloses(code: string, k: nat)
    requires k < |CodeLines(code)|
    ensures !Closes(StripReturn(CodeLines(code)[k]), '`', |FenceOf(code)|)
  {
    var trimmed := TrimRight(StripReturn(CodeLines(code)[k]), IsBlank);
    var a := TrimmedWithin(code, k);
    if forall i: nat :: i < |trimmed| ==> trimmed[i] == '`' {
      forall i | a <= i < a + |trimmed| ensures code[i] == '`' { assert code[a + (i - a)] == trimmed[i - a]; }
      RunIsBounded(code, a, |trimmed|);
    }
  }

  lemma {:induction false} ClosingAt(rest: seq<string>, j: nat, end: nat, c: char, n: nat)
    requires j <= end < |rest| && Closes(rest[end], c, n)
    requires forall i :: j <= i < end ==> !Closes(rest[i], c, n)
    ensures Closing(rest, j, c, n) == end
    decreases end - j
  {
    if j < end { ClosingAt(rest, j + 1, end, c, n); }
  }

  lemma LeadingTicks(n: nat, t: string)
    requires t == [] || t[0] != '`'
    ensures Leading(Ticks(n) + t, '`') == n
  {
    var s := Ticks(n) + t;
    assert forall i :: 0 <= i < n ==> s[i] == '`';
    assert n < |s| ==> s[n] != '`';
  }

  lemma FenceOpens(code: string, info: string)
    requires '`' !in info
    ensures var line := FenceOf(code) + info;
            Opening(line) == Some(Fence('`', |FenceOf(code)|, Before(TrimSpace(info), ' '))) && TrimSpace(line) != ""
  {
    var n := |FenceOf(code)|;
    LeadingTicks(n, info);
    assert (FenceOf(code) + info)[n..] == info;
    TrimSpaceWithin(info);
    TrimSpaceFirst(FenceOf(code) + info);
  }

  // ---- the block

  lemma InfoStripped(v: Value)
    ensures StripReturn(FenceOf(v.code) + InfoOf(v.language)) == FenceOf(v.code) + StripReturn(InfoOf(v.language))
    ensures '`' !in StripReturn(InfoOf(v.language)) && '\n' !in InfoOf(v.language)
    ensures v.language == "" ==> Before(TrimSpace(StripReturn(InfoOf(v.language))), ' ') == ""
  {
    var fence, info := FenceOf(v.code), InfoOf(v.language);
    if info == [] {
      assert fence + info == fence && StripReturn(info) == [];
    } else {
      assert (fence + info)[..|fence + info| - 1] == fence + info[..|info| - 1];
    }
  }

  // The printed block as it reads back.
  function ReadLines(v: Value): (rest: seq<string>)
    ensures |rest| == |CodeLines(v.code)| + 3
  {
    StripReturns(BlockLines(v)) + [""]
  }

  lemma ReadLinesAre(v: Value)
    ensures ReadLines(v)[0] == FenceOf(v.code) + StripReturn(InfoOf(v.language))
    ensures ReadLines(v)[1..|CodeLines(v.code)| + 1] == StripReturns(CodeLines(v.code))
    ensures ReadLines(v)[|CodeLines(v.code)| + 1..] == [FenceOf(v.code), ""]
  {
    InfoStripped(v);
    BlockOf(FenceOf(v.code) + InfoOf(v.language), CodeLines(v.code), FenceOf(v.code));
    FenceStripped(v.code);
  }

  lemma FenceStripped(code: string)
    ensures StripReturn(FenceOf(code)) == FenceOf(code)
  {
  }

  // The lines of a block as they read: the first, those between, the last and the empty one after it.
  lemma BlockOf(first: string, code: seq<string>, last: string)
    ensures var rest := StripReturns([first] + code + [last]) + [""];
            rest[0] == StripReturn(first) && rest[1..|code| + 1] == StripReturns(code) && rest[|code| + 1..] == [StripReturn(last), ""]
  {
    StripsApart([first] + code, [last]);
    StripsApart([first], code);
    var c := StripReturns(code);
    assert StripReturns([first]) == [StripReturn(first)] && StripReturns([last]) == [StripReturn(last)];
    assert StripReturns([first] + code + [last]) + [""] == [StripReturn(first)] + c + [StripReturn(last), ""];
  }

  lemma TicksClose(n: nat)
    requires n > 0
    ensures Closes(Ticks(n), '`', n)
  {
    assert TrimRight(Ticks(n), IsBlank) == Ticks(n);
  }

  lemma CodeDoesNotClose(v: Value, i: nat)
    requires 1 <= i < |CodeLines(v.code)| + 1
    ensures !Closes(ReadLines(v)[i], '`', |FenceOf(v.code)|)
  {
    var rest, m := ReadLines(v), |CodeLines(v.code)|;
    ReadLinesAre(v);
    assert rest[1..m + 1][i - 1] == StripReturn(CodeLines(v.code)[i - 1]);
    NoLineCloses(v.code, i - 1);
  }

  lemma BlockCloses(v: Value)
    ensures Closing(ReadLines(v), 1, '`', |FenceOf(v.code)|) == |CodeLines(v.code)| + 1
  {
    var rest, n, m := ReadLines(v), |FenceOf(v.code)|, |CodeLines(v.code)|;
    ReadLinesAre(v);
    forall i: nat | 1 <= i < m + 1 ensures !Closes(rest[i], '`', n) { CodeDoesNotClose(v, i); }
    assert rest[m + 1] == rest[m + 1..][0];
    TicksClose(n);
    ClosingAt(rest, 1, m + 1, '`', n);
  }

  lemma BlockOpens(v: Value)
    ensures Opening(ReadLines(v)[0]).Some?
    ensures var f := Opening(ReadLines(v)[0]).value;
            f.mark == '`' && f.n == |FenceOf(v.code)| && (v.language == "" ==> f.info == "")
  {
    ReadLinesAre(v);
    InfoStripped(v);
    FenceOpens(v.code, StripReturn(InfoOf(v.language)));
  }

  lemma BlockEnds(v: Value)
    ensures var rest, m := ReadLines(v), |CodeLines(v.code)|;
            TrimSpace(Join(rest[m + 2..])) == "" && Join(rest[1..m + 1]) == Normal(v.code)
  {
    var rest, m := ReadLines(v), |CodeLines(v.code)|;
    ReadLinesAre(v);
    CodeReadsBack(v.code);
    assert rest[m + 2..] == rest[m + 1..][1..] == [""];
  }

  lemma BlockReadsBack(v: Value, meta: map<string, string>)
    ensures ReadBlock(ReadLines(v), Value(v.language, meta, "")) == Ok(Value(v.language, meta, Normal(v.code)))
  {
    BlockOpens(v);
    BlockCloses(v);
    BlockEnds(v);
  }

  lemma PrintedPairIsOneLine(v: Value, quote: string -> string, unquote: string -> Option<string>, j: nat)
    requires Faithful(quote, unquote) && j < |SortedKeys(KeptKeys(v.meta))|
    ensures var line := FrontLines(v, quote)[|HeadLines(v, quote)| + j]; '\n' !in line && '\r' !in line
  {
    var k := SortedKeys(KeptKeys(v.meta))[j];
    FrontPairsAt(v, [], quote);
    assert FrontLines(v, quote) + [] == FrontLines(v, quote);
    assert FrontLines(v, quote)[|HeadLines(v, quote)| + j] == PairLine(k, v.meta[k], quote);
    PairIsOneLine(k, v.meta[k], quote, unquote);
  }

  lemma PrintedHeadIsOneLine(v: Value, quote: string -> string, unquote: string -> Option<string>, i: nat)
    requires Faithful(quote, unquote) && i < |HeadLines(v, quote)|
    ensures var line := HeadLines(v, quote)[i]; '\n' !in line && '\r' !in line
  {
    PairIsOneLine(KeyLanguage, v.language, quote, unquote);
  }

  lemma PrintedIsOneLineEach(v: Value, quote: string -> string, unquote: string -> Option<string>, i: nat)
    requires Faithful(quote, unquote) && i < |FrontLines(v, quote)|
    ensures var line := FrontLines(v, quote)[i]; '\n' !in line && '\r' !in line
  {
    var front, head := FrontLines(v, quote), HeadLines(v, quote);
    if i < |head| {
      assert front[i] == head[i];
      PrintedHeadIsOneLine(v, quote, unquote, i);
    } else if i < |front| - 1 {
      PrintedPairIsOneLine(v, quote, unquote, i - |head|);
    } else {
      assert front[i] == Rule;
    }
  }

  lemma PrintedFront(v: Value, quote: string -> string, unquote: string -> Option<string>)
    requires Faithful(quote, unquote)
    ensures NoNewline(FrontLines(v, quote)) && StripReturns(FrontLines(v, quote)) == FrontLines(v, quote)
  {
    forall i: nat | i < |FrontLines(v, quote)|
      ensures '\n' !in FrontLines(v, quote)[i] && StripReturn(FrontLines(v, quote)[i]) == FrontLines(v, quote)[i]
    {
      PrintedIsOneLineEach(v, quote, unquote, i);
    }
  }

  lemma PrintedBlock(v: Value)
    ensures NoNewline(BlockLines(v))
  {
    InfoStripped(v);
    CodeReadsBack(v.code);
  }

  // A front matter and a block that does not start blank parse as the block under what the front matter gave.
  lemma FrontThenBlock(front: seq<string>, rest: seq<string>, v: Value, unquote: string -> Option<string>)
    requires front != [] && front[0] == Rule && rest != [] && TrimSpace(rest[0]) != ""
    requires Front(front + rest, 1, Unread, unquote) == Ok((|front|, v))
    ensures Parsed(front + rest, unquote) == ReadBlock(rest, v)
  {
    assert (front + rest)[|front|] == rest[0];
    assert (front + rest)[|front|..] == rest;
  }

  lemma PrintedAsRead(v: Value, quote: string -> string, unquote: string -> Option<string>)
    requires Faithful(quote, unquote)
    ensures Lines(Unix(Text(FrontLines(v, quote) + BlockLines(v)))) == FrontLines(v, quote) + ReadLines(v)
  {
    var front, block := FrontLines(v, quote), BlockLines(v);
    PrintedFront(v, quote, unquote);
    PrintedBlock(v);
    PrintedLines(front + block);
    StripsApart(front, block);
    assert (front + StripReturns(block)) + [""] == front + (StripReturns(block) + [""]);
  }

  lemma StripsApart(a: seq<string>, b: seq<string>)
    ensures StripReturns(a + b) == StripReturns(a) + StripReturns(b)
  {
  }

  /** Parsing a printed value gives it back, but for the keys the printer leaves out and the ends of the lines of its code. */
  lemma FormatThenParse(v: Value, quote: string -> string, unquote: string -> Option<string>)
    requires Faithful(quote, unquote)
    ensures Parsed(Lines(Unix(Text(FrontLines(v, quote) + BlockLines(v)))), unquote)
         == Ok(Value(v.language, KeptMeta(v.meta), Normal(v.code)))
  {
    var front, rest := FrontLines(v, quote), ReadLines(v);
    PrintedAsRead(v, quote, unquote);
    FrontReadsBack(v, rest, quote, unquote);
    InfoStripped(v);
    ReadLinesAre(v);
    FenceOpens(v.code, StripReturn(InfoOf(v.language)));
    FrontThenBlock(front, rest, Value(v.language, KeptMeta(v.meta), ""), unquote);
    BlockReadsBack(v, KeptMeta(v.meta));
  }

  // ---- when nothing is lost

  predicate CrlfAt(s: string, i: int) { 0 <= i < |s| - 1 && s[i] == '\r' && s[i + 1] == '\n' }

  predicate HasCrlf(s: string) { exists i :: 0 <= i < |s| && CrlfAt(s, i) }

  lemma CrlfTail(s: string)
    requires s != []
    ensures HasCrlf(s) <==> CrlfAt(s, 0) || HasCrlf(s[1..])
  {
    if HasCrlf(s[1..]) {
      var i :| 0 <= i < |s| - 1 && CrlfAt(s[1..], i);
      assert CrlfAt(s, i + 1);
    }
    if HasCrlf(s) {
      var i :| 0 <= i < |s| && CrlfAt(s, i);
      assert i > 0 ==> CrlfAt(s[1..], i - 1);
    }
  }

  lemma {:induction false} UnixShortens(s: string)
    ensures |Unix(s)| <= |s|
    ensures HasCrlf(s) ==> |Unix(s)| < |s|
    ensures !HasCrlf(s) ==> Unix(s) == s
  {
    if |s| >= 2 && s[0] == '\r' && s[1] == '\n' {
      UnixShortens(s[2..]);
      CrlfTail(s);
    } else if s != [] {
      UnixShortens(s[1..]);
      CrlfTail(s);
    }
  }

  // No carriage return ends a line, and no newline ends the text.
  predicate CleanCode(code: string) { (code == "" || code[|code| - 1] != '\n') && !HasCrlf(code + "\n") }

  lemma CleanCodeIsKept(code: string)
    ensures Normal(code) == code <==> CleanCode(code)
  {
    var t := TrimNewline(code);
    UnixShortens(t + "\n");
    if CleanCode(code) {
      assert (code + "\n")[..|code|] == code;
    } else if t == code {
      assert HasCrlf(code + "\n");
    }
  }

  lemma AllKept(meta: map<string, string>)
    ensures KeptMeta(meta) == meta <==> forall k :: k in meta ==> Kept(k)
  {
    if KeptMeta(meta) == meta {
      forall k | k in meta ensures Kept(k) { assert k in KeptMeta(meta); }
    }
  }

  /** A value survives printing and parsing exactly when its keys are valid, none is the language, and its code is clean. */
  lemma RoundTrip(v: Value, quote: string -> string, unquote: string -> Option<string>)
    requires Faithful(quote, unquote)
    ensures Parsed(Lines(Unix(Text(FrontLines(v, quote) + BlockLines(v)))), unquote) == Ok(v)
       <==> (forall k :: k in v.meta ==> k != KeyLanguage && ValidKey(k)) && CleanCode(v.code)
  {
    FormatThenParse(v, quote, unquote);
    CleanCodeIsKept(v.code);
    AllKept(v.meta);
  }

  /** A text with neither front matter nor fence is its own code. */
  lemma PlainTextIsCode(s: string, unquote: string -> Option<string>)
    requires Lines(Unix(s))[0] != Rule && Opening(Lines(Unix(s))[0]).None?
    ensures Parsed(Lines(Unix(s)), unquote) == Ok(Value("", map[], Unix(s)))
  {
    TextOfLines(Unix(s));
    TextIsJoined(Lines(Unix(s)));
    SnocEqual(Join(Lines(Unix(s))), Unix(s), '\n', '\n');
  }
}
