// Code attributes (contracts/codetext/codetext.go): a front matter and a fenced code block, printed and parsed.
module CodeText {
  import opened Prelude

  datatype Value = Value(language: string, meta: map<string, string>, code: string)

  datatype Error = NotClosed | BadLine(line: nat) | BadQuotes(line: nat) | TextAfterBlock

  datatype Result<+T> = Ok(value: T) | Err(error: Error)

  // The value nothing was read of yet.
  const Unread := Value("", map[], "")

  const KeyLanguage := "language"
  const Rule := "---"

  // ---- text and lines

  predicate IsSpace(c: char) {
    c == ' ' || '\t' <= c <= '\r' || c == '\U{85}' || c == '\U{A0}' || c == '\U{1680}' || '\U{2000}' <= c <= '\U{200A}' ||
    c == '\U{2028}' || c == '\U{2029}' || c == '\U{202F}' || c == '\U{205F}' || c == '\U{3000}'
  }

  predicate IsBlank(c: char) { c == ' ' || c == '\t' }

  function TrimLeft(s: string, cut: char -> bool): string {
    if s != [] && cut(s[0]) then TrimLeft(s[1..], cut) else s
  }

  function TrimRight(s: string, cut: char -> bool): string {
    if s != [] && cut(s[|s| - 1]) then TrimRight(s[..|s| - 1], cut) else s
  }

  function TrimSpace(s: string): string { TrimRight(TrimLeft(s, IsSpace), IsSpace) }

  function TrimNewline(s: string): string {
    if s != [] && s[|s| - 1] == '\n' then s[..|s| - 1] else s
  }

  // Line ends as \n: every \r\n is replaced.
  function Unix(s: string): string {
    if |s| >= 2 && s[0] == '\r' && s[1] == '\n' then "\n" + Unix(s[2..])
    else if s == [] then []
    else [s[0]] + Unix(s[1..])
  }

  // strings.Split at the newlines.
  function Lines(s: string): (r: seq<string>)
    ensures |r| > 0
  {
    if s == [] then [""]
    else if s[0] == '\n' then [""] + Lines(s[1..])
    else
      var rest := Lines(s[1..]);
      [[s[0]] + rest[0]] + rest[1..]
  }

  // strings.Join with newlines.
  function Join(lines: seq<string>): string {
    if lines == [] then [] else if |lines| == 1 then lines[0] else lines[0] + "\n" + Join(lines[1..])
  }

  // The text of lines, each ended.
  function Text(lines: seq<string>): string {
    if lines == [] then [] else lines[0] + "\n" + Text(lines[1..])
  }

  function StripReturn(line: string): string {
    if line != [] && line[|line| - 1] == '\r' then line[..|line| - 1] else line
  }

  function StripReturns(lines: seq<string>): (r: seq<string>)
    ensures |r| == |lines| && forall i :: 0 <= i < |r| ==> r[i] == StripReturn(lines[i])
  {
    seq(|lines|, i requires 0 <= i < |lines| => StripReturn(lines[i]))
  }

  // ---- printing

  predicate IsLetter(c: char) { 'A' <= c <= 'Z' || 'a' <= c <= 'z' }

  predicate IsKeyChar(c: char) { IsLetter(c) || '0' <= c <= '9' || c == '_' || c == '.' || c == '-' }

  predicate ValidKey(k: string) { k != [] && IsLetter(k[0]) && forall i :: 0 < i < |k| ==> IsKeyChar(k[i]) }

  predicate NeedsQuotes(v: string) {
    v == "" || TrimSpace(v) != v || '\n' in v || '\r' in v || '"' in v || '#' in v || v[0] == '\''
  }

  // The backticks that end a text.
  function EndRun(s: string): (n: nat)
    ensures n <= |s|
  {
    if s != [] && s[|s| - 1] == '`' then EndRun(s[..|s| - 1]) + 1 else 0
  }

  function LongestRun(s: string): (n: nat)
    ensures n >= EndRun(s)
  {
    if s == [] then 0
    else if EndRun(s) > LongestRun(s[..|s| - 1]) then EndRun(s) else LongestRun(s[..|s| - 1])
  }

  function Ticks(n: nat): (s: string)
    ensures |s| == n && forall i :: 0 <= i < n ==> s[i] == '`'
  {
    seq(n, _ => '`')
  }

  function FenceOf(code: string): string { Ticks(if LongestRun(code) + 1 > 3 then LongestRun(code) + 1 else 3) }

  function InfoOf(language: string): string {
    if ' ' in language || '\t' in language || '`' in language || '\n' in language then "" else language
  }

  function PairLine(k: string, v: string, quote: string -> string): string {
    k + ": " + if NeedsQuotes(v) then quote(v) else v
  }

  predicate Kept(k: string) { k != KeyLanguage && ValidKey(k) }

  function KeptKeys(meta: map<string, string>): set<string> { set k | k in meta && Kept(k) }

  function PairLines(keys: seq<string>, meta: map<string, string>, quote: string -> string): (r: seq<string>)
    requires forall k :: k in keys ==> k in meta
    ensures |r| == |keys| && forall i :: 0 <= i < |r| ==> r[i] == PairLine(keys[i], meta[keys[i]], quote)
  {
    seq(|keys|, i requires 0 <= i < |keys| => PairLine(keys[i], meta[keys[i]], quote))
  }

  function CodeLines(code: string): seq<string> {
    if TrimNewline(code) == "" then [] else Lines(TrimNewline(code))
  }

  function BlockLines(v: Value): seq<string> {
    [FenceOf(v.code) + InfoOf(v.language)] + CodeLines(v.code) + [FenceOf(v.code)]
  }

  function HeadLines(v: Value, quote: string -> string): seq<string> {
    if v.language == "" then [Rule] else [Rule] + [PairLine(KeyLanguage, v.language, quote)]
  }

  ghost function FrontLines(v: Value, quote: string -> string): seq<string> {
    HeadLines(v, quote) + PairLines(SortedKeys(KeptKeys(v.meta)), v.meta, quote) + [Rule]
  }

  lemma {:induction false} TextConcat(a: seq<string>, b: seq<string>)
    ensures Text(a + b) == Text(a) + Text(b)
  {
    if a == [] {
      assert a + b == b;
    } else {
      assert (a + b)[1..] == a[1..] + b;
      TextConcat(a[1..], b);
    }
  }

  lemma TextOne(line: string)
    ensures Text([line]) == line + "\n"
  {
    assert Text([line]) == line + "\n" + Text([]);
  }

  lemma TextSnoc(lines: seq<string>, line: string)
    ensures Text(lines + [line]) == Text(lines) + line + "\n"
  {
    TextConcat(lines, [line]);
    TextOne(line);
  }

  lemma TextPrepended(c: char, lines: seq<string>)
    requires lines != []
    ensures Text([[c] + lines[0]] + lines[1..]) == [c] + Text(lines)
  {
    var longer := [[c] + lines[0]] + lines[1..];
    assert longer[1..] == lines[1..];
    var line, after := lines[0], Text(lines[1..]);
    assert ([c] + line) + "\n" + after == [c] + (line + "\n" + after);
  }

  lemma {:induction false} TextOfLines(s: string)
    ensures Text(Lines(s)) == s + "\n"
  {
    if s == [] {
      TextOne("");
    } else {
      TextOfLines(s[1..]);
      var rest := Lines(s[1..]);
      if s[0] == '\n' {
        assert ([""] + rest)[1..] == rest;
      } else {
        TextPrepended(s[0], rest);
      }
      assert s == [s[0]] + s[1..];
    }
  }

  method LongestRunOf(s: string) returns (best: nat)
    ensures best == LongestRun(s)
  {
    best := 0;
    var run: nat := 0;
    for i := 0 to |s|
      invariant run == EndRun(s[..i]) && best == LongestRun(s[..i])
    {
      assert s[..i + 1][..i] == s[..i];
      if s[i] == '`' {
        run := run + 1;
        if run > best { best := run; }
      } else {
        run := 0;
      }
    }
    assert s[..|s|] == s;
  }

  method Block(v: Value) returns (b: string)
    ensures b == Text(BlockLines(v))
  {
    var longest := LongestRunOf(v.code);
    var fence := Ticks(if longest + 1 > 3 then longest + 1 else 3);
    b := fence + InfoOf(v.language) + "\n";
    ghost var lines := [fence + InfoOf(v.language)];
    TextOne(lines[0]);
    var code := TrimNewline(v.code);
    if code != "" {
      TextOfLines(code);
      TextConcat(lines, Lines(code));
      b := b + code + "\n";
    }
    TextSnoc(lines + CodeLines(v.code), fence);
    b := b + fence + "\n";
  }

  method WriteKey(b: string, k: string, v: string, quote: string -> string) returns (out: string)
    ensures out == b + PairLine(k, v, quote) + "\n"
  {
    out := b + k + ": ";
    var value := v;
    if NeedsQuotes(v) { value := quote(v); }
    out := out + value;
    assert out == b + PairLine(k, v, quote);
    out := out + "\n";
  }

  lemma TextPrefix(lines: seq<string>, i: nat)
    requires i < |lines|
    ensures Text(lines[..i + 1]) == Text(lines[..i]) + lines[i] + "\n"
  {
    PrefixGrows(lines, i);
    TextSnoc(lines[..i], lines[i]);
  }

  lemma Regrouped(a: string, b: string, c: string, d: string)
    ensures a + b + c + d == a + (b + c + d)
  {
  }

  method WriteKeys(b: string, keys: seq<string>, meta: map<string, string>, quote: string -> string) returns (out: string)
    requires forall k :: k in keys ==> k in meta
    ensures out == b + Text(PairLines(keys, meta, quote))
  {
    out := b;
    ghost var lines := PairLines(keys, meta, quote);
    for i := 0 to |keys|
      invariant out == b + Text(lines[..i])
    {
      TextPrefix(lines, i);
      Regrouped(b, Text(lines[..i]), lines[i], "\n");
      out := WriteKey(out, keys[i], meta[keys[i]], quote);
    }
    WholePrefix(lines);
  }

  method SelectKeys(meta: map<string, string>) returns (keys: seq<string>)
    ensures keys == SortedKeys(KeptKeys(meta))
  {
    var kept: set<string> := {};
    var rest := meta.Keys;
    while rest != {}
      invariant rest <= meta.Keys
      invariant forall k :: k in kept <==> k in meta.Keys - rest && Kept(k)
      decreases |rest|
    {
      var k :| k in rest;
      if Kept(k) { kept := kept + {k}; }
      rest := rest - {k};
    }
    assert kept == KeptKeys(meta);
    keys := Sort(kept);
  }

  method WriteLanguage(v: Value, quote: string -> string) returns (b: string)
    ensures b == Text(HeadLines(v, quote))
  {
    b := "---\n";
    TextOne(Rule);
    if v.language != "" {
      TextSnoc([Rule], PairLine(KeyLanguage, v.language, quote));
      b := WriteKey(b, KeyLanguage, v.language, quote);
    }
  }

  method WriteFront(v: Value, quote: string -> string) returns (b: string)
    ensures b == Text(FrontLines(v, quote))
  {
    b := WriteLanguage(v, quote);
    var keys := SelectKeys(v.meta);
    ghost var head, pairs := HeadLines(v, quote), PairLines(keys, v.meta, quote);
    b := WriteKeys(b, keys, v.meta, quote);
    TextConcat(head, pairs);
    TextSnoc(head + pairs, Rule);
    b := b + "---\n";
  }

  method Format(v: Value, quote: string -> string) returns (b: string)
    ensures b == Text(FrontLines(v, quote) + BlockLines(v))
  {
    b := WriteFront(v, quote);
    var block := Block(v);
    b := b + block;
    TextConcat(FrontLines(v, quote), BlockLines(v));
  }

  // ---- parsing

  datatype Fence = Fence(mark: char, n: nat, info: string)

  // How many times a character starts a line.
  function Leading(s: string, c: char): (n: nat)
    ensures n <= |s| && forall i :: 0 <= i < n ==> s[i] == c
    ensures n < |s| ==> s[n] != c
  {
    if s != [] && s[0] == c then Leading(s[1..], c) + 1 else 0
  }

  // The text before a character, all of it when it is not there.
  function Before(s: string, c: char): (r: string)
    ensures r <= s && c !in r && (|r| < |s| ==> s[|r|] == c)
  {
    if s == [] || s[0] == c then [] else [s[0]] + Before(s[1..], c)
  }

  function Opening(line: string): Option<Fence> {
    if |line| < 3 || (line[0] != '`' && line[0] != '~') then None
    else
      var n := Leading(line, line[0]);
      var info := TrimSpace(line[n..]);
      if n < 3 || (line[0] == '`' && '`' in info) then None else Some(Fence(line[0], n, Before(info, ' ')))
  }

  predicate Closes(line: string, c: char, n: nat) {
    var trimmed := TrimRight(line, IsBlank);
    |trimmed| >= n && forall i :: 0 <= i < |trimmed| ==> trimmed[i] == c
  }

  // '' inside single quotes is '.
  function Undouble(s: string): string {
    if |s| >= 2 && s[0] == '\'' && s[1] == '\'' then "'" + Undouble(s[2..])
    else if s == [] then []
    else [s[0]] + Undouble(s[1..])
  }

  function ReadValue(val: string, unquote: string -> Option<string>): Option<string> {
    if val != [] && val[0] == '"' then unquote(val)
    else if |val| >= 2 && val[0] == '\'' && val[|val| - 1] == '\'' then Some(Undouble(val[1..|val| - 1]))
    else Some(val)
  }

  predicate Skipped(line: string) { TrimSpace(line) == "" || TrimSpace(line)[0] == '#' }

  // A key: value line of the front matter, the i-th of the text.
  function ReadPair(line: string, i: nat, unquote: string -> Option<string>): Result<(string, string)> {
    var before := Before(line, ':');
    var key := TrimSpace(before);
    if |before| == |line| || !ValidKey(key) then Err(BadLine(i + 1))
    else match ReadValue(TrimSpace(line[|before| + 1..]), unquote)
      case None => Err(BadQuotes(i + 1))
      case Some(val) => Ok((key, val))
  }

  function With(v: Value, k: string, val: string): Value {
    if k == KeyLanguage then v.(language := val) else v.(meta := v.meta[k := val])
  }

  // The front matter from a line on: where the rest starts, and what it gives.
  function Front(lines: seq<string>, i: nat, v: Value, unquote: string -> Option<string>): (r: Result<(nat, Value)>)
    ensures r.Ok? ==> i < r.value.0 <= |lines|
    decreases |lines| - i
  {
    if i >= |lines| then Err(NotClosed)
    else if lines[i] == Rule then Ok((i + 1, v))
    else if Skipped(lines[i]) then Front(lines, i + 1, v, unquote)
    else match ReadPair(lines[i], i, unquote)
      case Err(e) => Err(e)
      case Ok((k, val)) => Front(lines, i + 1, With(v, k, val), unquote)
  }

  function SkipBlank(lines: seq<string>, i: nat): (j: nat)
    ensures j >= i && (i <= |lines| ==> j <= |lines|)
    decreases |lines| - i
  {
    if i < |lines| - 1 && TrimSpace(lines[i]) == "" then SkipBlank(lines, i + 1) else i
  }

  // The line that closes a fence, from a line on; past the end when none does.
  function Closing(rest: seq<string>, j: nat, c: char, n: nat): (end: nat)
    requires j <= |rest|
    ensures j <= end <= |rest|
    decreases |rest| - j
  {
    if j == |rest| || Closes(rest[j], c, n) then j else Closing(rest, j + 1, c, n)
  }

  function ReadBlock(rest: seq<string>, v: Value): Result<Value>
    requires rest != []
  {
    match Opening(rest[0])
    case None => Ok(v.(code := Join(rest)))
    case Some(Fence(c, n, info)) =>
      var w := if v.language == "" then v.(language := info) else v;
      var end := Closing(rest, 1, c, n);
      if end == |rest| then Ok(w.(code := Join(rest[1..])))
      else if TrimSpace(Join(rest[end + 1..])) != "" then Err(TextAfterBlock)
      else Ok(w.(code := Join(rest[1..end])))
  }

  function Parsed(lines: seq<string>, unquote: string -> Option<string>): Result<Value>
    requires lines != []
  {
    if lines[0] != Rule then ReadBlock(lines, Unread)
    else match Front(lines, 1, Unread, unquote)
      case Err(e) => Err(e)
      case Ok((i, v)) =>
        var j := SkipBlank(lines, i);
        if j >= |lines| then Ok(v) else ReadBlock(lines[j..], v)
  }

  method OpenFence(line: string) returns (fence: Option<Fence>)
    ensures fence == Opening(line)
  {
    if |line| < 3 || (line[0] != '`' && line[0] != '~') { return None; }
    var c := line[0];
    var n := 0;
    while n < |line| && line[n] == c
      invariant n <= Leading(line, c)
    {
      n := n + 1;
    }
    if n < 3 { return None; }
    var info := TrimSpace(line[n..]);
    if c == '`' && '`' in info { return None; }
    fence := Some(Fence(c, n, Before(info, ' ')));
  }

  method CloseFence(line: string, c: char, n: nat) returns (closes: bool)
    ensures closes == Closes(line, c, n)
  {
    var trimmed := TrimRight(line, IsBlank);
    if |trimmed| < n { return false; }
    for i := 0 to |trimmed|
      invariant forall k :: 0 <= k < i ==> trimmed[k] == c
    {
      if trimmed[i] != c { return false; }
    }
    return true;
  }

  method ParseFront(lines: seq<string>, unquote: string -> Option<string>) returns (r: Result<(nat, Value)>)
    requires lines != []
    ensures r == Front(lines, 1, Unread, unquote)
  {
    var v := Unread;
    for i := 1 to |lines|
      invariant Front(lines, i, v, unquote) == Front(lines, 1, Unread, unquote)
    {
      if lines[i] == Rule { return Ok((i + 1, v)); }
      if Skipped(lines[i]) { continue; }
      match ReadPair(lines[i], i, unquote) {
        case Err(e) => return Err(e);
        case Ok((k, val)) => v := With(v, k, val);
      }
    }
    return Err(NotClosed);
  }

  method ParseBlock(rest: seq<string>, v: Value) returns (r: Result<Value>)
    requires rest != []
    ensures r == ReadBlock(rest, v)
  {
    var fence := OpenFence(rest[0]);
    if fence.None? { return Ok(v.(code := Join(rest))); }
    var w := v;
    if w.language == "" { w := w.(language := fence.value.info); }
    var j := 1;
    while j < |rest|
      invariant 1 <= j <= |rest|
      invariant Closing(rest, j, fence.value.mark, fence.value.n) == Closing(rest, 1, fence.value.mark, fence.value.n)
    {
      var closes := CloseFence(rest[j], fence.value.mark, fence.value.n);
      if closes { break; }
      j := j + 1;
    }
    if j == |rest| { return Ok(w.(code := Join(rest[1..]))); }
    if TrimSpace(Join(rest[j + 1..])) != "" { return Err(TextAfterBlock); }
    return Ok(w.(code := Join(rest[1..j])));
  }

  method SkipLines(lines: seq<string>, from: nat) returns (i: nat)
    requires from <= |lines|
    ensures i == SkipBlank(lines, from)
  {
    i := from;
    while i < |lines| - 1 && TrimSpace(lines[i]) == ""
      invariant i <= |lines| && SkipBlank(lines, i) == SkipBlank(lines, from)
    {
      i := i + 1;
    }
  }

  method Parse(s: string, unquote: string -> Option<string>) returns (r: Result<Value>)
    ensures r == Parsed(Lines(Unix(s)), unquote)
  {
    var lines := Lines(Unix(s));
    if lines[0] != Rule {
      r := ParseBlock(lines, Unread);
      return;
    }
    var front := ParseFront(lines, unquote);
    if front.Err? { return Err(front.error); }
    var i, v := front.value.0, front.value.1;
    i := SkipLines(lines, i);
    if i >= |lines| { return Ok(v); }
    r := ParseBlock(lines[i..], v);
  }
}
