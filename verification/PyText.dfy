/**
  The Python string operations the text-file modules use: whitespace and line boundaries of
  `str`, stripping, splitlines, and universal-newline reading.
  */
module PyText {

  /** str.isspace(); the same characters `\s` matches in a str pattern. */
  predicate IsSpace(c: char) {
    var n := c as int;
    || 9 <= n <= 13 || 28 <= n <= 32
    || n == 0x85 || n == 0xA0 || n == 0x1680 || 0x2000 <= n <= 0x200A
    || n == 0x2028 || n == 0x2029 || n == 0x202F || n == 0x205F || n == 0x3000
  }

  /** The single characters str.splitlines() breaks at. */
  predicate IsBreak(c: char) {
    var n := c as int;
    10 <= n <= 13 || 28 <= n <= 30 || n == 0x85 || n == 0x2028 || n == 0x2029
  }

  predicate IsQuote(c: char) {
    c == '\'' || c == '\"'
  }

  predicate NoBreaks(s: string) {
    forall i :: 0 <= i < |s| ==> !IsBreak(s[i])
  }

  predicate All(s: string, p: char -> bool) {
    forall i :: 0 <= i < |s| ==> p(s[i])
  }

  // ----- strip

  /** How many characters lstrip removes. */
  function LeadCount(s: string, drop: char -> bool): (r: nat)
    ensures r <= |s|
  {
    if s != "" && drop(s[0]) then 1 + LeadCount(s[1..], drop) else 0
  }

  /** How many characters rstrip keeps. */
  function KeepCount(s: string, drop: char -> bool): (r: nat)
    ensures r <= |s|
  {
    if s != "" && drop(s[|s| - 1]) then KeepCount(s[..|s| - 1], drop) else |s|
  }

  function TrimLeft(s: string, drop: char -> bool): string {
    s[LeadCount(s, drop)..]
  }

  function TrimRight(s: string, drop: char -> bool): string {
    s[..KeepCount(s, drop)]
  }

  function Trim(s: string, drop: char -> bool): string {
    TrimRight(TrimLeft(s, drop), drop)
  }

  function Strip(s: string): string {
    Trim(s, IsSpace)
  }

  function StripQuotes(s: string): string {
    Trim(s, IsQuote)
  }

  /** str.lower(), exact for the letters A to Z. */
  function LowerCase(s: string): string {
    seq(|s|, i requires 0 <= i < |s| => if 'A' <= s[i] <= 'Z' then ((s[i] as int) + 32) as char else s[i])
  }

  /** str.lower() changes the letters A to Z to the small ones and nothing else. */
  lemma LowerCaseAt(s: string, i: nat)
    requires i < |s|
    ensures |LowerCase(s)| == |s|
    ensures var c := LowerCase(s)[i];
            && ('A' <= s[i] <= 'Z' ==> 'a' <= c <= 'z' && c - 'a' == s[i] - 'A')
            && (!('A' <= s[i] <= 'Z') ==> c == s[i])
  {
  }

  /** Skipping droppable characters in front of text that starts with a kept one. */
  lemma {:induction false} TrimLeftOf(a: string, b: string, drop: char -> bool)
    requires All(a, drop) && (b == "" || !drop(b[0]))
    ensures TrimLeft(a + b, drop) == b
    decreases a
  {
    if a == "" {
      assert a + b == b;
    } else {
      assert (a + b)[1..] == a[1..] + b;
      TrimLeftOf(a[1..], b, drop);
    }
  }

  lemma {:induction false} TrimRightOf(a: string, b: string, drop: char -> bool)
    requires All(b, drop) && (a == "" || !drop(a[|a| - 1]))
    ensures TrimRight(a + b, drop) == a
    decreases b
  {
    if b == "" {
      assert a + b == a;
    } else {
      assert (a + b)[..|a + b| - 1] == a + b[..|b| - 1];
      TrimRightOf(a, b[..|b| - 1], drop);
    }
  }

  lemma {:induction false} LeftParts(s: string, drop: char -> bool) returns (a: string)
    ensures s == a + TrimLeft(s, drop) && All(a, drop)
    ensures TrimLeft(s, drop) == "" || !drop(TrimLeft(s, drop)[0])
    decreases s
  {
    if s != "" && drop(s[0]) {
      var a' := LeftParts(s[1..], drop);
      a := [s[0]] + a';
    } else {
      a := "";
    }
  }

  lemma {:induction false} RightParts(s: string, drop: char -> bool) returns (b: string)
    ensures s == TrimRight(s, drop) + b && All(b, drop)
    ensures var r := TrimRight(s, drop); r == "" || !drop(r[|r| - 1])
    decreases s
  {
    if s != "" && drop(s[|s| - 1]) {
      var b' := RightParts(s[..|s| - 1], drop);
      b := b' + [s[|s| - 1]];
    } else {
      b := "";
    }
  }

  lemma Assoc(a: string, b: string, c: string)
    ensures (a + b) + c == a + (b + c)
  {
  }

  /** Stripping finds the one core with kept ends. */
  lemma TrimOf(a: string, core: string, b: string, drop: char -> bool)
    requires All(a, drop) && All(b, drop)
    requires core != "" && !drop(core[0]) && !drop(core[|core| - 1])
    ensures Trim(a + core + b, drop) == core
  {
    assert a + core + b == a + (core + b);
    TrimLeftOf(a, core + b, drop);
    TrimRightOf(core, b, drop);
  }

  lemma TrimOfDropped(a: string, drop: char -> bool)
    requires All(a, drop)
    ensures Trim(a, drop) == ""
  {
    assert a == a + "";
    TrimLeftOf(a, "", drop);
  }

  /** Every string is droppable text, its stripped core, droppable text. */
  lemma TrimParts(s: string, drop: char -> bool) returns (a: string, b: string)
    ensures s == a + Trim(s, drop) + b && All(a, drop) && All(b, drop)
    ensures var core := Trim(s, drop); core != "" ==> !drop(core[0]) && !drop(core[|core| - 1])
  {
    a := LeftParts(s, drop);
    b := RightParts(TrimLeft(s, drop), drop);
  }

  lemma AllOfConcat(a: string, b: string, p: char -> bool)
    ensures All(a + b, p) <==> All(a, p) && All(b, p)
  {
    if All(a + b, p) {
      assert forall i :: 0 <= i < |a| ==> a[i] == (a + b)[i];
      assert forall i :: 0 <= i < |b| ==> b[i] == (a + b)[|a| + i];
    }
  }

  /** Trailing droppable text does not matter to stripping. */
  lemma TrimIgnoresTrimRight(s: string, drop: char -> bool)
    ensures Trim(TrimRight(s, drop), drop) == Trim(s, drop)
  {
    var a, b := TrimParts(s, drop);
    var core := Trim(s, drop);
    if core == "" {
      var c := RightParts(s, drop);
      AllOfConcat(a, b, drop);
      assert s == a + b;
      AllOfConcat(TrimRight(s, drop), c, drop);
      TrimOfDropped(TrimRight(s, drop), drop);
    } else {
      assert (a + core)[|a + core| - 1] == core[|core| - 1];
      TrimRightOf(a + core, b, drop);
      TrimOf(a, core, "", drop);
      assert a + core + "" == a + core;
    }
  }

  /** Text with kept ends stays as it is. */
  lemma StripKeeps(s: string)
    requires s != "" && !IsSpace(s[0]) && !IsSpace(s[|s| - 1])
    ensures Strip(s) == s
  {
    TrimOf("", s, "", IsSpace);
    assert "" + s + "" == s;
  }

  lemma StripTwice(s: string)
    ensures Strip(Strip(s)) == Strip(s)
  {
    var a, b := TrimParts(s, IsSpace);
    var core := Strip(s);
    if core != "" {
      TrimOf("", core, "", IsSpace);
      assert "" + core + "" == core;
    }
  }

  lemma StripNonblank(s: string)
    requires s != "" && !IsSpace(s[0])
    ensures Strip(s) != ""
  {
    var a, b := TrimParts(s, IsSpace);
    assert s == a + Strip(s) + b;
    assert Strip(s) == "" ==> s == a + b;
    AllOfConcat(a, b, IsSpace);
  }

  /** Text behind a kept character is stripped on its own. */
  lemma TrimRightAfter(a: string, b: string, drop: char -> bool)
    requires a != "" && !drop(a[|a| - 1])
    ensures TrimRight(a + b, drop) == a + TrimRight(b, drop)
  {
    var kept := TrimRight(b, drop);
    var c := RightParts(b, drop);
    assert a + b == (a + kept) + c;
    assert kept != "" ==> (a + kept)[|a + kept| - 1] == kept[|kept| - 1];
    TrimRightOf(a + kept, c, drop);
  }

  lemma TrimKeepsNoBreaks(s: string, drop: char -> bool)
    requires NoBreaks(s)
    ensures NoBreaks(Trim(s, drop))
  {
    var a, b := TrimParts(s, drop);
    var core := Trim(s, drop);
    assert forall i :: 0 <= i < |core| ==> core[i] == (a + core + b)[|a| + i];
  }

  // ----- the first occurrence of a character

  function IndexOf(s: string, c: char): (r: nat)
    requires c in s
    ensures r < |s| && s[r] == c && c !in s[..r]
  {
    if s[0] == c then 0 else 1 + IndexOf(s[1..], c)
  }

  lemma {:induction false} IndexOfAt(a: string, c: char, b: string)
    requires c !in a
    ensures c in a + [c] + b && IndexOf(a + [c] + b, c) == |a|
    decreases a
  {
    assert (a + [c] + b)[|a|] == c;
    if a != "" {
      assert (a + [c] + b)[1..] == a[1..] + [c] + b;
      IndexOfAt(a[1..], c, b);
    }
  }

  // ----- lines

  /** Text mode reading translates every line ending to a newline. */
  function ReadText(raw: string): (text: string)
    ensures NoReturns(text)
  {
    if raw == "" then ""
    else if raw[0] != '\r' then [raw[0]] + ReadText(raw[1..])
    else if |raw| > 1 && raw[1] == '\n' then ['\n'] + ReadText(raw[2..])
    else ['\n'] + ReadText(raw[1..])
  }

  function FirstBreak(s: string): (r: nat)
    ensures r <= |s| && NoBreaks(s[..r])
    ensures r < |s| ==> IsBreak(s[r])
  {
    if s == "" || IsBreak(s[0]) then 0 else 1 + FirstBreak(s[1..])
  }

  /** str.splitlines() of text that was read in text mode. */
  function SplitLines(text: string): (lines: seq<string>)
    ensures forall i :: 0 <= i < |lines| ==> NoBreaks(lines[i])
  {
    if text == "" then []
    else
      var k := FirstBreak(text);
      [text[..k]] + if k == |text| then [] else SplitLines(text[k + 1..])
  }

  /** "\n".join(lines) + "\n" */
  function JoinLines(lines: seq<string>): string {
    if lines == [] then "\n"
    else if |lines| == 1 then lines[0] + "\n"
    else lines[0] + "\n" + JoinLines(lines[1..])
  }

  lemma {:induction false} ReadTextKeeps(s: string)
    requires NoReturns(s)
    ensures ReadText(s) == s
  {
    if s != "" {
      ReadTextKeeps(s[1..]);
    }
  }

  lemma {:induction false} FirstBreakOf(line: string, rest: string)
    requires NoBreaks(line)
    ensures FirstBreak(line + "\n" + rest) == |line|
    decreases line
  {
    if line != "" {
      assert (line + "\n" + rest)[1..] == line[1..] + "\n" + rest;
      FirstBreakOf(line[1..], rest);
    }
  }

  predicate NoReturns(s: string) {
    forall i :: 0 <= i < |s| ==> s[i] != '\r'
  }

  lemma {:induction false} JoinHasNoReturn(lines: seq<string>)
    requires forall i :: 0 <= i < |lines| ==> NoBreaks(lines[i])
    ensures NoReturns(JoinLines(lines))
  {
    assert IsBreak('\r');
    if lines != [] {
      assert NoReturns(lines[0]);
      JoinHasNoReturn(lines[1..]);
    }
  }

  /** Lines without breaks survive being written and read back. */
  lemma {:induction false} LinesRoundTrip(lines: seq<string>)
    requires lines != [] && forall i :: 0 <= i < |lines| ==> NoBreaks(lines[i])
    ensures SplitLines(ReadText(JoinLines(lines))) == lines
  {
    JoinHasNoReturn(lines);
    ReadTextKeeps(JoinLines(lines));
    SplitJoin(lines);
  }

  lemma {:induction false} SplitJoin(lines: seq<string>)
    requires lines != [] && forall i :: 0 <= i < |lines| ==> NoBreaks(lines[i])
    ensures SplitLines(JoinLines(lines)) == lines
  {
    var text := JoinLines(lines);
    if |lines| == 1 {
      FirstBreakOf(lines[0], "");
      assert text == lines[0] + "\n" + "";
      assert text[..|lines[0]|] == lines[0] && text[|lines[0]| + 1..] == "";
    } else {
      var rest := JoinLines(lines[1..]);
      FirstBreakOf(lines[0], rest);
      assert text[..|lines[0]|] == lines[0] && text[|lines[0]| + 1..] == rest;
      SplitJoin(lines[1..]);
    }
  }
}
