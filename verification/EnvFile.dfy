/**
  The .env printer and parser of the lab paper probe: setting one key rewrites every line the
  key's pattern matches (or appends one), and parsing folds the lines into a map.
  */
module EnvFile {
  import opened Wrappers
  import opened PyText

  type Env = map<string, string>

  const PREFIX := "TRADEO_"
  const EXPORT := "export"

  // ----- the parser

  /** The binding one line contributes, if any. */
  function ParseLine(raw: string): Option<(string, string)> {
    var line := Strip(raw);
    if line == "" || line[0] == '#' || '=' !in line then None
    else ParseBinding(if EXPORT + " " <= line then Strip(line[7..]) else line)
  }

  function ParseBinding(line: string): Option<(string, string)> {
    if '=' !in line then None
    else
      var k := IndexOf(line, '=');
      var key := Strip(line[..k]);
      if PREFIX <= key then Some((key, Clean(line[k + 1..]))) else None
  }

  function Clean(value: string): string {
    StripQuotes(Strip(value))
  }

  /** Blanks outside, quotes of either kind inside them, and nothing else is taken off a value. */
  lemma CleanOf(a: string, q: string, core: string, q': string, b: string)
    requires All(a, IsSpace) && All(b, IsSpace) && All(q, IsQuote) && All(q', IsQuote)
    requires core == "" || (!IsQuote(core[0]) && !IsQuote(core[|core| - 1]))
    requires var quoted := q + core + q'; quoted == "" || (!IsSpace(quoted[0]) && !IsSpace(quoted[|quoted| - 1]))
    ensures Clean(a + (q + core + q') + b) == core
  {
    var quoted := q + core + q';
    if quoted == "" {
      TrimOfDropped(a + quoted + b, IsSpace);
    } else {
      TrimOf(a, quoted, b, IsSpace);
    }
    if core == "" {
      TrimOfDropped(quoted, IsQuote);
    } else {
      TrimOf(q, core, q', IsQuote);
    }
  }

  type Binding = Option<(string, string)>

  function ParseAll(lines: seq<string>): (r: seq<Binding>)
    ensures |r| == |lines|
  {
    seq(|lines|, i requires 0 <= i < |lines| => ParseLine(lines[i]))
  }

  /** Later bindings win. */
  function Collect(bindings: seq<Binding>): Env {
    if bindings == [] then map[]
    else
      var env := Collect(bindings[..|bindings| - 1]);
      match bindings[|bindings| - 1]
      case None => env
      case Some((key, value)) => env[key := value]
  }

  function ParseLines(lines: seq<string>): Env {
    Collect(ParseAll(lines))
  }

  function LinesOf(raw: string): seq<string> {
    SplitLines(ReadText(raw))
  }

  function ParseText(raw: string): Env {
    ParseLines(LinesOf(raw))
  }

  // ----- the printer

  predicate HasExport(rest: string) {
    EXPORT <= rest && |rest| > 6 && IsSpace(rest[6])
  }

  function DropExport(rest: string): string {
    if HasExport(rest) then TrimLeft(rest[6..], IsSpace) else rest
  }

  /** Text after optional leading blanks and an optional `export` followed by blanks. */
  function AfterExport(line: string): string {
    DropExport(TrimLeft(line, IsSpace))
  }

  /** The line matches ^\s*(?:export\s+)?KEY\s*=.*$ */
  predicate Matches(line: string, key: string) {
    var rest := AfterExport(line);
    key <= rest && ['='] <= TrimLeft(rest[|key|..], IsSpace)
  }

  /** Group 1 of that match: everything up to and including the equals sign. */
  function MatchedPrefix(line: string, key: string): string
    requires Matches(line, key)
  {
    var tail := TrimLeft(AfterExport(line)[|key|..], IsSpace);
    assert |tail| <= |AfterExport(line)| <= |line|;
    line[..|line| - |tail| + 1]
  }

  function SetLine(line: string, key: string, value: string): string {
    if Matches(line, key) then MatchedPrefix(line, key) + value else line
  }

  function SetEach(lines: seq<string>, key: string, value: string): (r: seq<string>)
    ensures |r| == |lines|
  {
    seq(|lines|, i requires 0 <= i < |lines| => SetLine(lines[i], key, value))
  }

  predicate AnyMatch(lines: seq<string>, key: string) {
    exists i :: 0 <= i < |lines| && Matches(lines[i], key)
  }

  function SetLines(lines: seq<string>, key: string, value: string): (r: seq<string>)
    ensures r != []
  {
    if AnyMatch(lines, key) then SetEach(lines, key, value)
    else SetEach(lines, key, value) + [key + "=" + value]
  }

  function SetText(raw: string, key: string, value: string): string {
    JoinLines(SetLines(LinesOf(raw), key, value))
  }

  // ----- which lines the parser sees

  /** Keys the probe sets: TRADEO_ names that survive being a key in a file. */
  predicate IsKey(key: string) {
    PREFIX <= key && '=' !in key && NoBreaks(key) && !IsSpace(key[|key| - 1])
  }

  /** The parser accepts `export` only with a plain space behind it. */
  predicate Visible(line: string, key: string) {
    && Matches(line, key)
    && var rest := TrimLeft(line, IsSpace);
       HasExport(rest) ==> rest[6] == ' '
  }

  ghost predicate AnyVisible(lines: seq<string>, key: string) {
    exists i :: 0 <= i < |lines| && Visible(lines[i], key)
  }

  /** blanks, a head (nothing, or `export` and blanks), the key, blanks, an equals sign, anything. */
  function Shape(a: string, h: string, key: string, c: string, tail: string): string {
    a + (h + (key + (c + ("=" + tail))))
  }

  predicate IsHead(h: string) {
    h == "" || (HasExport(h) && All(h[6..], IsSpace))
  }

  predicate PlainHead(h: string) {
    h == "" || (|h| > 6 && h[6] == ' ')
  }

  ghost predicate Parts(a: string, h: string, c: string) {
    All(a, IsSpace) && IsHead(h) && All(c, IsSpace)
  }

  // ----- small facts about concatenation, so that the proofs below rewrite instead of searching

  /** rstrip reaches into the right part when something of it is kept. */
  lemma TrimRightPush(a: string, b: string)
    requires TrimRight(b, IsSpace) != ""
    ensures TrimRight(a + b, IsSpace) == a + TrimRight(b, IsSpace) != ""
  {
    var kept := TrimRight(b, IsSpace);
    var z := RightParts(b, IsSpace);
    assert (a + kept)[|a + kept| - 1] == kept[|kept| - 1];
    Assoc(a, kept, z);
    TrimRightOf(a + kept, z, IsSpace);
  }

  lemma TrimRightTwice(s: string)
    ensures TrimRight(TrimRight(s, IsSpace), IsSpace) == TrimRight(s, IsSpace)
  {
    var z := RightParts(s, IsSpace);
    TrimRightOf(TrimRight(s, IsSpace), "", IsSpace);
    assert TrimRight(s, IsSpace) + "" == TrimRight(s, IsSpace);
  }

  lemma TrimRightEquals(tail: string)
    ensures TrimRight("=" + tail, IsSpace) == "=" + TrimRight(tail, IsSpace)
  {
    TrimRightAfter("=", tail, IsSpace);
  }

  lemma StartsWith(key: string, rest: string)
    requires key != ""
    ensures key + rest != "" && (key + rest)[0] == key[0]
  {
  }

  // ----- what the parser makes of a line of that shape

  lemma StripBinding(b: string, key: string, c: string, tail: string)
    requires IsKey(key) && All(b, IsSpace)
    ensures Strip(b + (key + (c + ("=" + tail)))) == key + (c + ("=" + TrimRight(tail, IsSpace)))
  {
    StartsWith(key, c + ("=" + tail));
    assert key[0] == 'T';
    TrimLeftOf(b, key + (c + ("=" + tail)), IsSpace);
    TrimRightEquals(tail);
    TrimRightPush(c, "=" + tail);
    TrimRightPush(key, c + ("=" + tail));
  }

  lemma StripExported(a: string, h: string, key: string, c: string, tail: string)
    requires IsKey(key) && Parts(a, h, c) && h != ""
    ensures Strip(Shape(a, h, key, c, tail)) == h + (key + (c + ("=" + TrimRight(tail, IsSpace))))
  {
    StartsWith(h, key + (c + ("=" + tail)));
    assert h[0] == EXPORT[0] == 'e';
    TrimLeftOf(a, h + (key + (c + ("=" + tail))), IsSpace);
    TrimRightEquals(tail);
    TrimRightPush(c, "=" + tail);
    TrimRightPush(key, c + ("=" + tail));
    TrimRightPush(h, key + (c + ("=" + tail)));
  }

  /** A binding whose name part is known. */
  lemma ParseNamed(name: string, value: string)
    requires '=' !in name
    ensures var key := Strip(name);
            ParseBinding(name + ("=" + value)) == if PREFIX <= key then Some((key, Clean(value))) else None
  {
    IndexOfAt(name, '=', value);
    assert name + ("=" + value) == name + ['='] + value;
    Assoc(name, "=", value);
  }

  lemma StripName(key: string, c: string)
    requires key != "" && All(c, IsSpace) && !IsSpace(key[0]) && !IsSpace(key[|key| - 1])
    ensures Strip(key + c) == key
  {
    TrimOf("", key, c, IsSpace);
    assert "" + key + c == key + c;
  }

  lemma ParseKeyBinding(key: string, c: string, tail: string)
    requires IsKey(key) && All(c, IsSpace)
    ensures ParseBinding(key + (c + ("=" + TrimRight(tail, IsSpace)))) == Some((key, Clean(tail)))
  {
    var kept := TrimRight(tail, IsSpace);
    assert key[0] == 'T';
    StripName(key, c);
    ParseNamed(key + c, kept);
    Assoc(key, c, "=" + kept);
    TrimIgnoresTrimRight(tail, IsSpace);
  }

  /** Anything but a space right behind `export` makes it part of the key. */
  lemma ParseBadExport(h: string, key: string, c: string, kept: string)
    requires IsKey(key) && All(c, IsSpace) && IsHead(h) && h != ""
    ensures ParseBinding(h + (key + (c + ("=" + kept)))) == None
  {
    var name := h + key;
    assert h == EXPORT + h[6..];
    assert name[0] == 'e' && name[|name| - 1] == key[|key| - 1];
    StripName(name, c);
    ParseNamed(name + c, kept);
    Assoc(h, key, c);
    Assoc(h, key + c, "=" + kept);
    Assoc(key, c, "=" + kept);
  }

  lemma HasEquals(x: string, y: string)
    requires '=' in y
    ensures '=' in x + y
  {
    var i :| 0 <= i < |y| && y[i] == '=';
    assert (x + y)[|x| + i] == '=';
  }

  /** The key is bound unless `export` is followed by something else than a space. */
  lemma ParseShape(a: string, h: string, key: string, c: string, tail: string)
    requires IsKey(key) && Parts(a, h, c)
    ensures ParseLine(Shape(a, h, key, c, tail)) == if PlainHead(h) then Some((key, Clean(tail))) else None
  {
    var kept := TrimRight(tail, IsSpace);
    var binding := key + (c + ("=" + kept));
    StartsWith("=", kept);
    HasEquals(c, "=" + kept);
    HasEquals(key, c + ("=" + kept));
    if h == "" {
      assert h + (key + (c + ("=" + tail))) == key + (c + ("=" + tail));
      StripBinding(a, key, c, tail);
      StartsWith(key, c + ("=" + kept));
      assert binding[0] == 'T';
      ParseKeyBinding(key, c, tail);
    } else {
      ParseExported(a, h, key, c, tail);
    }
  }

  lemma ParseExported(a: string, h: string, key: string, c: string, tail: string)
    requires IsKey(key) && Parts(a, h, c) && h != ""
    ensures ParseLine(Shape(a, h, key, c, tail)) == if PlainHead(h) then Some((key, Clean(tail))) else None
  {
    var kept := TrimRight(tail, IsSpace);
    var binding := key + (c + ("=" + kept));
    StripExported(a, h, key, c, tail);
    HasEquals(c, "=" + kept);
    HasEquals(key, c + ("=" + kept));
    HasEquals(h, binding);
    StartsWith(h, binding);
    assert h[0] == EXPORT[0] == 'e';
    ExportPrefix(h, binding);
    if PlainHead(h) {
      TrimRightTwice(tail);
      TrimExportTail(h, key, c, kept);
      ParseKeyBinding(key, c, tail);
    } else {
      ParseBadExport(h, key, c, kept);
    }
  }

  lemma ExportPrefix(h: string, rest: string)
    requires IsHead(h) && h != ""
    ensures EXPORT + " " <= h + rest <==> PlainHead(h)
    ensures (h + rest)[7..] == h[7..] + rest
  {
    var s := h + rest;
    assert s[..7] == EXPORT + [h[6]];
    if h[6] == ' ' {
      assert s[..7] == EXPORT + " ";
    }
    if EXPORT + " " <= s {
      assert (EXPORT + " ")[6] == s[6];
    }
  }

  lemma TrimExportTail(h: string, key: string, c: string, kept: string)
    requires IsKey(key) && IsHead(h) && h != "" && kept == TrimRight(kept, IsSpace)
    ensures Strip(h[7..] + (key + (c + ("=" + kept)))) == key + (c + ("=" + kept))
  {
    assert All(h[7..], IsSpace) by {
      assert h[7..] == h[6..][1..];
    }
    StripBinding(h[7..], key, c, kept);
  }

  // ----- every matched line has that shape, and only those bind the key

  lemma HeadParts(rest: string) returns (h: string)
    ensures rest == h + DropExport(rest) && IsHead(h)
    ensures PlainHead(h) <==> (HasExport(rest) ==> rest[6] == ' ')
  {
    if HasExport(rest) {
      var b := LeftParts(rest[6..], IsSpace);
      h := EXPORT + b;
    } else {
      h := "";
    }
  }

  /** The parts of a matched line. */
  lemma MatchedShape(line: string, key: string) returns (a: string, h: string, c: string, tail: string)
    requires IsKey(key) && Matches(line, key)
    ensures Parts(a, h, c)
    ensures line == Shape(a, h, key, c, tail)
    ensures TrimLeft(AfterExport(line)[|key|..], IsSpace) == "=" + tail
    ensures Visible(line, key) <==> PlainHead(h)
  {
    a := LeftParts(line, IsSpace);
    h := HeadParts(TrimLeft(line, IsSpace));
    c, tail := KeyParts(AfterExport(line), key);
  }

  lemma KeyParts(after: string, key: string) returns (c: string, tail: string)
    requires key <= after && ['='] <= TrimLeft(after[|key|..], IsSpace)
    ensures after == key + (c + ("=" + tail)) && All(c, IsSpace)
    ensures TrimLeft(after[|key|..], IsSpace) == "=" + tail
  {
    c := LeftParts(after[|key|..], IsSpace);
    var equals := TrimLeft(after[|key|..], IsSpace);
    tail := equals[1..];
    assert equals == "=" + tail;
    assert after == key + after[|key|..];
  }

  /** Setting a matched line replaces exactly what stands behind its equals sign. */
  lemma SetMatchedLine(line: string, key: string, value: string)
    returns (a: string, h: string, c: string, tail: string)
    requires IsKey(key) && Matches(line, key)
    ensures Parts(a, h, c)
    ensures line == Shape(a, h, key, c, tail) && SetLine(line, key, value) == Shape(a, h, key, c, value)
    ensures Visible(line, key) <==> PlainHead(h)
  {
    a, h, c, tail := MatchedShape(line, key);
    var front := a + (h + (key + c));
    ShapeFront(a, h, key, c, tail);
    ShapeFront(a, h, key, c, value);
    Assoc(front, "=", tail);
    Assoc(front, "=", value);
    assert |line| - |"=" + tail| + 1 == |front + "="|;
  }

  lemma ShapeFront(a: string, h: string, key: string, c: string, tail: string)
    ensures Shape(a, h, key, c, tail) == (a + (h + (key + c))) + ("=" + tail)
  {
    Assoc(key, c, "=" + tail);
    Assoc(h, key + c, "=" + tail);
    Assoc(a, h + (key + c), "=" + tail);
  }

  /** A line of that shape is matched. */
  lemma ShapeMatches(a: string, h: string, key: string, c: string, tail: string)
    requires IsKey(key) && Parts(a, h, c)
    ensures Matches(Shape(a, h, key, c, tail), key)
    ensures Visible(Shape(a, h, key, c, tail), key) <==> PlainHead(h)
  {
    var after := key + (c + ("=" + tail));
    StartsWith(key, c + ("=" + tail));
    assert after[0] == 'T';
    HeadDrops(h, after);
    TrimLeftOf(a, h + after, IsSpace);
    StartsWith("=", tail);
    TrimLeftOf(c, "=" + tail, IsSpace);
  }

  lemma HeadDrops(h: string, after: string)
    requires IsHead(h) && after != "" && after[0] == 'T'
    ensures var rest := h + after;
            && DropExport(rest) == after
            && (HasExport(rest) <==> h != "")
            && (h != "" ==> rest[6] == h[6])
            && rest != "" && !IsSpace(rest[0])
  {
    if h != "" {
      assert (h + after)[6..] == h[6..] + after;
      TrimLeftOf(h[6..], after, IsSpace);
      assert h[0] == EXPORT[0] == 'e';
    } else {
      assert h + after == after;
    }
  }

  /** Whatever line binds the key is matched, and visibly so. */
  lemma BindingLineIsVisible(line: string, key: string)
    requires IsKey(key)
    ensures ParseLine(line).Some? && ParseLine(line).value.0 == key ==> Visible(line, key)
  {
    if ParseLine(line).Some? && ParseLine(line).value.0 == key {
      var a, z := TrimParts(line, IsSpace);
      var s := Strip(line);
      if EXPORT + " " <= s {
        ExportedLineIsVisible(a, s, z, key);
      } else {
        PlainLineIsVisible(a, s, z, key);
      }
    }
  }

  lemma PlainLineIsVisible(a: string, s: string, z: string, key: string)
    requires IsKey(key) && All(a, IsSpace) && s != "" && !IsSpace(s[0])
    requires ParseBinding(s).Some? && ParseBinding(s).value.0 == key
    ensures Visible(a + s + z, key)
  {
    var c, tail := BindingParts(s, key);
    assert "" + s + "" == s;
    ShapeAppend(a, "", key, c, tail, "", z);
    ShapeMatches(a, "", key, c, (tail + "") + z);
  }

  lemma ExportedLineIsVisible(a: string, s: string, z: string, key: string)
    requires IsKey(key) && All(a, IsSpace) && EXPORT + " " <= s
    requires ParseBinding(Strip(s[7..])).Some? && ParseBinding(Strip(s[7..])).value.0 == key
    ensures Visible(a + s + z, key)
  {
    var b, y := TrimParts(s[7..], IsSpace);
    var c, tail := BindingParts(Strip(s[7..]), key);
    ExportedBinding(s, b, Strip(s[7..]), y);
    var h := EXPORT + (" " + b);
    ShapeAppend(a, h, key, c, tail, y, z);
    ShapeMatches(a, h, key, c, (tail + y) + z);
  }

  lemma ExportedBinding(s: string, b: string, inner: string, y: string)
    requires EXPORT + " " <= s && s[7..] == b + inner + y && All(b, IsSpace)
    ensures s == EXPORT + (" " + b) + inner + y
    ensures var h := EXPORT + (" " + b); IsHead(h) && PlainHead(h)
  {
    var h := EXPORT + (" " + b);
    assert s == EXPORT + " " + s[7..];
    assert h[6..] == " " + b;
  }

  lemma ShapeAppend(a: string, h: string, key: string, c: string, tail: string, y: string, z: string)
    ensures a + (h + (key + (c + ("=" + tail))) + y) + z == Shape(a, h, key, c, (tail + y) + z)
  {
    var left := a + (h + (key + c));
    ShapeFront("", h, key, c, tail);
    ShapeFront(a, h, key, c, (tail + y) + z);
  }

  lemma CutAt(s: string, k: nat)
    requires k < |s|
    ensures s == s[..k] + ([s[k]] + s[k + 1..])
    ensures k > 0 ==> s[..k][0] == s[0]
  {
  }

  lemma BindingName(s: string, key: string)
    requires ParseBinding(s).Some? && ParseBinding(s).value.0 == key
    ensures '=' in s && Strip(s[..IndexOf(s, '=')]) == key
  {
  }

  lemma Reassembled(s: string, name: string, key: string, c: string, rest: string)
    requires s == name + rest && name == key + c
    ensures s == key + (c + rest)
  {
    Assoc(key, c, rest);
  }

  /** A stripped binding of the key is the key, blanks, an equals sign and the rest. */
  lemma BindingParts(s: string, key: string) returns (c: string, tail: string)
    requires ParseBinding(s).Some? && ParseBinding(s).value.0 == key && key != ""
    requires s != "" && !IsSpace(s[0])
    ensures s == key + (c + ("=" + tail)) && All(c, IsSpace)
  {
    BindingName(s, key);
    c, tail := PartsAt(s, key, IndexOf(s, '='));
  }

  lemma PartsAt(s: string, key: string, k: nat) returns (c: string, tail: string)
    requires k < |s| && s[k] == '=' && !IsSpace(s[0]) && Strip(s[..k]) == key != ""
    ensures s == key + (c + ("=" + tail)) && All(c, IsSpace)
  {
    tail := s[k + 1..];
    CutAt(s, k);
    c := NameParts(s[..k], key);
    Reassembled(s, s[..k], key, c, "=" + tail);
  }

  lemma NameParts(name: string, key: string) returns (c: string)
    requires Strip(name) == key && key != "" && (name == "" || !IsSpace(name[0]))
    ensures name == key + c && All(c, IsSpace)
  {
    var a;
    a, c := TrimParts(name, IsSpace);
    Assoc(a, key, c);
    NoBlankInFront(name, a, key + c);
  }

  lemma NoBlankInFront(s: string, a: string, rest: string)
    requires s == a + rest && s != "" && !IsSpace(s[0]) && All(a, IsSpace)
    ensures a == "" && s == rest
  {
  }

  // ----- the round trip

  /** The parser will see the value: the key is nowhere in the file, or on a line the parser accepts. */
  ghost predicate Reaches(lines: seq<string>, key: string) {
    AnyMatch(lines, key) ==> AnyVisible(lines, key)
  }

  predicate Binds(b: Binding, key: string) {
    b.Some? && b.value.0 == key
  }

  lemma {:induction false} BoundIffSomeBinds(bs: seq<Binding>, key: string)
    ensures key in Collect(bs) <==> exists i :: 0 <= i < |bs| && Binds(bs[i], key)
  {
    if bs != [] {
      var n := |bs| - 1;
      BoundIffSomeBinds(bs[..n], key);
      assert forall i :: 0 <= i < n ==> bs[..n][i] == bs[i];
    }
  }

  /** `after` rebinds the key wherever `before` binds it, and agrees elsewhere. */
  ghost predicate Rebinds(before: seq<Binding>, after: seq<Binding>, key: string, value: string) {
    && |after| == |before|
    && forall i :: 0 <= i < |before| ==>
         after[i] == if Binds(before[i], key) then Some((key, value)) else before[i]
  }

  lemma {:induction false} CollectRebound(before: seq<Binding>, after: seq<Binding>, key: string, value: string)
    requires Rebinds(before, after, key, value)
    ensures Collect(after) == if key in Collect(before) then Collect(before)[key := value] else Collect(before)
  {
    if before != [] {
      CollectRebound(before[..|before| - 1], after[..|before| - 1], key, value);
    }
  }

  /** What the parser sees of a line, before and after it was set. */
  lemma SetLineRebinds(line: string, key: string, value: string)
    requires IsKey(key)
    ensures ParseLine(SetLine(line, key, value))
         == if Binds(ParseLine(line), key) then Some((key, Clean(value))) else ParseLine(line)
    ensures Binds(ParseLine(line), key) <==> Visible(line, key)
  {
    if Matches(line, key) {
      var a, h, c, tail := SetMatchedLine(line, key, value);
      ParseShape(a, h, key, c, tail);
      ParseShape(a, h, key, c, value);
    } else if Binds(ParseLine(line), key) {
      BindingLineIsVisible(line, key);
    }
  }

  /** Whether the file binds the key is whether the parser sees one of its lines. */
  lemma BoundIffVisible(lines: seq<string>, key: string)
    requires IsKey(key)
    ensures key in ParseLines(lines) <==> AnyVisible(lines, key)
  {
    var bs := ParseAll(lines);
    BoundIffSomeBinds(bs, key);
    forall i | 0 <= i < |lines|
      ensures Binds(bs[i], key) <==> Visible(lines[i], key)
    {
      SetLineRebinds(lines[i], key, "");
    }
  }

  /** Rewriting every matched line changes the key's value, if the parser sees any of them, and nothing else. */
  lemma SetEachParses(lines: seq<string>, key: string, value: string)
    requires IsKey(key)
    ensures ParseLines(SetEach(lines, key, value))
         == if AnyVisible(lines, key) then ParseLines(lines)[key := Clean(value)] else ParseLines(lines)
  {
    var before, after := ParseAll(lines), ParseAll(SetEach(lines, key, value));
    forall i | 0 <= i < |lines|
      ensures after[i] == if Binds(before[i], key) then Some((key, Clean(value))) else before[i]
    {
      SetLineRebinds(lines[i], key, value);
    }
    CollectRebound(before, after, key, Clean(value));
    BoundIffVisible(lines, key);
  }

  lemma ParseAppended(lines: seq<string>, line: string)
    ensures var b := ParseLine(line);
            ParseLines(lines + [line])
            == if b.Some? then ParseLines(lines)[b.value.0 := b.value.1] else ParseLines(lines)
  {
    var all := ParseAll(lines + [line]);
    assert all[..|all| - 1] == ParseAll(lines);
  }

  lemma FreshLineParses(key: string, value: string)
    requires IsKey(key)
    ensures ParseLine(key + "=" + value) == Some((key, Clean(value)))
  {
    Assoc(key, "=", value);
    assert "" + ("=" + value) == "=" + value;
    assert "" + (key + ("=" + value)) == key + ("=" + value);
    ParseShape("", "", key, "", value);
  }

  /** Lines: the parsed map gets the cleaned value for the key, or stays as it was. */
  lemma SetLinesParse(lines: seq<string>, key: string, value: string)
    requires IsKey(key)
    ensures ParseLines(SetLines(lines, key, value))
         == if Reaches(lines, key) then ParseLines(lines)[key := Clean(value)] else ParseLines(lines)
  {
    SetEachParses(lines, key, value);
    if !AnyMatch(lines, key) {
      assert !AnyVisible(lines, key);
      FreshLineParses(key, value);
      ParseAppended(SetEach(lines, key, value), key + "=" + value);
    }
  }

  /** The file: for every text, key and one-line value, what is parsed after setting. */
  lemma SetThenParse(raw: string, key: string, value: string)
    requires IsKey(key) && NoBreaks(value)
    ensures ParseText(SetText(raw, key, value))
         == if Reaches(LinesOf(raw), key) then ParseText(raw)[key := Clean(value)] else ParseText(raw)
  {
    var lines := LinesOf(raw);
    LinesRoundTrip(SetLines(lines, key, value));
    SetLinesParse(lines, key, value);
  }

  lemma {:induction false} CollectedValues(bs: seq<Binding>)
    requires forall i :: 0 <= i < |bs| && bs[i].Some? ==> NoBreaks(bs[i].value.1)
    ensures forall k :: k in Collect(bs) ==> NoBreaks(Collect(bs)[k])
  {
    if bs != [] {
      CollectedValues(bs[..|bs| - 1]);
    }
  }

  lemma ValuesHaveNoBreaks(lines: seq<string>)
    requires forall i :: 0 <= i < |lines| ==> NoBreaks(lines[i])
    ensures forall k :: k in ParseLines(lines) ==> NoBreaks(ParseLines(lines)[k])
  {
    forall i | 0 <= i < |lines| && ParseLine(lines[i]).Some?
      ensures NoBreaks(ParseLine(lines[i]).value.1)
    {
      ValueHasNoBreaks(lines[i]);
    }
    CollectedValues(ParseAll(lines));
  }

  lemma ValueHasNoBreaks(line: string)
    requires NoBreaks(line)
    ensures ParseLine(line).Some? ==> NoBreaks(ParseLine(line).value.1)
  {
    if ParseLine(line).Some? {
      var s := Strip(line);
      TrimKeepsNoBreaks(line, IsSpace);
      if EXPORT + " " <= s {
        TrimKeepsNoBreaks(s[7..], IsSpace);
        BoundValueHasNoBreaks(Strip(s[7..]));
      } else {
        BoundValueHasNoBreaks(s);
      }
    }
  }

  lemma BoundValueHasNoBreaks(s: string)
    requires NoBreaks(s) && ParseBinding(s).Some?
    ensures NoBreaks(ParseBinding(s).value.1)
  {
    var value := s[IndexOf(s, '=') + 1..];
    TrimKeepsNoBreaks(value, IsSpace);
    TrimKeepsNoBreaks(Strip(value), IsQuote);
  }

  /**
    Exactly when the round trip is exact: the value is one line without outer blanks or quotes,
    and the file either has no line of the key or one the parser accepts.
    */
  lemma RoundTripIff(raw: string, key: string, value: string)
    requires IsKey(key)
    ensures ParseText(SetText(raw, key, value)) == ParseText(raw)[key := value]
       <==> NoBreaks(value) && Clean(value) == value && Reaches(LinesOf(raw), key)
  {
    if NoBreaks(value) {
      SetThenParse(raw, key, value);
      BoundIffVisible(LinesOf(raw), key);
      if !Reaches(LinesOf(raw), key) {
        assert key !in ParseText(raw);
      }
    } else {
      ValuesHaveNoBreaks(LinesOf(SetText(raw, key, value)));
      assert key in ParseText(raw)[key := value] && ParseText(raw)[key := value][key] == value;
    }
  }

  /** If the only line of the key is one the parser does not accept, setting it changes nothing that is parsed. */
  lemma HiddenLineIsNotUpdated(line: string, key: string, value: string)
    requires IsKey(key) && NoBreaks(value) && NoBreaks(line) && Matches(line, key) && !Visible(line, key)
    ensures var raw := JoinLines([line]);
            ParseText(SetText(raw, key, value)) == ParseText(raw) && key !in ParseText(raw)
  {
    LinesRoundTrip([line]);
    assert Matches([line][0], key);
    BoundIffVisible([line], key);
    SetThenParse(JoinLines([line]), key, value);
  }

  lemma ShapeHasNoBreaks(a: string, h: string, key: string, c: string, tail: string)
    requires NoBreaks(a) && NoBreaks(h) && NoBreaks(key) && NoBreaks(c) && NoBreaks(tail)
    ensures NoBreaks(Shape(a, h, key, c, tail))
  {
    assert NoBreaks("=" + tail);
    assert NoBreaks(c + ("=" + tail));
    assert NoBreaks(key + (c + ("=" + tail)));
    assert NoBreaks(h + (key + (c + ("=" + tail))));
  }

  /** A tab behind `export` makes such a line, for every key. */
  lemma TabbedExportIsHidden(key: string)
    requires IsKey(key)
    ensures var line := Shape("", EXPORT + "\t", key, "", "");
            NoBreaks(line) && Matches(line, key) && !Visible(line, key)
  {
    var h := EXPORT + "\t";
    assert h[6] == '\t' && h[6..] == "\t";
    ShapeHasNoBreaks("", h, key, "", "");
    ShapeMatches("", h, key, "", "");
  }
}
