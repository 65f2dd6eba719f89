/**
  The hash file of an audit package: the exporter writes one "<digest>  <path>" line per file,
  and the director's CI parses the lines back and compares them with the files present and the
  paths the manifest lists. Files are given by what hashing them now yields: any non-empty text
  without blanks.
  */
module HashFile {
  import opened Wrappers
  import opened PyText

  predicate HasSpace(s: string) {
    exists i :: 0 <= i < |s| && IsSpace(s[i])
  }

  /** From the path of each file present to its digest. */
  type Files = map<string, string>

  ghost predicate Hexadecimal(files: Files) {
    forall p :: p in files ==> files[p] != "" && !HasSpace(files[p])
  }

  const HASH_FILE := "file_hashes.sha256"

  // ----- paths

  /** Position of the first blank, or the length. */
  function FirstSpace(s: string): (r: nat)
    ensures r <= |s| && !HasSpace(s[..r])
    ensures r < |s| ==> IsSpace(s[r])
  {
    if s == "" || IsSpace(s[0]) then 0
    else
      var r := 1 + FirstSpace(s[1..]);
      assert forall i :: 0 < i < r ==> s[..r][i] == s[1..][..r - 1][i - 1];
      r
  }

  /** The slash-separated parts of a path. */
  function PathParts(path: string): (r: seq<string>)
    ensures r != []
  {
    if '/' !in path then [path]
    else
      var k := IndexOf(path, '/');
      [path[..k]] + PathParts(path[k + 1..])
  }

  predicate IsSafeRelativePath(path: string) {
    !(['/'] <= path) && ".." !in PathParts(path)
  }

  function FileName(path: string): string {
    var parts := PathParts(path);
    parts[|parts| - 1]
  }

  /** The text is made of these three, and the middle one fills the space between two slashes or the ends. */
  ghost predicate IsStep(path: string, a: string, part: string, b: string) {
    && path == a + (part + b) && '/' !in part
    && (a == "" || a[|a| - 1] == '/') && (b == "" || b[0] == '/')
  }

  lemma FirstSlash(s: string, k: nat)
    requires k < |s| && s[k] == '/' && '/' !in s[..k]
    ensures IndexOf(s, '/') == k
  {
    IndexOfAt(s[..k], '/', s[k + 1..]);
    assert s == s[..k] + ['/'] + s[k + 1..];
  }

  lemma {:induction false} PartsBehindSlash(path: string, k: nat)
    requires '/' in path && k == IndexOf(path, '/')
    ensures PathParts(path) == [path[..k]] + PathParts(path[k + 1..])
  {
  }

  lemma {:induction false} StepIsPart(path: string, a: string, part: string, b: string)
    requires IsStep(path, a, part, b)
    ensures part in PathParts(path)
    decreases |a|
  {
    if a == "" {
      assert path == part + b;
      if b != "" {
        assert path[..|part|] == part;
        FirstSlash(path, |part|);
      }
      assert PathParts(path)[0] == part;
    } else {
      assert a[|a| - 1] in a;
      var k := IndexOf(a, '/');
      assert path[..k] == a[..k];
      FirstSlash(path, k);
      assert path[k + 1..] == a[k + 1..] + (part + b);
      StepIsPart(path[k + 1..], a[k + 1..], part, b);
      PartsBehindSlash(path, k);
    }
  }

  lemma StepBehind(path: string, k: nat, a: string, part: string, b: string) returns (a': string)
    requires k < |path| && path[k] == '/' && IsStep(path[k + 1..], a, part, b)
    ensures IsStep(path, a', part, b)
  {
    a' := path[..k + 1] + a;
    assert path == path[..k + 1] + path[k + 1..];
  }

  lemma {:induction false} PartIsStep(path: string, part: string) returns (a: string, b: string)
    requires part in PathParts(path)
    ensures IsStep(path, a, part, b)
    decreases |path|
  {
    if '/' !in path {
      a, b := "", "";
      assert path == a + (part + b);
    } else {
      var k := IndexOf(path, '/');
      if part == path[..k] {
        a, b := "", path[k..];
        assert path == a + (part + b);
      } else {
        a, b := PartIsStep(path[k + 1..], part);
        a := StepBehind(path, k, a, part, b);
      }
    }
  }

  /** A path is safe unless it starts with a slash or one of its steps is `..`. */
  lemma SafePathIff(path: string)
    ensures IsSafeRelativePath(path) <==>
            !(path != "" && path[0] == '/') && !exists a, b :: IsStep(path, a, "..", b)
  {
    if ".." in PathParts(path) {
      var a, b := PartIsStep(path, "..");
    }
    if a, b :| IsStep(path, a, "..", b) {
      StepIsPart(path, a, "..", b);
    }
  }

  lemma LastOf<T>(first: T, rest: seq<T>)
    requires rest != []
    ensures ([first] + rest)[|rest|] == rest[|rest| - 1]
  {
  }

  lemma {:induction false} NameBehind(path: string, k: nat)
    requires '/' in path && k == IndexOf(path, '/')
    ensures FileName(path) == FileName(path[k + 1..])
  {
    PartsBehindSlash(path, k);
    LastOf(path[..k], PathParts(path[k + 1..]));
  }

  /** The file name is the last step. */
  lemma {:induction false} FileNameIsLast(path: string) returns (a: string)
    ensures IsStep(path, a, FileName(path), "")
    decreases |path|
  {
    if '/' !in path {
      a := "";
      assert path == a + (path + "");
    } else {
      var k := IndexOf(path, '/');
      a := FileNameIsLast(path[k + 1..]);
      NameBehind(path, k);
      a := StepBehind(path, k, a, FileName(path), "");
    }
  }

  /** A path that survives a line of the hash file. */
  predicate WellNamed(path: string) {
    path != "" && NoBreaks(path) && !IsSpace(path[0]) && !IsSpace(path[|path| - 1]) && IsSafeRelativePath(path)
  }

  // ----- lines

  function HashLine(digest: string, path: string): string {
    digest + ("  " + path)
  }

  /** line.split(None, 1) of a stripped line with something in it; None is the ValueError. */
  function SplitOnce(line: string): Option<(string, string)> {
    var k := FirstSpace(line);
    if k == |line| then None else Some((line[..k], TrimLeft(line[k..], IsSpace)))
  }

  /** What the verifier makes of one line: skipped, rejected, or a path with its digest compared. */
  datatype Check = Skipped | Rejected | Entry(rel: string, matches: bool)

  function CheckOf(raw: string, files: Files): Check {
    var line := Strip(raw);
    if line == "" then Skipped
    else
      match SplitOnce(line)
      case None => Rejected
      case Some((digest, rest)) =>
        var rel := Strip(rest);
        if !IsSafeRelativePath(rel) || rel !in files then Rejected
        else Entry(rel, files[rel] == digest)
  }

  lemma {:induction false} FirstSpaceIs(s: string, k: nat)
    requires k < |s| && IsSpace(s[k]) && forall i :: 0 <= i < k ==> !IsSpace(s[i])
    ensures FirstSpace(s) == k
    decreases k
  {
    if k > 0 {
      FirstSpaceIs(s[1..], k - 1);
    }
  }

  lemma FirstSpaceOf(token: string, rest: string)
    requires !HasSpace(token) && rest != "" && IsSpace(rest[0])
    ensures FirstSpace(token + rest) == |token|
  {
    forall i | 0 <= i < |token|
      ensures !IsSpace((token + rest)[i])
    {
      assert (token + rest)[i] == token[i];
    }
    FirstSpaceIs(token + rest, |token|);
  }

  lemma TokenSplits(digest: string, gap: string, core: string)
    requires digest != "" && !HasSpace(digest) && gap != "" && All(gap, IsSpace) && core != "" && !IsSpace(core[0])
    ensures SplitOnce(digest + (gap + core)) == Some((digest, core))
  {
    var rest := gap + core;
    FirstSpaceOf(digest, rest);
    assert (digest + rest)[..|digest|] == digest && (digest + rest)[|digest|..] == rest;
    TrimLeftOf(gap, core, IsSpace);
  }

  lemma HashLineSplits(digest: string, path: string)
    requires digest != "" && !HasSpace(digest) && path != "" && !IsSpace(path[0])
    ensures SplitOnce(HashLine(digest, path)) == Some((digest, path))
  {
    TokenSplits(digest, "  ", path);
  }

  lemma EndsKept(digest: string, gap: string, core: string)
    requires digest != "" && !HasSpace(digest) && core != "" && !IsSpace(core[|core| - 1])
    ensures var line := digest + (gap + core); line != "" && !IsSpace(line[0]) && !IsSpace(line[|line| - 1])
  {
    var line := digest + (gap + core);
    assert line[0] == digest[0] && line[|line| - 1] == core[|core| - 1];
  }

  /** A written line parses back to its digest and path. */
  lemma HashLineParses(digest: string, path: string)
    requires digest != "" && !HasSpace(digest) && WellNamed(path)
    ensures var line := HashLine(digest, path);
            && Strip(line) == line != ""
            && SplitOnce(line) == Some((digest, path))
            && Strip(path) == path
  {
    EndsKept(digest, "  ", path);
    StripKeeps(HashLine(digest, path));
    StripKeeps(path);
    HashLineSplits(digest, path);
  }

  // ----- what the verifier accepts

  function ChecksOf(lines: seq<string>, files: Files): (r: seq<Check>)
    ensures |r| == |lines|
  {
    seq(|lines|, i requires 0 <= i < |lines| => CheckOf(lines[i], files))
  }

  /** The paths of the lines that got as far as naming a present file. */
  function Named(checks: seq<Check>): set<string> {
    set i | 0 <= i < |checks| && checks[i].Entry? :: checks[i].rel
  }

  /**
    Every line is blank or names a safe, present file with its digest, and the named paths are the
    manifest's apart from the hash file itself.
    */
  ghost predicate Accepted(checks: seq<Check>, manifest: set<string>) {
    && (forall i :: 0 <= i < |checks| ==> checks[i].Skipped? || (checks[i].Entry? && checks[i].matches))
    && manifest - {HASH_FILE} <= Named(checks) <= manifest
  }

  /** The lines the exporter writes: every file but those called like the hash file. */
  function Written(paths: seq<string>): (r: seq<string>)
    ensures forall p :: p in r <==> p in paths && FileName(p) != HASH_FILE
  {
    if paths == [] then []
    else
      var n := |paths| - 1;
      assert paths == paths[..n] + [paths[n]];
      Written(paths[..n]) + if FileName(paths[n]) == HASH_FILE then [] else [paths[n]]
  }

  function WrittenLines(written: seq<string>, files: Files): (r: seq<string>)
    requires forall p :: p in written ==> p in files
    ensures |r| == |written|
    ensures forall i :: 0 <= i < |r| ==> r[i] == HashLine(files[written[i]], written[i])
  {
    if written == [] then []
    else
      var n := |written| - 1;
      WrittenLines(written[..n], files) + [HashLine(files[written[n]], written[n])]
  }

  class Package {
    var files: Files
    var hashText: Option<string>

    constructor (files: Files, hashText: Option<string>)
      ensures this.files == files && this.hashText == hashText
    {
      this.files, this.hashText := files, hashText;
    }

    /** `paths` lists the files in the order the directory walk sorts them. */
    method WriteHashes(paths: seq<string>)
      requires forall p :: p in paths <==> p in files
      modifies this`hashText
      ensures hashText == Some(JoinLines(WrittenLines(Written(paths), files)))
    {
      var lines := DigestLines(Written(paths), files);
      hashText := Some(JoinLines(lines));
    }

    /** `manifest` holds the non-blank paths the manifest lists. */
    method VerifyFileHashes(manifest: set<string>) returns (ok: bool)
      ensures ok <==> hashText.Some? && Accepted(ChecksOf(SplitLines(ReadText(hashText.value)), files), manifest)
    {
      if hashText.None? {
        return false;
      }
      ok := Tally(ChecksOf(SplitLines(ReadText(hashText.value)), files), manifest);
    }
  }

  /** The exporter's loop: one line per file. */
  method DigestLines(written: seq<string>, files: Files) returns (lines: seq<string>)
    requires forall p :: p in written ==> p in files
    ensures lines == WrittenLines(written, files)
  {
    lines := [];
    for i := 0 to |written|
      invariant lines == WrittenLines(written[..i], files)
    {
      assert written[..i + 1][..i] == written[..i];
      lines := lines + [HashLine(files[written[i]], written[i])];
    }
    assert written[..|written|] == written;
  }

  /** The verifier's loop over the checked lines, and its two set comparisons. */
  method Tally(checks: seq<Check>, manifest: set<string>) returns (ok: bool)
    ensures ok <==> Accepted(checks, manifest)
  {
    var entries: set<string> := {};
    ok := true;
    for i := 0 to |checks|
      invariant ok <==> forall k :: 0 <= k < i ==> checks[k].Skipped? || (checks[k].Entry? && checks[k].matches)
      invariant entries == Named(checks[..i])
    {
      NamedGrows(checks, i);
      match checks[i] {
        case Skipped =>
        case Rejected => ok := false;
        case Entry(rel, matches) =>
          if !matches {
            ok := false;
          }
          entries := entries + {rel};
      }
    }
    assert checks[..|checks|] == checks;
    var missing := manifest - {HASH_FILE} - entries;
    var extra := entries - manifest;
    if missing != {} {
      ok := false;
    }
    if extra != {} {
      ok := false;
    }
  }

  lemma NamedGrows(checks: seq<Check>, i: nat)
    requires i < |checks|
    ensures Named(checks[..i + 1]) == Named(checks[..i]) + if checks[i].Entry? then {checks[i].rel} else {}
  {
    assert forall k :: 0 <= k < i ==> checks[..i + 1][k] == checks[..i][k];
    assert checks[..i + 1][i] == checks[i];
  }

  // ----- the round trip

  lemma HashLineChecks(path: string, files: Files)
    requires Hexadecimal(files) && path in files && WellNamed(path)
    ensures CheckOf(HashLine(files[path], path), files) == Entry(path, true)
  {
    HashLineParses(files[path], path);
  }

  lemma HashLineHasNoBreaks(digest: string, path: string)
    requires !HasSpace(digest) && NoBreaks(path)
    ensures NoBreaks(HashLine(digest, path))
  {
    TokenHasNoBreaks(digest);
    assert NoBreaks("  " + path);
  }

  /** Lines written for well-named files are all good and name exactly those files. */
  lemma WrittenLinesAreGood(written: seq<string>, files: Files)
    requires Hexadecimal(files) && forall p :: p in written ==> p in files && WellNamed(p)
    ensures var lines := WrittenLines(written, files);
            && (forall i :: 0 <= i < |lines| ==> NoBreaks(lines[i]))
            && ChecksOf(lines, files) == EntriesFor(written)
  {
    var lines := WrittenLines(written, files);
    forall i | 0 <= i < |lines|
      ensures CheckOf(lines[i], files) == Entry(written[i], true) && NoBreaks(lines[i])
    {
      assert written[i] in written;
      HashLineChecks(written[i], files);
      HashLineHasNoBreaks(files[written[i]], written[i]);
    }
  }

  function EntriesFor(written: seq<string>): (r: seq<Check>)
    ensures |r| == |written|
  {
    seq(|written|, i requires 0 <= i < |written| => Entry(written[i], true))
  }

  lemma EntriesAccepted(written: seq<string>, manifest: set<string>)
    ensures Accepted(EntriesFor(written), manifest) <==> manifest - {HASH_FILE} <= (set p | p in written) <= manifest
  {
    var checks := EntriesFor(written);
    forall p
      ensures p in Named(checks) <==> p in written
    {
      if p in written {
        var i :| 0 <= i < |written| && written[i] == p;
        assert checks[i].Entry? && checks[i].rel == p;
      }
    }
    assert Named(checks) == set p | p in written;
  }

  lemma TokenHasNoBreaks(s: string)
    requires !HasSpace(s)
    ensures NoBreaks(s)
  {
  }

  function HashText(paths: seq<string>, files: Files): string
    requires forall p :: p in paths <==> p in files
  {
    JoinLines(WrittenLines(Written(paths), files))
  }

  /** What stands behind the digest of a stripped line is not blank and ends the line. */
  lemma RestOfLine(line: string)
    requires line != "" && !IsSpace(line[|line| - 1]) && SplitOnce(line).Some?
    ensures var rest := SplitOnce(line).value.1; rest != "" && !IsSpace(rest[|rest| - 1]) && !IsSpace(rest[0])
    ensures NoBreaks(line) ==> NoBreaks(SplitOnce(line).value.1)
  {
    var k := FirstSpace(line);
    var a := LeftParts(line[k..], IsSpace);
    var rest := TrimLeft(line[k..], IsSpace);
    assert line[k..] == a + rest;
    assert line[k..][|line| - k - 1] == line[|line| - 1];
    assert rest != "" ==> rest[|rest| - 1] == line[|line| - 1];
    AllOfConcat(a, rest, c => !IsBreak(c));
  }

  /** The verifier never names a path that would not survive a line. */
  lemma NamedIsWellNamed(raw: string, files: Files)
    requires NoBreaks(raw)
    ensures CheckOf(raw, files).Entry? ==> WellNamed(CheckOf(raw, files).rel)
  {
    var line := Strip(raw);
    var a, b := TrimParts(raw, IsSpace);
    if line != "" && SplitOnce(line).Some? {
      TrimKeepsNoBreaks(raw, IsSpace);
      RestOfLine(line);
    }
  }

  /** So a manifest listing a file with another name is never accepted. */
  lemma AcceptedIsWellNamed(text: string, files: Files, manifest: set<string>)
    requires Accepted(ChecksOf(SplitLines(text), files), manifest)
    ensures forall p :: p in manifest - {HASH_FILE} ==> WellNamed(p)
  {
    var lines := SplitLines(text);
    var checks := ChecksOf(lines, files);
    forall p | p in manifest - {HASH_FILE}
      ensures WellNamed(p)
    {
      var i :| 0 <= i < |checks| && checks[i].Entry? && checks[i].rel == p;
      NamedIsWellNamed(lines[i], files);
    }
  }

  lemma HashFileName()
    ensures FileName(HASH_FILE) == HASH_FILE
  {
    assert '/' !in HASH_FILE;
  }

  /**
    Written and verified at once, with well-named files: accepted exactly when the manifest lists
    every hashed file, and hashed files are all it lists apart from the hash file itself.
    */
  lemma WriteThenVerify(paths: seq<string>, files: Files, manifest: set<string>)
    requires forall p :: p in paths <==> p in files
    requires Hexadecimal(files) && forall p :: p in Written(paths) ==> WellNamed(p)
    ensures Accepted(ChecksOf(SplitLines(ReadText(HashText(paths, files))), files), manifest)
       <==> manifest - {HASH_FILE} <= (set p | p in Written(paths)) <= manifest
  {
    var hashed := Written(paths);
    WrittenLinesAreGood(hashed, files);
    EntriesAccepted(hashed, manifest);
    if hashed != [] {
      LinesRoundTrip(WrittenLines(hashed, files));
    } else {
      NothingHashed(files, manifest);
      assert WrittenLines(hashed, files) == [];
    }
  }

  /**
    Over all file names: what was just written is accepted under a manifest that lists every
    hashed file if and only if all hashed files are well named and the manifest lists nothing
    else, apart from the hash file itself.
    */
  lemma WriteThenVerifyIff(paths: seq<string>, files: Files, manifest: set<string>)
    requires forall p :: p in paths <==> p in files
    requires Hexadecimal(files)
    ensures var hashed := set p | p in Written(paths);
            (Accepted(ChecksOf(SplitLines(ReadText(HashText(paths, files))), files), manifest) && hashed <= manifest)
            <==> ((forall p :: p in hashed ==> WellNamed(p)) && manifest - {HASH_FILE} <= hashed <= manifest)
  {
    var hashed := set p | p in Written(paths);
    var text := ReadText(HashText(paths, files));
    HashFileName();
    if Accepted(ChecksOf(SplitLines(text), files), manifest) && hashed <= manifest {
      AcceptedIsWellNamed(text, files, manifest);
      forall p | p in hashed
        ensures WellNamed(p)
      {
        assert p in manifest - {HASH_FILE};
      }
    }
    if forall p :: p in hashed ==> WellNamed(p) {
      WriteThenVerify(paths, files, manifest);
    }
  }

  /** The line written for the path reads back as the stripped path, a present file with the same digest. */
  predicate Carried(path: string, files: Files)
    requires path in files
  {
    var rel := Strip(path);
    rel != "" && IsSafeRelativePath(rel) && rel in files && files[rel] == files[path]
  }

  lemma BlankNameIsRejected(path: string, files: Files)
    requires Hexadecimal(files) && path in files && Strip(path) == ""
    ensures CheckOf(HashLine(files[path], path), files) == Rejected
  {
    var digest := files[path];
    var a, b := TrimParts(path, IsSpace);
    AllOfConcat(a, b, IsSpace);
    assert path == a + b;
    var line := digest + ("  " + path);
    TrimOf("", digest, "  " + path, IsSpace);
    assert "" + digest + ("  " + path) == line;
    assert FirstSpace(digest) == |digest|;
  }

  lemma BlanksAroundLine(digest: string, a: string, core: string, b: string)
    ensures HashLine(digest, a + core + b) == "" + (digest + (("  " + a) + core)) + b
  {
    Assoc("  " + a, core, b);
    Assoc("  ", a, core + b);
    Assoc(a, core, b);
    Assoc(digest, ("  " + a) + core, b);
  }

  lemma BlanksAroundName(digest: string, a: string, core: string, b: string)
    requires digest != "" && !HasSpace(digest) && All(a, IsSpace) && All(b, IsSpace)
    requires core != "" && !IsSpace(core[0]) && !IsSpace(core[|core| - 1])
    ensures var line := Strip(HashLine(digest, a + core + b)); line != "" && SplitOnce(line) == Some((digest, core))
  {
    BlanksAroundLine(digest, a, core, b);
    EndsKept(digest, "  " + a, core);
    TrimOf("", digest + (("  " + a) + core), b, IsSpace);
    AllOfConcat("  ", a, IsSpace);
    TokenSplits(digest, "  " + a, core);
  }

  /** What a line is worth: never skipped, an agreeing entry if the path is carried, and no other name. */
  predicate IsCheckOf(c: Check, path: string, files: Files)
    requires path in files
  {
    && !c.Skipped? && (c.Entry? && c.matches <==> Carried(path, files))
    && (c.Entry? ==> c.rel == Strip(path))
  }

  lemma LineChecks(path: string, files: Files)
    requires Hexadecimal(files) && path in files
    ensures IsCheckOf(CheckOf(HashLine(files[path], path), files), path, files)
  {
    if Strip(path) == "" {
      BlankNameIsRejected(path, files);
    } else {
      var a, b := TrimParts(path, IsSpace);
      BlanksAroundName(files[path], a, Strip(path), b);
      StripTwice(path);
    }
  }

  lemma CarriedEntries(hashed: seq<string>, files: Files, manifest: set<string>)
    requires Hexadecimal(files) && forall p :: p in hashed ==> p in files
    ensures Accepted(ChecksOf(WrittenLines(hashed, files), files), manifest)
       <==> (forall p :: p in hashed ==> Carried(p, files))
            && manifest - {HASH_FILE} <= (set p | p in hashed :: Strip(p)) <= manifest
  {
    var checks := ChecksOf(WrittenLines(hashed, files), files);
    forall i | 0 <= i < |hashed|
      ensures hashed[i] in hashed && IsCheckOf(checks[i], hashed[i], files)
    {
      LineChecks(hashed[i], files);
    }
    if forall i :: 0 <= i < |checks| ==> checks[i].Entry? && checks[i].matches {
      NamesStripped(hashed, checks);
    }
  }

  lemma NamesStripped(hashed: seq<string>, checks: seq<Check>)
    requires |checks| == |hashed|
    requires forall i :: 0 <= i < |checks| ==> checks[i].Entry? && checks[i].rel == Strip(hashed[i])
    ensures Named(checks) == set p | p in hashed :: Strip(p)
  {
    forall p | p in hashed
      ensures Strip(p) in Named(checks)
    {
      var i :| 0 <= i < |hashed| && hashed[i] == p;
      assert checks[i].Entry? && checks[i].rel == Strip(p);
    }
  }

  /**
    Names without line breaks, and any manifest at all: accepted if and only if every name is carried
    and the manifest lists exactly the stripped names, apart from the hash file itself.
    */
  lemma SingleLineVerifyIff(paths: seq<string>, files: Files, manifest: set<string>)
    requires forall p :: p in paths <==> p in files
    requires Hexadecimal(files) && forall p :: p in Written(paths) ==> NoBreaks(p)
    ensures Accepted(ChecksOf(SplitLines(ReadText(HashText(paths, files))), files), manifest)
       <==> (forall p :: p in Written(paths) ==> Carried(p, files))
            && manifest - {HASH_FILE} <= (set p | p in Written(paths) :: Strip(p)) <= manifest
  {
    var hashed := Written(paths);
    var lines := WrittenLines(hashed, files);
    CarriedEntries(hashed, files, manifest);
    if hashed != [] {
      forall i | 0 <= i < |lines|
        ensures NoBreaks(lines[i])
      {
        assert hashed[i] in hashed;
        HashLineHasNoBreaks(files[hashed[i]], hashed[i]);
      }
      LinesRoundTrip(lines);
    } else {
      NothingHashed(files, manifest);
      assert lines == [];
    }
  }

  /** sub/file_hashes.sha256 */
  const NESTED := "sub" + ['/'] + HASH_FILE

  lemma PartsBehind(directory: string, name: string)
    requires '/' !in directory
    ensures PathParts(directory + ['/'] + name) == [directory] + PathParts(name)
  {
    var path := directory + ['/'] + name;
    IndexOfAt(directory, '/', name);
    assert path[..|directory|] == directory && path[|directory| + 1..] == name;
  }

  lemma NestedName()
    ensures FileName(NESTED) == HASH_FILE && NESTED != HASH_FILE
  {
    HashFileName();
    assert '/' !in "sub";
    PartsBehind("sub", HASH_FILE);
    assert |NESTED| == 22 && |HASH_FILE| == 18;
  }

  /** A file called like the hash file in a subdirectory is not hashed, so listing it gets the package rejected. */
  lemma NestedHashFileIsRejected(paths: seq<string>, files: Files, manifest: set<string>)
    requires (forall p :: p in paths <==> p in files) && Hexadecimal(files)
    requires forall p :: p in Written(paths) ==> WellNamed(p)
    requires NESTED in manifest
    ensures !Accepted(ChecksOf(SplitLines(ReadText(HashText(paths, files))), files), manifest)
  {
    NestedName();
    WriteThenVerify(paths, files, manifest);
    assert NESTED in manifest - {HASH_FILE};
  }

  /** With no file to hash, the text is one blank line. */
  lemma NothingHashed(files: Files, manifest: set<string>)
    ensures Accepted(ChecksOf(SplitLines(ReadText(JoinLines([]))), files), manifest) <==> Accepted([], manifest)
  {
    assert ReadText("\n"[1..]) == "";
    assert ReadText("\n") == "\n";
    assert FirstBreak("\n") == 0;
    assert "\n"[0 + 1..] == "";
    assert SplitLines("\n") == [""];
    assert ChecksOf([""], files) == [Skipped];
    assert Named([Skipped]) == {} == Named([]);
  }
}
