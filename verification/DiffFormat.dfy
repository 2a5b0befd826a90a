/**
 Diffs as git prints them: the format of IEEE Std 1003.1-2017, utility `diff`, section "Diff -u or
 -U Output Format", with git's file headers and its quoting of paths.
 */
module DiffFormat {
  import opened PyText

  // The text of a line is what stands before its newline; it may end in a carriage return.
  datatype Line = Context(text: string) | Added(text: string) | Removed(text: string) | NoNewline

  // Line numbers count from 1; `heading` is whatever follows the second pair of at-signs.
  datatype Hunk = Hunk(oldStart: nat, newStart: nat, lines: seq<Line>, heading: string)

  // `meta` are the header lines between the first line of a file and its first hunk.
  datatype FileDiff = FileDiff(oldPath: string, newPath: string, meta: seq<string>, hunks: seq<Hunk>)

  function OldSide(lines: seq<Line>): seq<string> {
    if lines == [] then []
    else if lines[0].Context? || lines[0].Removed? then [lines[0].text] + OldSide(lines[1..])
    else OldSide(lines[1..])
  }

  function NewSide(lines: seq<Line>): seq<string> {
    if lines == [] then []
    else if lines[0].Context? || lines[0].Added? then [lines[0].text] + NewSide(lines[1..])
    else NewSide(lines[1..])
  }

  // ----- Quoted paths -----

  predicate IsPlain(c: char) {
    ' ' <= c <= '~' && c != '"' && c != '\\'
  }

  /** A path with a quote, a backslash, or a character outside printable ASCII is quoted. */
  predicate NeedsQuoting(path: string) {
    exists c :: c in path && !IsPlain(c)
  }

  function Octal(b: nat): (s: string)
    requires b < 256
    ensures |s| == 4 && s[0] == '\\' && forall i :: 1 <= i < 4 ==> IsDigit(s[i])
  {
    ['\\', DigitChar(b / 64), DigitChar(b / 8 % 8), DigitChar(b % 8)]
  }

  // The bytes of a character in UTF-8, each in octal.
  function OctalBytes(c: char): (s: string)
    ensures |s| >= 4 && forall i :: 0 <= i < |s| ==> s[i] == '\\' || IsDigit(s[i])
  {
    var n := c as int;
    if n < 0x80 then Octal(n)
    else if n < 0x800 then Octal(0xC0 + n / 0x40) + Octal(0x80 + n % 0x40)
    else if n < 0x10000 then Octal(0xE0 + n / 0x1000) + Octal(0x80 + n / 0x40 % 0x40) + Octal(0x80 + n % 0x40)
    else Octal(0xF0 + n / 0x40000 % 8) + Octal(0x80 + n / 0x1000 % 0x40) + Octal(0x80 + n / 0x40 % 0x40)
         + Octal(0x80 + n % 0x40)
  }

  const CONTROL_NAMES := "abtnvfr"

  function Escape(c: char): (s: string)
    ensures |s| >= 1 && forall d :: d in s ==> ' ' <= d <= '~'
    ensures if IsPlain(c) then s == [c] else s[0] == '\\' && ' ' !in s
  {
    if IsPlain(c) then [c]
    else if c == '"' || c == '\\' then ['\\', c]
    else if '\U{07}' <= c <= '\r' then ['\\', CONTROL_NAMES[c as int - 7]]
    else OctalBytes(c)
  }

  function EscapeAll(path: string): string {
    if path == "" then "" else Escape(path[0]) + EscapeAll(path[1..])
  }

  function Quoted(path: string): string {
    if NeedsQuoting(path) then "\"" + EscapeAll(path) + "\"" else path
  }

  // ----- Printing -----

  function PrintLine(l: Line): string {
    match l
    case Context(t) => " " + t
    case Added(t) => "+" + t
    case Removed(t) => "-" + t
    case NoNewline => "\\ No newline at end of file"
  }

  // A count of one is left out.
  function PrintCount(count: nat): string {
    if count == 1 then "" else "," + Decimal(count)
  }

  /** The part of a hunk header before its heading. */
  function HunkRange(h: Hunk): string {
    "@@ -" + Decimal(h.oldStart) + PrintCount(|OldSide(h.lines)|) + " "
    + "+" + Decimal(h.newStart) + (PrintCount(|NewSide(h.lines)|) + " @@")
  }

  function PrintHunkHeader(h: Hunk): string {
    HunkRange(h) + h.heading
  }

  function PrintLines(lines: seq<Line>): seq<string> {
    if lines == [] then [] else [PrintLine(lines[0])] + PrintLines(lines[1..])
  }

  function PrintHunks(hunks: seq<Hunk>): seq<string> {
    if hunks == [] then []
    else [PrintHunkHeader(hunks[0])] + (PrintLines(hunks[0].lines) + PrintHunks(hunks[1..]))
  }

  const COMMAND := "diff --git "

  function GitHeader(oldPath: string, newPath: string): string {
    COMMAND + Quoted("a/" + oldPath) + (" " + Quoted("b/" + newPath))
  }

  function PrintFile(f: FileDiff): seq<string> {
    [GitHeader(f.oldPath, f.newPath)] + (f.meta + PrintHunks(f.hunks))
  }

  function PrintFiles(files: seq<FileDiff>): seq<string> {
    if files == [] then [] else PrintFile(files[0]) + PrintFiles(files[1..])
  }

  function Print(files: seq<FileDiff>): string {
    Unlines(PrintFiles(files))
  }

  // ----- Quoting keeps a header on one line and makes no separator -----

  lemma {:induction false} EscapedIsPrintable(path: string)
    ensures forall d :: d in EscapeAll(path) ==> ' ' <= d <= '~'
    ensures |EscapeAll(path)| >= |path|
    decreases |path|
  {
    if path != "" {
      EscapedIsPrintable(path[1..]);
    }
  }

  lemma QuotedIsPrintable(path: string)
    ensures forall d :: d in Quoted(path) ==> ' ' <= d <= '~'
    ensures |Quoted(path)| >= |path| && (path != "" ==> Quoted(path) != "")
    ensures NeedsQuoting(path) ==> |Quoted(path)| >= |path| + 2 && Quoted(path)[0] == '"'
  {
    EscapedIsPrintable(path);
  }

  predicate IsPrintable(s: string) {
    forall d :: d in s ==> ' ' <= d <= '~'
  }

  lemma PrintableConcat(a: string, b: string)
    requires IsPrintable(a) && IsPrintable(b)
    ensures IsPrintable(a + b)
  {
  }

  lemma HeaderIsOneLine(oldPath: string, newPath: string)
    ensures OneLine(GitHeader(oldPath, newPath))
  {
    hide Quoted;
    var x, y := Quoted("a/" + oldPath), Quoted("b/" + newPath);
    QuotedIsPrintable("a/" + oldPath);
    QuotedIsPrintable("b/" + newPath);
    PrintableConcat(COMMAND, x);
    PrintableConcat(" ", y);
    PrintableConcat(COMMAND + x, " " + y);
  }

  predicate SeparatorAt(s: string, j: nat) {
    j + 2 < |s| && s[j] == ' ' && s[j + 1] == 'b' && s[j + 2] == '/'
  }

  lemma SeparatorOccurs(s: string, j: nat)
    ensures OccursAt(s, " b/", j) <==> SeparatorAt(s, j)
  {
    if j + 3 <= |s| {
      var w := s[j..j + 3];
      assert w[0] == s[j] && w[1] == s[j + 1] && w[2] == s[j + 2];
      assert SeparatorAt(s, j) ==> w == " b/";
    }
  }

  lemma EscapedHead(path: string)
    requires path != ""
    ensures EscapeAll(path)[0] == if IsPlain(path[0]) then path[0] else '\\'
    ensures IsPlain(path[0]) ==> EscapeAll(path)[1..] == EscapeAll(path[1..])
  {
    assert EscapeAll(path)[0] == Escape(path[0])[0];
  }

  /** Escaping makes no separator out of other characters. */
  lemma {:induction false} EscapingKeepsSeparators(path: string, j: nat)
    requires SeparatorAt(EscapeAll(path), j)
    ensures Contains(path, " b/")
    decreases |path|
  {
    var e, rest := Escape(path[0]), EscapeAll(path[1..]);
    assert EscapeAll(path) == e + rest;
    if j < |e| {
      assert e[j] == ' ' && e[j] in e;
      assert path[0] == ' ' && j == 0;
      EscapedHead(path);
      assert rest[0] == 'b' && rest[1] == '/';
      EscapedHead(path[1..]);
      assert path[1..][0] == 'b' && rest[1..] == EscapeAll(path[2..]) by { assert path[1..][1..] == path[2..]; }
      EscapedHead(path[2..]);
      assert path[2] == '/';
      SeparatorOccurs(path, 0);
    } else {
      assert SeparatorAt(rest, j - |e|);
      EscapingKeepsSeparators(path[1..], j - |e|);
      var i :| 0 <= i <= |path[1..]| && OccursAt(path[1..], " b/", i);
      OccursInTail(path, " b/", i + 1);
    }
  }

  // ----- Splitting a header at its separators -----

  // Parts that run on: `front` stands before the first part.
  function Fronted(front: string, parts: seq<string>): seq<string>
    requires parts != []
  {
    [front + parts[0]] + parts[1..]
  }

  lemma SpaceMakesCleanSeam(u: string, v: string)
    requires v != "" && v[0] == ' '
    ensures CleanSeam(u, v, " b/")
  {
    forall i | 0 <= i < |u| < i + 3 ensures !OccursAt(u + v, " b/", i) {
      SeparatorOccurs(u + v, i);
      assert (u + v)[|u|] == ' ';
    }
  }

  // A path of a header, quoted or not, starts like this.
  predicate StartsLikePath(x: string) {
    |x| >= 2 && ((x[0] == 'a' && x[1] == '/') || (x[0] == '"' && x[1] == 'a'))
  }

  lemma CommandSeam(x: string)
    requires StartsLikePath(x)
    ensures CleanSeam(COMMAND, x, " b/")
  {
    hide OccursAt;
    var s := COMMAND + x;
    assert s[9] == 't' && s[10] == ' ' && s[11] == x[0] && s[12] == x[1];
    forall i | 0 <= i < 11 < i + 3 ensures !OccursAt(s, " b/", i) {
      SeparatorOccurs(s, i);
    }
  }

  lemma CommandIsOnePart()
    ensures Split(COMMAND, " b/") == [COMMAND]
  {
    hide OccursAt;
    forall i | 0 <= i <= 11 ensures !OccursAt(COMMAND, " b/", i) {
      SeparatorOccurs(COMMAND, i);
      assert i + 2 < 11 ==> COMMAND[i + 1] != 'b';
    }
    SplitWithout(COMMAND, " b/");
  }

  lemma SplitAfterCommand(x: string)
    requires StartsLikePath(x)
    ensures Split(COMMAND + x, " b/") == Fronted(COMMAND, Split(x, " b/"))
  {
    hide OccursAt, Find, Split;
    CommandSeam(x);
    CommandIsOnePart();
    SplitConcat(COMMAND, x, " b/");
    assert Fused([COMMAND], Split(x, " b/")) == Fronted(COMMAND, Split(x, " b/"));
  }

  lemma FrontedFused(front: string, a: seq<string>, b: seq<string>)
    requires a != [] && b != []
    ensures Fused(Fronted(front, a), b) == Fronted(front, Fused(a, b))
  {
    var last := |a| - 1;
    if last == 0 {
      assert front + a[0] + b[0] == front + (a[0] + b[0]);
    }
  }

  // What the scanner may read from the two halves of a header.
  function OldParts(oldPath: string): (parts: seq<string>)
    ensures parts != []
  {
    Split(Quoted("a/" + oldPath), " b/")
  }

  function NewParts(newPath: string): (parts: seq<string>)
    ensures parts != []
  {
    Split(" " + Quoted("b/" + newPath), " b/")
  }

  lemma QuotedStart(c: char, path: string)
    requires IsPlain(c)
    ensures var q := Quoted([c, '/'] + path);
      |q| >= 2 && if NeedsQuoting(path) then q[0] == '"' && q[1] == c else q == [c, '/'] + path
  {
    var s := [c, '/'] + path;
    assert s[0] == c && s[1] == '/' && s[1..] == ['/'] + path && s[2..] == path;
    assert NeedsQuoting(s) <==> NeedsQuoting(path) by {
      if NeedsQuoting(path) {
        var d :| d in path && !IsPlain(d);
        assert d in s;
      }
    }
    EscapedHead(s);
  }

  lemma HeaderParts(oldPath: string, newPath: string)
    ensures Split(GitHeader(oldPath, newPath), " b/")
         == Fronted(COMMAND, Fused(OldParts(oldPath), NewParts(newPath)))
  {
    var x, v := Quoted("a/" + oldPath), " " + Quoted("b/" + newPath);
    QuotedStart('a', oldPath);
    assert "a/" == ['a', '/'];
    hide Quoted, Find, Split, OccursAt;
    SpaceMakesCleanSeam(COMMAND + x, v);
    SplitConcat(COMMAND + x, v, " b/");
    SplitAfterCommand(x);
    FrontedFused(COMMAND, OldParts(oldPath), NewParts(newPath));
  }

  /** The second half of a header splits into an empty part and the parts of the path, unless it is quoted. */
  lemma PlainNewParts(newPath: string)
    requires !NeedsQuoting(newPath)
    ensures NewParts(newPath) == [""] + Split(newPath, " b/")
  {
    var v := " " + Quoted("b/" + newPath);
    assert v == " b/" + newPath by {
      QuotedStart('b', newPath);
      assert "b/" == ['b', '/'];
    }
    assert NewParts(newPath) == Split(v, " b/");
    hide *;
    SeparatorOccurs(v, 0);
    SplitInto(v, " b/", 0, "", newPath);
  }

  /** Quoting makes no separator out of other characters. */
  lemma SeparatorInQuoted(c: char, path: string, j: nat)
    requires IsPlain(c) && c != ' ' && OccursAt(Quoted([c, '/'] + path), " b/", j)
    ensures Contains(path, " b/")
  {
    var s := [c, '/'] + path;
    var q, e := Quoted(s), EscapeAll(s);
    SeparatorOccurs(q, j);
    if NeedsQuoting(s) {
      assert q == "\"" + e + "\"";
      assert j >= 1 && SeparatorAt(e, j - 1);
      EscapingKeepsSeparators(s, j - 1);
    }
    var i :| 0 <= i <= |s| && OccursAt(s, " b/", i);
    SeparatorOccurs(s, i);
    assert i >= 2 && s[2..] == path;
    SeparatorOccurs(path, i - 2);
    assert OccursAt(path, " b/", i - 2);
  }

  lemma QuotedNewParts(newPath: string)
    requires NeedsQuoting(newPath)
    ensures |NewParts(newPath)| > 1 ==> Contains(newPath, " b/")
    ensures |NewParts(newPath)| == 1 ==> |NewParts(newPath)[0]| > |newPath|
  {
    var q := Quoted("b/" + newPath);
    var v := " " + q;
    QuotedIsPrintable("b/" + newPath);
    QuotedStart('b', newPath);
    assert "b/" == ['b', '/'];
    if Find(v, " b/").None? {
      SplitWithout(v, " b/");
    } else {
      var j := Find(v, " b/").value;
      SeparatorOccurs(v, j);
      assert j >= 1;
      SeparatorOccurs(q, j - 1);
      SeparatorInQuoted('b', newPath, j - 1);
    }
  }

  /** The first half of a header splits only at separators of the path. */
  lemma OldPartsOfOne(oldPath: string)
    requires !Contains(oldPath, " b/")
    ensures |OldParts(oldPath)| == 1
  {
    var q := Quoted("a/" + oldPath);
    assert "a/" == ['a', '/'];
    if Find(q, " b/").Some? {
      SeparatorInQuoted('a', oldPath, Find(q, " b/").value);
    } else {
      SplitWithout(q, " b/");
    }
  }
  // ----- Two examples in full -----

  lemma PrintedHunk(h: Hunk)
    requires h == Hunk(1, 1, [Context("x"), Added("y"), Removed("z")], " f")
    ensures PrintHunks([h]) == ["@@ -1,2 +1,2 @@ f", " x", "+y", "-z"]
  {
    var c, a, r := Context("x"), Added("y"), Removed("z");
    assert h.lines[1..] == [a, r] && [a, r][1..] == [r];
    assert OldSide([r]) == ["z"] && OldSide([a, r]) == ["z"] && OldSide(h.lines) == ["x", "z"];
    assert NewSide([r]) == [] && NewSide([a, r]) == ["y"] && NewSide(h.lines) == ["x", "y"];
    assert Decimal(1) == "1" && Decimal(2) == "2";
    assert PrintHunkHeader(h) == "@@ -1,2 +1,2 @@ f";
    assert [r][1..] == [];
    assert PrintLine(r) == "-z" && PrintLine(a) == "+y" && PrintLine(c) == " x";
    assert PrintLines([r]) == [PrintLine(r)] + PrintLines([]);
    assert PrintLines([a, r]) == [PrintLine(a)] + PrintLines([r]);
    assert PrintLines(h.lines) == [PrintLine(c)] + PrintLines([a, r]);
    assert [h][1..] == [] && PrintHunks([]) == [];
  }

  /** What git prints for a file with one hunk of a kept, an added and a removed line. */
  lemma PrintedFile(h: Hunk)
    requires h == Hunk(1, 1, [Context("x"), Added("y"), Removed("z")], " f")
    ensures PrintFile(FileDiff("a.txt", "b.txt", ["index 1..2"], [h]))
         == ["diff --git a/a.txt b/b.txt", "index 1..2", "@@ -1,2 +1,2 @@ f", " x", "+y", "-z"]
  {
    PrintedHunk(h);
    PrintedHeader();
    hide GitHeader, PrintHunks;
  }

  lemma PrintedHeader()
    ensures GitHeader("a.txt", "b.txt") == "diff --git a/a.txt b/b.txt"
  {
    assert !NeedsQuoting("a/" + "a.txt") && !NeedsQuoting("b/" + "b.txt");
  }

  lemma EscapedCharacters()
    ensures Escape('\U{E9}') == "\\303\\251" && Escape('\t') == "\\t" && Escape('"') == "\\\""
  {
    assert '\U{E9}' as int == 0xE9 && '\t' as int == 9 && '\r' as int == 13;
    assert Octal(0xC3) == "\\303" && Octal(0xA9) == "\\251";
    assert CONTROL_NAMES[2] == 't';
  }

  /** A path with a character outside ASCII, a tab and a quote. */
  lemma QuotedPath()
    ensures Quoted("\U{E9}\t\"") == "\"\\303\\251\\t\\\"\""
  {
    var path := "\U{E9}\t\"";
    assert path[0] in path && !IsPlain(path[0]);
    EscapedCharacters();
    hide Escape, IsPlain;
    assert path[1..] == "\t\"" && path[1..][1..] == "\"";
    assert EscapeAll("\"") == Escape('"') + EscapeAll("");
    assert EscapeAll("\t\"") == Escape('\t') + EscapeAll("\"");
    assert EscapeAll(path) == Escape('\U{E9}') + EscapeAll("\t\"");
  }
}
