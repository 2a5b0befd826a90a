/** The Python string operations the scanners rely on. */
module PyText {
  import opened Wrappers

  // ----- str.splitlines -----

  // The characters at which splitlines breaks a string.
  predicate IsLineBreak(c: char) {
    c == '\n' || c == '\r' || c == '\U{0B}' || c == '\U{0C}' || c == '\U{1C}' || c == '\U{1D}' || c == '\U{1E}'
    || c == '\U{85}' || c == '\U{2028}' || c == '\U{2029}'
  }

  // The line boundaries of str.splitlines, by code point.
  const LINE_BOUNDARIES: set<int> := {10, 11, 12, 13, 28, 29, 30, 133, 8232, 8233}

  lemma LineBreaksAre(c: char)
    ensures IsLineBreak(c) <==> c as int in LINE_BOUNDARIES
  {
    assert '\n' as int == 10 && '\r' as int == 13;
  }

  predicate OneLine(s: string) {
    forall c :: c in s ==> !IsLineBreak(c)
  }

  lemma OneLineConcat(a: string, b: string)
    requires OneLine(a) && OneLine(b)
    ensures OneLine(a + b)
  {
  }

  function LineLength(s: string): (n: nat)
    ensures n <= |s| && OneLine(s[..n])
    ensures n < |s| ==> IsLineBreak(s[n])
  {
    if s == "" || IsLineBreak(s[0]) then 0
    else
      var n := LineLength(s[1..]);
      assert s[..n + 1] == [s[0]] + s[1..][..n];
      n + 1
  }

  function SplitLines(s: string): seq<string>
    decreases |s|
  {
    if s == "" then []
    else
      var n := LineLength(s);
      if n == |s| then [s]
      else if s[n] == '\r' && n + 1 < |s| && s[n + 1] == '\n' then [s[..n]] + SplitLines(s[n + 2..])
      else [s[..n]] + SplitLines(s[n + 1..])
  }

  /** A last line needs no break behind it, and there is no empty one. */
  lemma LastLine(s: string)
    requires OneLine(s)
    ensures SplitLines(s) == if s == "" then [] else [s]
  {
    assert forall k :: 0 <= k < |s| ==> !IsLineBreak(s[k]);
    assert LineLength(s) == |s|;
  }

  /** The text whose lines are `lines`, each ended by a newline. */
  function Unlines(lines: seq<string>): string {
    if lines == [] then "" else lines[0] + "\n" + Unlines(lines[1..])
  }

  lemma {:induction false} LineLengthOfLine(line: string, rest: string)
    requires OneLine(line)
    ensures LineLength(line + "\n" + rest) == |line|
    decreases |line|
  {
    var s := line + "\n" + rest;
    if line != "" {
      assert s[1..] == line[1..] + "\n" + rest;
      assert s[0] == line[0] && line[0] in line;
      LineLengthOfLine(line[1..], rest);
    }
  }

  /** Lines without any break character come back from the text they make. */
  lemma {:induction false} SplitLinesUnlines(lines: seq<string>)
    requires forall l :: l in lines ==> OneLine(l)
    ensures SplitLines(Unlines(lines)) == lines
    decreases |lines|
  {
    if lines != [] {
      var rest := Unlines(lines[1..]);
      LineLengthOfLine(lines[0], rest);
      var s := lines[0] + "\n" + rest;
      assert s[..|lines[0]|] == lines[0] && s[|lines[0]| + 1..] == rest;
      SplitLinesUnlines(lines[1..]);
    }
  }

  // ----- Lines that hold break characters of their own -----

  // A line as a text file holds it: anything up to a newline.
  predicate IsTextLine(s: string) {
    '\n' !in s
  }

  /** What splitlines makes of one line of a text file. */
  function Pieces(line: string): (p: seq<string>)
    ensures p != [] && forall s :: s in p ==> OneLine(s)
  {
    var p := SplitLines(line + "\n");
    SplitLinesAreLines(line + "\n");
    p
  }

  /** The line without a carriage return at its end, which splitlines takes for part of the line break. */
  function Chomp(line: string): string {
    if line != "" && line[|line| - 1] == '\r' then line[..|line| - 1] else line
  }

  lemma {:induction false} SplitLinesAreLines(s: string)
    ensures forall l :: l in SplitLines(s) ==> OneLine(l)
    ensures s != "" ==> SplitLines(s) != []
    decreases |s|
  {
    if s != "" {
      var n := LineLength(s);
      if n == |s| {
        assert s[..n] == s;
      } else if s[n] == '\r' && n + 1 < |s| && s[n + 1] == '\n' {
        SplitLinesAreLines(s[n + 2..]);
      } else {
        SplitLinesAreLines(s[n + 1..]);
      }
    }
  }

  lemma {:induction false} LineLengthInside(a: string, rest: string)
    requires OneLine(a) && rest != "" && IsLineBreak(rest[0])
    ensures LineLength(a + rest) == |a|
    decreases |a|
  {
    if a == "" {
      assert a + rest == rest;
    } else {
      assert (a + rest)[1..] == a[1..] + rest;
      assert a[0] in a;
      LineLengthInside(a[1..], rest);
    }
  }

  // A line break as splitlines takes it, when `rest` follows.
  predicate IsBreak(brk: string, rest: string) {
    brk == "\r\n" || (|brk| == 1 && IsLineBreak(brk[0]) && !(brk[0] == '\r' && rest != "" && rest[0] == '\n'))
  }

  // Splitting off the first line, which ends at `n`; its break ends at `m`.
  lemma SplitStep(s: string, n: nat, m: nat)
    requires n == LineLength(s) < |s|
    requires m == if s[n] == '\r' && n + 1 < |s| && s[n + 1] == '\n' then n + 2 else n + 1
    ensures SplitLines(s) == [s[..n]] + SplitLines(s[m..])
  {
  }

  lemma CutBehind(u: string, v: string, j: nat)
    requires |u| <= j <= |u + v|
    ensures (u + v)[..j] == u + v[..j - |u|] && (u + v)[j..] == v[j - |u|..]
  {
  }

  lemma SplitFirst(line: string, brk: string, rest: string)
    requires OneLine(line) && IsBreak(brk, rest)
    ensures SplitLines(line + (brk + rest)) == [line] + SplitLines(rest)
  {
    hide SplitLines;
    var n, tail := |line|, brk + rest;
    var s := line + tail;
    var m := n + |brk|;
    LineLengthInside(line, tail);
    assert s[n] == tail[0] == brk[0];
    assert n + 1 < |s| ==> s[n + 1] == tail[1] == if |brk| == 2 then brk[1] else rest[0];
    CutBehind(line, tail, n);
    CutBehind(line, tail, m);
    CutBehind(brk, rest, |brk|);
    hide *;
    SplitStep(s, n, m);
    assert s[..n] == line + tail[..0] == line;
    assert s[m..] == tail[|brk|..] == rest[0..] == rest;
  }

  lemma ThreeParts(s: string, i: nat, j: nat)
    requires i <= j <= |s|
    ensures s == s[..i] + (s[i..j] + s[j..])
  {
  }

  // The first line of a text that holds a break.
  lemma FirstBreak(s: string) returns (line: string, brk: string, rest: string)
    requires exists c :: c in s && IsLineBreak(c)
    ensures OneLine(line) && IsBreak(brk, rest) && s == line + (brk + rest)
  {
    var n := LineLength(s);
    assert s[..|s|] == s;
    assert n < |s| && IsLineBreak(s[n]);
    hide LineLength, IsLineBreak, OneLine;
    var twice := s[n] == '\r' && n + 1 < |s| && s[n + 1] == '\n';
    var m := if twice then n + 2 else n + 1;
    line, brk, rest := s[..n], s[n..m], s[m..];
    ThreeParts(s, n, m);
    assert brk[0] == s[n] && (twice ==> brk[1] == s[n + 1] && brk == "\r\n");
    assert !twice && rest != "" ==> rest[0] == s[n + 1];
  }

  /** A newline ends a line for splitlines too, so the lines of a text file are split on their own. */
  lemma {:induction false} SplitAfterLine(a: string, b: string)
    requires IsTextLine(a)
    ensures SplitLines(a + ("\n" + b)) == Pieces(a) + SplitLines(b)
    decreases |a|
  {
    hide SplitLines;
    SplitNothing();
    assert "\n" + "" == "\n";
    if OneLine(a) {
      SplitFirst(a, "\n", b);
      SplitFirst(a, "\n", "");
    } else {
      var line, brk, rest := FirstBreak(a);
      assert forall c :: c in brk ==> c in a;
      assert '\n' in "\r\n" by { assert "\r\n"[1] == '\n'; }
      if brk == "\r" && rest == "" {
        assert a == line + "\r";
        assert a + ("\n" + b) == line + ("\r\n" + b) && a + "\n" == line + ("\r\n" + "");
        SplitFirst(line, "\r\n", b);
        SplitFirst(line, "\r\n", "");
      } else {
        SplitInside(line, brk, rest, b);
      }
    }
  }

  lemma {:induction false} SplitInside(line: string, brk: string, rest: string, b: string)
    requires OneLine(line) && IsBreak(brk, rest) && |brk| == 1 && !(brk == "\r" && rest == "")
    requires IsTextLine(line + (brk + rest))
    ensures var a := line + (brk + rest); SplitLines(a + ("\n" + b)) == Pieces(a) + SplitLines(b)
    decreases |line + (brk + rest)|, 0
  {
    hide SplitLines;
    var a := line + (brk + rest);
    assert IsTextLine(rest) by {
      assert forall c :: c in rest ==> c in a;
    }
    SplitAfterLine(rest, b);
    assert a + ("\n" + b) == line + (brk + (rest + ("\n" + b)));
    assert a + "\n" == line + (brk + (rest + "\n"));
    SplitFirst(line, brk, rest + ("\n" + b));
    SplitFirst(line, brk, rest + "\n");
  }

  lemma SplitNothing()
    ensures SplitLines("") == []
  {
  }

  lemma Regroup(a: string, b: string, c: string)
    ensures a + b + c == a + (b + c)
  {
  }

  function AllPieces(lines: seq<string>): seq<string> {
    if lines == [] then [] else Pieces(lines[0]) + AllPieces(lines[1..])
  }

  /** Splitting the text of a file gives the pieces of its lines. */
  lemma {:induction false} SplitUnlines(lines: seq<string>)
    requires forall l :: l in lines ==> IsTextLine(l)
    ensures SplitLines(Unlines(lines)) == AllPieces(lines)
    decreases |lines|
  {
    SplitNothing();
    if lines != [] {
      hide SplitLines;
      SplitAfterLine(lines[0], Unlines(lines[1..]));
      Regroup(lines[0], "\n", Unlines(lines[1..]));
      SplitUnlines(lines[1..]);
    }
  }

  /** A line without inner breaks is one piece. */
  lemma OnePiece(line: string)
    requires OneLine(Chomp(line))
    ensures Pieces(line) == [Chomp(line)]
  {
    hide SplitLines;
    SplitNothing();
    var t := Chomp(line);
    if t == line {
      SplitFirst(t, "\n", "");
      assert line + "\n" == t + ("\n" + "");
    } else {
      SplitFirst(t, "\r\n", "");
      assert line + "\n" == t + ("\r\n" + "");
    }
  }

  /** A carriage return before the newline belongs to the line break; any other line is left as it is. */
  lemma CarriageReturnIsDropped(line: string)
    requires OneLine(line)
    ensures Chomp(line + "\r") == line && Pieces(line + "\r") == [line]
    ensures Chomp(line) == line
  {
    assert Chomp(line + "\r") == line;
    OnePiece(line + "\r");
    assert line != "" ==> line[|line| - 1] in line;
  }

  /** What stands before the first break belongs to the first piece. */
  lemma PiecesAfter(front: string, text: string)
    requires OneLine(front)
    ensures Pieces(front + text) == [front + Pieces(text)[0]] + Pieces(text)[1..]
  {
    hide SplitLines;
    var t := text + "\n";
    assert t[|text|] == '\n' && t[|text|] in t;
    var line, brk, rest := FirstBreak(t);
    SplitFirst(line, brk, rest);
    OneLineConcat(front, line);
    SplitFirst(front + line, brk, rest);
    Regroup(front, text, "\n");
    Regroup(front, line, brk + rest);
  }

  lemma OneLineIsOnePiece(s: string)
    requires OneLine(s)
    ensures IsTextLine(s) && Pieces(s) == [s]
  {
    assert s != "" ==> s[|s| - 1] in s;
    OnePiece(s);
  }

  /** A line with one break inside, and something after it, is two pieces. */
  lemma TwoPieces(a: string, brk: char, b: string)
    requires OneLine(a) && IsLineBreak(brk) && brk != '\n' && OneLine(b) && b != ""
    ensures IsTextLine(a + [brk] + b) && Pieces(a + [brk] + b) == [a, b]
  {
    OneLineIsOnePiece(a);
    OneLineIsOnePiece(b);
    assert b[0] in b;
    hide SplitLines;
    assert a + [brk] + b + "\n" == a + ([brk] + (b + "\n"));
    assert (b + "\n")[0] == b[0];
    SplitFirst(a, [brk], b + "\n");
  }

  // ----- str.split(sep) -----

  predicate OccursAt(s: string, sep: string, i: int) {
    0 <= i && i + |sep| <= |s| && s[i..i + |sep|] == sep
  }

  predicate Contains(s: string, sep: string) {
    exists i :: 0 <= i <= |s| && OccursAt(s, sep, i)
  }

  lemma OccursInTail(s: string, sep: string, j: nat)
    requires 1 <= j <= |s|
    ensures OccursAt(s, sep, j) <==> OccursAt(s[1..], sep, j - 1)
  {
    var t, n := s[1..], |sep|;
    if j + n <= |s| {
      var here, there := s[j..j + n], t[j - 1..j - 1 + n];
      forall k | 0 <= k < n ensures here[k] == there[k] {
        assert here[k] == s[j + k] == t[j - 1 + k];
      }
    }
  }

  function Find(s: string, sep: string): (r: Option<nat>)
    ensures r.Some? ==> OccursAt(s, sep, r.value) && forall j :: 0 <= j < r.value ==> !OccursAt(s, sep, j)
    ensures r.None? ==> forall j :: 0 <= j <= |s| ==> !OccursAt(s, sep, j)
  {
    if |s| < |sep| then None
    else if s[..|sep|] == sep then Some(0)
    else
      assert forall j :: 1 <= j <= |s| ==> (OccursAt(s, sep, j) <==> OccursAt(s[1..], sep, j - 1)) by {
        forall j | 1 <= j <= |s| ensures OccursAt(s, sep, j) <==> OccursAt(s[1..], sep, j - 1) {
          OccursInTail(s, sep, j);
        }
      }
      match Find(s[1..], sep)
      case None => None
      case Some(i) => Some(i + 1)
  }

  function Split(s: string, sep: string): (parts: seq<string>)
    requires sep != ""
    ensures |parts| >= 1
    decreases |s|
  {
    match Find(s, sep)
    case None => [s]
    case Some(i) => [s[..i]] + Split(s[i + |sep|..], sep)
  }

  /** Where the first occurrence is known, so is the split. */
  lemma SplitAtFirst(s: string, sep: string, i: nat)
    requires sep != "" && OccursAt(s, sep, i) && forall j :: 0 <= j < i ==> !OccursAt(s, sep, j)
    ensures Split(s, sep) == [s[..i]] + Split(s[i + |sep|..], sep)
  {
    assert Find(s, sep) == Some(i);
  }

  lemma SplitWithout(s: string, sep: string)
    requires sep != "" && !Contains(s, sep)
    ensures Split(s, sep) == [s]
  {
  }

  lemma OccursInFront(u: string, v: string, sep: string, i: nat)
    requires i + |sep| <= |u|
    ensures OccursAt(u + v, sep, i) <==> OccursAt(u, sep, i)
  {
    assert (u + v)[i..i + |sep|] == u[i..i + |sep|];
  }

  lemma OccursBehind(u: string, v: string, sep: string, j: nat)
    requires j >= |u|
    ensures OccursAt(u + v, sep, j) <==> OccursAt(v, sep, j - |u|)
  {
    var i := j - |u|;
    if i + |sep| <= |v| {
      assert (u + v)[j..j + |sep|] == v[i..i + |sep|];
    }
  }

  /** No part of a split holds the separator. */
  lemma {:induction false} PartsHoldNoSeparator(s: string, sep: string)
    requires sep != ""
    ensures forall p :: p in Split(s, sep) ==> !Contains(p, sep)
    decreases |s|
  {
    var found := Find(s, sep);
    if found.Some? {
      var i := found.value;
      NoneBeforeFirst(s, sep, i);
      SplitAtFirst(s, sep, i);
      hide Split, Contains;
      PartsHoldNoSeparator(s[i + |sep|..], sep);
    }
  }

  lemma NoneBeforeFirst(s: string, sep: string, i: nat)
    requires i <= |s| && sep != "" && forall j :: 0 <= j < i ==> !OccursAt(s, sep, j)
    ensures !Contains(s[..i], sep)
  {
    forall j | 0 <= j <= i ensures !OccursAt(s[..i], sep, j) {
      if j + |sep| <= i {
        OccursInFront(s[..i], s[i..], sep, j);
        assert s == s[..i] + s[i..];
      }
    }
  }

  // No occurrence of the separator runs across the seam between `u` and `v`.
  ghost predicate CleanSeam(u: string, v: string, sep: string) {
    forall i :: 0 <= i < |u| < i + |sep| ==> !OccursAt(u + v, sep, i)
  }

  // The parts of `a` and then those of `b`, the last of the one and the first of the other run together.
  function Fused(a: seq<string>, b: seq<string>): seq<string>
    requires a != [] && b != []
  {
    a[..|a| - 1] + [a[|a| - 1] + b[0]] + b[1..]
  }

  /** Splitting two strings one after the other. */
  lemma {:induction false} SplitConcat(u: string, v: string, sep: string)
    requires sep != "" && CleanSeam(u, v, sep)
    ensures Split(u + v, sep) == Fused(Split(u, sep), Split(v, sep))
    decreases |u|
  {
    var found := Find(u, sep);
    if found.Some? {
      var i := found.value;
      SplitConcatFound(u, v, sep, i);
    } else {
      SplitConcatNone(u, v, sep);
    }
  }

  lemma {:induction false} SplitConcatFound(u: string, v: string, sep: string, i: nat)
    requires sep != "" && CleanSeam(u, v, sep) && Find(u, sep) == Some(i)
    ensures Split(u + v, sep) == Fused(Split(u, sep), Split(v, sep))
    decreases |u|, 0
  {
    var n := i + |sep|;
    assert n <= |u|;
    SplitAtFirst(u, sep, i);
    hide OccursAt, Find, Split;
    var u', rest := u[..n], u[n..];
    assert u == u' + rest;
    Regroup(u', rest, v);
    forall j | 0 <= j <= i ensures OccursAt(u + v, sep, j) <==> OccursAt(u, sep, j) {
      OccursInFront(u, v, sep, j);
    }
    assert Split(u + v, sep) == [u[..i]] + Split(rest + v, sep) by {
      SplitAtFirst(u + v, sep, i);
      assert (u + v)[..i] == u[..i];
      assert (u + v)[n..] == rest + v;
    }
    assert CleanSeam(rest, v, sep) by {
      forall j | 0 <= j < |rest| < j + |sep| ensures !OccursAt(rest + v, sep, j) {
        OccursBehind(u', rest + v, sep, n + j);
        assert !OccursAt(u + v, sep, n + j);
      }
    }
    hide CleanSeam;
    SplitConcat(rest, v, sep);
    FusedCons(u[..i], Split(rest, sep), Split(v, sep));
  }

  lemma FusedCons(head: string, a: seq<string>, b: seq<string>)
    requires a != [] && b != []
    ensures Fused([head] + a, b) == [head] + Fused(a, b)
  {
  }

  lemma NoneInFront(u: string, v: string, sep: string)
    requires sep != "" && CleanSeam(u, v, sep) && !Contains(u, sep)
    ensures forall j :: 0 <= j < |u| ==> !OccursAt(u + v, sep, j)
  {
    forall j: nat | j < |u| ensures !OccursAt(u + v, sep, j) {
      if j + |sep| <= |u| {
        OccursInFront(u, v, sep, j);
      }
    }
  }

  lemma SplitConcatNone(u: string, v: string, sep: string)
    requires sep != "" && CleanSeam(u, v, sep) && Find(u, sep).None?
    ensures Split(u + v, sep) == Fused(Split(u, sep), Split(v, sep))
  {
    NoneInFront(u, v, sep);
    SplitWithout(u, sep);
    hide Split, OccursAt, CleanSeam;
    if Find(v, sep).Some? {
      FirstBehind(u, v, sep, Find(v, sep).value);
    } else {
      NoneBehind(u, v, sep);
    }
  }

  lemma FirstOccursBehind(u: string, v: string, sep: string, k: nat)
    requires OccursAt(v, sep, k) && forall j :: 0 <= j < k ==> !OccursAt(v, sep, j)
    requires forall j :: 0 <= j < |u| ==> !OccursAt(u + v, sep, j)
    ensures OccursAt(u + v, sep, |u| + k) && forall j :: 0 <= j < |u| + k ==> !OccursAt(u + v, sep, j)
  {
    hide OccursAt;
    forall j: nat | j < |u| + k ensures !OccursAt(u + v, sep, j) {
      if j >= |u| {
        OccursBehind(u, v, sep, j);
      }
    }
    OccursBehind(u, v, sep, |u| + k);
  }

  lemma SplitInto(s: string, sep: string, i: nat, head: string, tail: string)
    requires sep != "" && OccursAt(s, sep, i) && forall j :: 0 <= j < i ==> !OccursAt(s, sep, j)
    requires i + |sep| <= |s| && s[..i] == head && s[i + |sep|..] == tail
    ensures Split(s, sep) == [head] + Split(tail, sep)
  {
    hide *;
    SplitAtFirst(s, sep, i);
  }

  lemma FirstBehind(u: string, v: string, sep: string, k: nat)
    requires sep != "" && OccursAt(v, sep, k) && forall j :: 0 <= j < k ==> !OccursAt(v, sep, j)
    requires forall j :: 0 <= j < |u| ==> !OccursAt(u + v, sep, j)
    ensures Split(u + v, sep) == Fused([u], Split(v, sep))
  {
    var m := |u| + k;
    assert k + |sep| <= |v|;
    hide *;
    var head, tail := v[..k], v[k + |sep|..];
    assert Split(v, sep) == [head] + Split(tail, sep) by {
      SplitInto(v, sep, k, head, tail);
    }
    assert Split(u + v, sep) == [u + head] + Split(tail, sep) by {
      FirstOccursBehind(u, v, sep, k);
      CutBehind(u, v, m);
      CutBehind(u, v, m + |sep|);
      SplitInto(u + v, sep, m, u + head, tail);
    }
    FusedOne(u, head, Split(tail, sep));
  }

  lemma FusedOne(u: string, head: string, rest: seq<string>)
    ensures Fused([u], [head] + rest) == [u + head] + rest
  {
  }

  lemma NoneBehind(u: string, v: string, sep: string)
    requires sep != "" && !Contains(v, sep) && forall j :: 0 <= j < |u| ==> !OccursAt(u + v, sep, j)
    ensures Split(u + v, sep) == Fused([u], Split(v, sep))
  {
    SplitWithout(v, sep);
    forall j: nat | |u| <= j <= |u + v| ensures !OccursAt(u + v, sep, j) {
      OccursBehind(u, v, sep, j);
    }
    SplitWithout(u + v, sep);
  }

  // ----- Decimal numbers -----

  predicate IsDigit(c: char) {
    '0' <= c <= '9'
  }

  function DigitChar(d: nat): char
    requires d < 10
  {
    '0' + d as char
  }

  function Decimal(n: nat): (s: string)
    ensures s != "" && forall c :: c in s ==> IsDigit(c)
  {
    if n < 10 then [DigitChar(n)] else Decimal(n / 10) + [DigitChar(n % 10)]
  }

  // The number that ASCII digits stand for.
  function Worth(digits: string): int {
    if digits == "" then 0 else 10 * Worth(digits[..|digits| - 1]) + (digits[|digits| - 1] as int - '0' as int)
  }

  /** A number is printed by its digits, without a zero in front. */
  lemma {:induction false} DecimalMeans(n: nat)
    ensures Worth(Decimal(n)) == n && (forall c :: c in Decimal(n) ==> '0' <= c <= '9')
    ensures Decimal(n)[0] == '0' ==> n == 0 && |Decimal(n)| == 1
    decreases n
  {
    var s := Decimal(n);
    if n < 10 {
      assert s[..|s| - 1] == "";
    } else {
      DecimalMeans(n / 10);
      assert s[..|s| - 1] == Decimal(n / 10);
    }
  }

  function IntText(n: int): string {
    if n < 0 then "-" + Decimal(-n) else Decimal(n)
  }

  /** Any number: a minus sign in front of a negative one, and then the digits. */
  lemma IntTextMeans(n: int)
    ensures n >= 0 ==> Worth(IntText(n)) == n && forall c :: c in IntText(n) ==> '0' <= c <= '9'
    ensures n < 0 ==>
      var s := IntText(n);
      |s| > 1 && s[0] == '-' && Worth(s[1..]) == -n && forall c :: c in s[1..] ==> '0' <= c <= '9'
  {
    if n < 0 {
      DecimalMeans(-n);
      assert IntText(n)[1..] == Decimal(-n);
    } else {
      DecimalMeans(n);
    }
  }

  // The zeros of the other decimal digits of Unicode 15.0; each is followed by its one to nine.
  const OTHER_ZEROS: seq<int> := [
    0x660, 0x6F0, 0x7C0, 0x966, 0x9E6, 0xA66, 0xAE6, 0xB66, 0xBE6, 0xC66, 0xCE6,
    0xD66, 0xDE6, 0xE50, 0xED0, 0xF20, 0x1040, 0x1090, 0x17E0, 0x1810, 0x1946, 0x19D0,
    0x1A80, 0x1A90, 0x1B50, 0x1BB0, 0x1C40, 0x1C50, 0xA620, 0xA8D0, 0xA900, 0xA9D0, 0xA9F0,
    0xAA50, 0xABF0, 0xFF10, 0x104A0, 0x10D30, 0x11066, 0x110F0, 0x11136, 0x111D0, 0x112F0, 0x11450,
    0x114D0, 0x11650, 0x116C0, 0x11730, 0x118E0, 0x11950, 0x11C50, 0x11D50, 0x11DA0, 0x11F50, 0x16A60,
    0x16AC0, 0x16B50, 0x1D7CE, 0x1D7D8, 0x1D7E2, 0x1D7EC, 0x1D7F6, 0x1E140, 0x1E2F0, 0x1E4F0, 0x1E950,
    0x1FBF0]

  // `c` is one of the ten digits that start at `zero`.
  predicate InBlock(c: char, zero: int) {
    zero <= c as int < zero + 10
  }

  /** What `\d` matches: every decimal digit, not only those of ASCII. */
  predicate IsDecimal(c: char) {
    IsDigit(c) || (c > '~' && exists zero :: zero in OTHER_ZEROS && InBlock(c, zero))
  }

  /** The zero of each block and the nine characters behind it are decimal digits. */
  lemma BlocksAreDecimal(zero: int, d: nat)
    requires zero in OTHER_ZEROS && zero > 126 && d < 10
    requires zero + d < 0xD800 || 0xE000 <= zero + d < 0x11_0000
    ensures IsDecimal((zero + d) as char)
  {
    assert '~' as int == 126 && InBlock((zero + d) as char, zero);
  }

  function DigitValueIn(c: char, zeros: seq<int>): (v: int)
    requires exists zero :: zero in zeros && InBlock(c, zero)
    ensures 0 <= v <= 9
  {
    if InBlock(c, zeros[0]) then c as int - zeros[0]
    else
      assert zeros == [zeros[0]] + zeros[1..];
      DigitValueIn(c, zeros[1..])
  }

  function DigitValue(c: char): (v: int)
    requires IsDecimal(c)
    ensures 0 <= v <= 9
  {
    if IsDigit(c) then c as int - '0' as int else DigitValueIn(c, OTHER_ZEROS)
  }

  function ParseDecimal(s: string): nat
    requires forall c :: c in s ==> IsDecimal(c)
  {
    if s == "" then 0
    else
      assert s[|s| - 1] in s && IsDecimal(s[|s| - 1]);
      10 * ParseDecimal(s[..|s| - 1]) + DigitValue(s[|s| - 1])
  }

  lemma {:induction false} ParseDecimalDecimal(n: nat)
    ensures ParseDecimal(Decimal(n)) == n
    decreases n
  {
    var s := Decimal(n);
    if n < 10 {
      assert s[..|s| - 1] == "";
    } else {
      ParseDecimalDecimal(n / 10);
      assert s[..|s| - 1] == Decimal(n / 10);
    }
  }

  function LeadingDigits(s: string): (n: nat)
    ensures n <= |s| && (forall c :: c in s[..n] ==> IsDecimal(c)) && (n < |s| ==> !IsDecimal(s[n]))
  {
    if s == "" || !IsDecimal(s[0]) then 0
    else
      var n := LeadingDigits(s[1..]);
      assert s[..n + 1] == [s[0]] + s[1..][..n];
      n + 1
  }

  /** `re.search(r"\+(\d+)", s)`: the number after the first plus sign that a digit follows. */
  function PlusNumber(s: string): Option<nat> {
    if |s| < 2 then None
    else if s[0] == '+' && IsDecimal(s[1]) then Some(ParseDecimal(s[1..][..LeadingDigits(s[1..])]))
    else PlusNumber(s[1..])
  }

  lemma {:induction false} LeadingDigitsOf(digits: string, rest: string)
    requires (forall c :: c in digits ==> IsDecimal(c)) && (rest == "" || !IsDecimal(rest[0]))
    ensures LeadingDigits(digits + rest) == |digits|
    decreases |digits|
  {
    if digits == "" {
      assert digits + rest == rest;
    } else {
      assert (digits + rest)[1..] == digits[1..] + rest;
      assert digits[0] in digits;
      LeadingDigitsOf(digits[1..], rest);
    }
  }

  lemma {:induction false} PlusNumberFinds(before: string, n: nat, rest: string)
    requires '+' !in before && (rest == "" || !IsDecimal(rest[0]))
    ensures PlusNumber(before + "+" + Decimal(n) + rest) == Some(n)
    decreases |before|
  {
    var s := before + "+" + Decimal(n) + rest;
    if before == "" {
      assert s[1..] == Decimal(n) + rest;
      assert s[1] == Decimal(n)[0] && Decimal(n)[0] in Decimal(n);
      LeadingDigitsOf(Decimal(n), rest);
      assert s[1..][..|Decimal(n)|] == Decimal(n);
      ParseDecimalDecimal(n);
    } else {
      assert s[1..] == before[1..] + "+" + Decimal(n) + rest;
      assert s[0] == before[0] && before[0] in before;
      PlusNumberFinds(before[1..], n, rest);
    }
  }

  // ----- Slash-separated paths -----

  function StripLeft(s: string, c: char): (r: string)
    ensures r == "" || r[0] != c
  {
    if s != "" && s[0] == c then StripLeft(s[1..], c) else s
  }

  function StripRight(s: string, c: char): (r: string)
    ensures r == "" || r[|r| - 1] != c
    ensures r <= s
  {
    if s != "" && s[|s| - 1] == c then StripRight(s[..|s| - 1], c) else s
  }

  /** `s.strip(c)`. */
  function Strip(s: string, c: char): (r: string)
    ensures r == "" || (r[0] != c && r[|r| - 1] != c)
  {
    StripRight(StripLeft(s, c), c)
  }

  // `r` is `s` with only characters of `out` cut off at its ends, and none of them left there.
  ghost predicate CutsEnds(s: string, r: string, out: char -> bool, i: nat, j: nat) {
    && i <= j <= |s| && r == s[i..j]
    && (forall k :: 0 <= k < i || j <= k < |s| ==> out(s[k]))
    && (r != "" ==> !out(r[0]) && !out(r[|r| - 1]))
  }

  lemma {:induction false} StripLeftCuts(s: string, c: char) returns (i: nat)
    ensures i <= |s| && StripLeft(s, c) == s[i..] && forall k :: 0 <= k < i ==> s[k] == c
    decreases |s|
  {
    i := 0;
    if s != "" && s[0] == c {
      i := StripLeftCuts(s[1..], c);
      i := i + 1;
    }
  }

  lemma {:induction false} StripRightCuts(s: string, c: char) returns (j: nat)
    ensures j <= |s| && StripRight(s, c) == s[..j] && forall k :: j <= k < |s| ==> s[k] == c
    decreases |s|
  {
    j := |s|;
    if s != "" && s[|s| - 1] == c {
      j := StripRightCuts(s[..|s| - 1], c);
    }
  }

  /** Stripping cuts off that character at both ends, and nothing else. */
  lemma StripCuts(s: string, c: char) returns (i: nat, j: nat)
    ensures CutsEnds(s, Strip(s, c), d => d == c, i, j)
  {
    i := StripLeftCuts(s, c);
    var l := StripRightCuts(StripLeft(s, c), c);
    j := i + l;
    assert forall k :: j <= k < |s| ==> s[k] == s[i..][k - i];
  }

  predicate IsName(s: string) {
    s != "" && '/' !in s
  }

  ghost predicate AllNames(parts: seq<string>) {
    forall p :: p in parts ==> IsName(p)
  }

  /** `sep.join(parts)`. */
  function Join(parts: seq<string>, sep: string): string {
    if parts == [] then "" else if |parts| == 1 then parts[0] else parts[0] + sep + Join(parts[1..], sep)
  }

  lemma {:induction false} JoinSnoc(parts: seq<string>, last: string, sep: string)
    ensures Join(parts + [last], sep) == if parts == [] then last else Join(parts, sep) + sep + last
    decreases |parts|
  {
    if parts != [] {
      assert (parts + [last])[1..] == parts[1..] + [last];
      JoinSnoc(parts[1..], last, sep);
    }
  }

  lemma JoinCons(head: string, parts: seq<string>, sep: string)
    requires parts != []
    ensures Join([head] + parts, sep) == head + sep + Join(parts, sep)
  {
    assert ([head] + parts)[1..] == parts;
  }

  /** Joining what a split produced gives the string back. */
  lemma {:induction false} JoinSplit(s: string, sep: string)
    requires sep != ""
    ensures Join(Split(s, sep), sep) == s
    decreases |s|
  {
    var found := Find(s, sep);
    if found.Some? {
      var i := found.value;
      var rest := s[i + |sep|..];
      JoinSplit(rest, sep);
      JoinCons(s[..i], Split(rest, sep), sep);
      assert s[..i] + sep == s[..i + |sep|];
    }
  }

  lemma NoSlash(s: string, i: int)
    requires '/' !in s
    ensures !OccursAt(s, "/", i)
  {
    if 0 <= i < |s| {
      assert s[i..i + 1][0] == s[i] && s[i] in s;
    }
  }

  /** Splitting what names were joined to gives the names back. */
  lemma {:induction false} SplitJoin(parts: seq<string>)
    requires parts != [] && AllNames(parts)
    ensures Split(Join(parts, "/"), "/") == parts
    decreases |parts|
  {
    var head := parts[0];
    assert head in parts;
    if |parts| == 1 {
      forall i | 0 <= i <= |head| ensures !OccursAt(head, "/", i) { NoSlash(head, i); }
      SplitWithout(head, "/");
    } else {
      var s, rest := Join(parts, "/"), Join(parts[1..], "/");
      assert s == head + "/" + rest;
      assert s[|head|..|head| + 1] == "/";
      forall j | 0 <= j < |head| ensures !OccursAt(s, "/", j) {
        NoSlash(head, j);
        assert s[j..j + 1] == head[j..j + 1];
      }
      SplitAtFirst(s, "/", |head|);
      assert s[..|head|] == head && s[|head| + 1..] == rest;
      SplitJoin(parts[1..]);
    }
  }

  lemma {:induction false} JoinEnds(parts: seq<string>)
    requires parts != [] && AllNames(parts)
    ensures var s := Join(parts, "/"); s != "" && s[0] != '/' && s[|s| - 1] != '/'
    decreases |parts|
  {
    var head := parts[0];
    assert head in parts && head[0] in head && head[|head| - 1] in head;
    if |parts| > 1 {
      JoinEnds(parts[1..]);
    }
  }

  /** The parts of a path between its slashes, outer slashes aside. */
  function Parts(path: string): seq<string> {
    if Strip(path, '/') == "" then [] else Split(Strip(path, '/'), "/")
  }

  lemma PartsOfJoin(parts: seq<string>)
    requires AllNames(parts)
    ensures Strip(Join(parts, "/"), '/') == Join(parts, "/")
    ensures Parts(Join(parts, "/")) == parts
  {
    if parts != [] {
      JoinEnds(parts);
      SplitJoin(parts);
    }
  }

  // ----- Whitespace -----

  // The characters that strip and split take for whitespace.
  predicate IsSpace(c: char) {
    ('\t' <= c <= '\r') || ('\U{1C}' <= c <= ' ') || c == '\U{85}' || c == '\U{A0}' || c == '\U{1680}'
    || ('\U{2000}' <= c <= '\U{200A}') || c == '\U{2028}' || c == '\U{2029}' || c == '\U{202F}' || c == '\U{205F}'
    || c == '\U{3000}'
  }

  // Python's whitespace, by code point.
  const WHITESPACE: set<int> := {
    9, 10, 11, 12, 13, 28, 29, 30, 31, 32, 133, 160, 5760, 8192, 8193, 8194, 8195, 8196, 8197, 8198, 8199, 8200,
    8201, 8202, 8232, 8233, 8239, 8287, 12288}

  lemma SpacesAre(c: char)
    ensures IsSpace(c) <==> c as int in WHITESPACE
  {
    assert '\t' as int == 9 && '\r' as int == 13;
  }

  function WordLength(s: string): (n: nat)
    ensures n <= |s| && (forall c :: c in s[..n] ==> !IsSpace(c)) && (n < |s| ==> IsSpace(s[n]))
  {
    if s == "" || IsSpace(s[0]) then 0
    else
      var n := WordLength(s[1..]);
      assert s[..n + 1] == [s[0]] + s[1..][..n];
      n + 1
  }

  /** `s.split()`: the maximal runs of characters that are not whitespace. */
  function Words(s: string): (w: seq<string>)
    decreases |s|
  {
    if s == "" then []
    else if IsSpace(s[0]) then Words(s[1..])
    else [s[..WordLength(s)]] + Words(s[WordLength(s)..])
  }

  function TrimLeft(s: string): string {
    if s != "" && IsSpace(s[0]) then TrimLeft(s[1..]) else s
  }

  function TrimRight(s: string): string {
    if s != "" && IsSpace(s[|s| - 1]) then TrimRight(s[..|s| - 1]) else s
  }

  /** `s.strip()`. */
  function Trim(s: string): string {
    TrimRight(TrimLeft(s))
  }

  lemma {:induction false} TrimLeftCuts(s: string) returns (i: nat)
    ensures i <= |s| && TrimLeft(s) == s[i..] && (forall k :: 0 <= k < i ==> IsSpace(s[k])) && (i < |s| ==> !IsSpace(s[i]))
    decreases |s|
  {
    i := 0;
    if s != "" && IsSpace(s[0]) {
      i := TrimLeftCuts(s[1..]);
      i := i + 1;
    }
  }

  lemma {:induction false} TrimRightCuts(s: string) returns (j: nat)
    ensures j <= |s| && TrimRight(s) == s[..j] && forall k :: j <= k < |s| ==> IsSpace(s[k])
    ensures j > 0 ==> !IsSpace(s[j - 1])
    decreases |s|
  {
    j := |s|;
    if s != "" && IsSpace(s[|s| - 1]) {
      j := TrimRightCuts(s[..|s| - 1]);
    }
  }

  /** Trimming cuts off whitespace at both ends, and nothing else. */
  lemma TrimCuts(s: string) returns (i: nat, j: nat)
    ensures CutsEnds(s, Trim(s), IsSpace, i, j)
  {
    i := TrimLeftCuts(s);
    var l := TrimRightCuts(TrimLeft(s));
    j := i + l;
    assert forall k :: j <= k < |s| ==> s[k] == s[i..][k - i];
  }

  // Lower case of the letters A to Z.
  function LowerChar(c: char): char {
    if 'A' <= c <= 'Z' then (c - 'A') + 'a' else c
  }

  function LowerText(s: string): string {
    seq(|s|, i requires 0 <= i < |s| => LowerChar(s[i]))
  }

  /** Lower-casing replaces the letters A to Z by a to z, one for one. */
  lemma LowerTextIs(s: string, i: nat)
    requires i < |s|
    ensures |LowerText(s)| == |s|
    ensures LowerText(s)[i] as int == if 65 <= s[i] as int <= 90 then s[i] as int + 32 else s[i] as int
  {
    assert 'A' as int == 65 && 'Z' as int == 90 && 'a' as int == 97;
  }

  predicate IsWord(s: string) {
    s != "" && forall c :: c in s ==> !IsSpace(c)
  }

  lemma {:induction false} WordLengthOf(word: string, rest: string)
    requires (forall c :: c in word ==> !IsSpace(c)) && (rest == "" || IsSpace(rest[0]))
    ensures WordLength(word + rest) == |word|
    decreases |word|
  {
    if word == "" {
      assert word + rest == rest;
    } else {
      assert (word + rest)[1..] == word[1..] + rest;
      assert word[0] in word;
      WordLengthOf(word[1..], rest);
    }
  }

  /** A word followed by whitespace or nothing is the first word. */
  lemma FirstWord(word: string, rest: string)
    requires IsWord(word) && (rest == "" || IsSpace(rest[0]))
    ensures Words(word + rest) == [word] + Words(rest)
  {
    WordLengthOf(word, rest);
    assert word[0] in word && (word + rest)[0] == word[0];
    assert (word + rest)[..|word|] == word && (word + rest)[|word|..] == rest;
  }

  lemma WordThen(word: string, rest: string)
    requires IsWord(word)
    ensures Words(word + " " + rest) == [word] + Words(rest)
  {
    var tail := " " + rest;
    assert word + " " + rest == word + tail;
    FirstWord(word, tail);
    assert tail[1..] == rest;
  }

  lemma {:induction false} TrimLeftKeepsWords(s: string)
    ensures Words(TrimLeft(s)) == Words(s)
    decreases |s|
  {
    if s != "" && IsSpace(s[0]) {
      TrimLeftKeepsWords(s[1..]);
    }
  }

  lemma {:induction false} TrailingSpace(s: string, c: char)
    requires IsSpace(c)
    ensures Words(s + [c]) == Words(s)
    decreases |s|
  {
    var t := s + [c];
    if s == "" {
      assert t[1..] == "" && t == [c];
    } else if IsSpace(s[0]) {
      assert t[1..] == s[1..] + [c];
      TrailingSpace(s[1..], c);
    } else {
      var n := WordLength(s);
      var word, rest := s[..n], s[n..];
      assert s == word + rest && t == word + (rest + [c]);
      assert s[0] in s[..n];
      WordLengthOf(word, rest);
      FirstWord(word, rest);
      FirstWord(word, rest + [c]);
      TrailingSpace(rest, c);
    }
  }

  lemma {:induction false} TrimRightKeepsWords(s: string)
    ensures Words(TrimRight(s)) == Words(s)
    decreases |s|
  {
    if s != "" && IsSpace(s[|s| - 1]) {
      TrimRightKeepsWords(s[..|s| - 1]);
      assert s == s[..|s| - 1] + [s[|s| - 1]];
      TrailingSpace(s[..|s| - 1], s[|s| - 1]);
    }
  }

  /** Stripping first makes no difference to the words. */
  lemma TrimKeepsWords(s: string)
    ensures Words(Trim(s)) == Words(s)
  {
    TrimLeftKeepsWords(s);
    TrimRightKeepsWords(TrimLeft(s));
  }

  // Words, each with the whitespace in front of it.
  function Spaced(parts: seq<(string, string)>): string {
    if parts == [] then "" else parts[0].0 + parts[0].1 + Spaced(parts[1..])
  }

  function Seconds(parts: seq<(string, string)>): seq<string> {
    if parts == [] then [] else [parts[0].1] + Seconds(parts[1..])
  }

  predicate AllSpace(s: string) {
    forall c :: c in s ==> IsSpace(c)
  }

  lemma {:induction false} LeadingSpace(gap: string, s: string)
    requires AllSpace(gap)
    ensures Words(gap + s) == Words(s)
    decreases |gap|
  {
    if gap == "" {
      assert gap + s == s;
    } else {
      assert gap[0] in gap && (gap + s)[1..] == gap[1..] + s;
      LeadingSpace(gap[1..], s);
    }
  }

  lemma StartsWithSpace(parts: seq<(string, string)>, tail: string)
    requires AllSpace(tail) && forall p :: p in parts ==> AllSpace(p.0) && p.0 != ""
    ensures var s := Spaced(parts) + tail; s == "" || IsSpace(s[0])
  {
    if parts == [] {
      assert Spaced(parts) + tail == tail;
      assert tail != "" ==> tail[0] in tail;
    } else {
      assert parts[0] in parts && parts[0].0[0] in parts[0].0;
    }
  }

  lemma SpacedCons(parts: seq<(string, string)>, tail: string)
    requires parts != []
    ensures Spaced(parts) + tail == parts[0].0 + (parts[0].1 + (Spaced(parts[1..]) + tail))
  {
  }

  /** The words of a text are what whitespace divides it into. */
  lemma {:induction false} WordsOfSpaced(parts: seq<(string, string)>, tail: string)
    requires AllSpace(tail)
    requires forall p :: p in parts ==> AllSpace(p.0) && p.0 != "" && IsWord(p.1)
    ensures Words(Spaced(parts) + tail) == Seconds(parts)
    decreases |parts|
  {
    if parts == [] {
      assert Spaced(parts) + tail == tail + "";
      LeadingSpace(tail, "");
    } else {
      var (gap, word) := parts[0];
      var rest := Spaced(parts[1..]) + tail;
      assert parts[0] in parts && forall p :: p in parts[1..] ==> p in parts;
      WordsOfSpaced(parts[1..], tail);
      StartsWithSpace(parts[1..], tail);
      hide Words, Spaced;
      FirstWord(word, rest);
      LeadingSpace(gap, word + rest);
      SpacedCons(parts, tail);
    }
  }

  // ----- Order of strings -----

  /** Python's order of strings, by code point. */
  predicate TextLe(a: string, b: string) {
    a == "" || (b != "" && (a[0] < b[0] || (a[0] == b[0] && TextLe(a[1..], b[1..]))))
  }

  // `a` is `b` cut off, or has the smaller character where they first differ.
  ghost predicate ComesFirst(a: string, b: string) {
    exists i :: 0 <= i <= |a| && i <= |b| && a[..i] == b[..i] && (i == |a| || (i < |b| && (a[i] as int) < b[i] as int))
  }

  lemma {:induction false} TextLeMeans(a: string, b: string)
    ensures TextLe(a, b) <==> ComesFirst(a, b)
    decreases |a|
  {
    if a != "" && b != "" && a[0] == b[0] {
      TextLeMeans(a[1..], b[1..]);
      if i :| 0 <= i < |a| && i < |b| && a[1..][..i] == b[1..][..i]
              && (i == |a| - 1 || (i < |b| - 1 && (a[1..][i] as int) < b[1..][i] as int)) {
        assert a[..i + 1] == [a[0]] + a[1..][..i] && b[..i + 1] == [b[0]] + b[1..][..i];
      }
      if i :| 0 < i <= |a| && i <= |b| && a[..i] == b[..i]
              && (i == |a| || (i < |b| && (a[i] as int) < b[i] as int)) {
        assert a[1..][..i - 1] == a[..i][1..] && b[1..][..i - 1] == b[..i][1..];
      }
    } else {
      assert a[..0] == b[..0];
      assert a != "" && b != "" ==> forall i :: 0 < i <= |a| && i <= |b| ==> a[..i][0] != b[..i][0];
    }
  }

  lemma {:induction false} TextLeTotal(a: string, b: string)
    ensures TextLe(a, b) || TextLe(b, a)
    ensures TextLe(a, b) && TextLe(b, a) ==> a == b
    decreases |a|
  {
    if a != "" && b != "" {
      TextLeTotal(a[1..], b[1..]);
      assert a == [a[0]] + a[1..] && b == [b[0]] + b[1..];
    }
  }

  lemma {:induction false} TextLeTransitive(a: string, b: string, c: string)
    requires TextLe(a, b) && TextLe(b, c)
    ensures TextLe(a, c)
    decreases |a|
  {
    if a != "" && a[0] == b[0] && b[0] == c[0] {
      TextLeTransitive(a[1..], b[1..], c[1..]);
    }
  }
}
