/**
 The secret scanner's walk over a unified diff: a fold over lines that tracks the current file and
 the current line of its new version.
 */
module DiffScan {
  import opened Wrappers
  import opened PyText

  // What a rule finds in one line is left to the rule.
  datatype Rule = Rule(id: string, title: string, severity: string, search: string -> Option<string>, mask: bool)

  datatype Finding = Finding(ruleId: string, title: string, severity: string, file: string, line: int, raw: string)

  // ----- The scanner -----

  function Stars(n: nat): (s: string)
    ensures |s| == n && forall c :: c in s ==> c == '*'
  {
    seq(n, _ => '*')
  }

  /** Keeps at most the first and the last four characters of a secret. */
  function Mask(value: string): string {
    if |value| <= 8 then "***" else value[..4] + Stars(|value| - 8) + value[|value| - 4..]
  }

  function Report(rule: Rule, value: string, file: string, line: int): Finding {
    var shown := if rule.mask then Mask(value) else value;
    Finding(rule.id, rule.title, rule.severity, file, line, shown + " in `" + file + ":" + IntText(line) + "`")
  }

  function Check(rules: seq<Rule>, text: string, file: string, line: int): seq<Finding> {
    if rules == [] then []
    else
      var rest := Check(rules[1..], text, file, line);
      match rules[0].search(text)
      case None => rest
      case Some(value) => [Report(rules[0], value, file, line)] + rest
  }

  datatype Cursor = Cursor(file: string, line: int)

  const START := Cursor("unknown", 0)

  // The tests of the scanner, `startswith` spelled out character by character where it is short.
  predicate IsFileHeader(raw: string) {
    |raw| >= 10 && raw[0] == 'd' && raw[..10] == "diff --git"
  }

  predicate IsHunkHeader(raw: string) {
    |raw| >= 2 && raw[0] == '@' && raw[1] == '@'
  }

  predicate IsAddition(raw: string) {
    |raw| >= 1 && raw[0] == '+' && !(|raw| >= 3 && raw[1] == '+' && raw[2] == '+')
  }

  predicate IsContext(raw: string) {
    |raw| >= 1 && raw[0] == ' '
  }

  predicate IsRemoval(raw: string) {
    |raw| >= 1 && raw[0] == '-'
  }

  /** What one line of the diff does to the cursor. */
  function Move(c: Cursor, raw: string): Cursor {
    if IsFileHeader(raw) then
      var parts := Split(raw, " b/");
      Cursor(if |parts| > 1 then parts[1] else c.file, 0)
    else if IsHunkHeader(raw) then
      match PlusNumber(raw)
      case None => c
      case Some(n) => c.(line := n - 1)
    else if IsAddition(raw) || IsContext(raw) then
      c.(line := c.line + 1)
    else c
  }

  function ScanLine(c: Cursor, raw: string, rules: seq<Rule>): seq<Finding> {
    if IsAddition(raw) then Check(rules, raw[1..], c.file, c.line + 1) else []
  }

  function ScanLines(c: Cursor, lines: seq<string>, rules: seq<Rule>): seq<Finding>
    decreases |lines|
  {
    if lines == [] then [] else ScanLine(c, lines[0], rules) + ScanLines(Move(c, lines[0]), lines[1..], rules)
  }

  function MoveAll(c: Cursor, lines: seq<string>): Cursor
    decreases |lines|
  {
    if lines == [] then c else MoveAll(Move(c, lines[0]), lines[1..])
  }

  function Scan(text: string, rules: seq<Rule>): seq<Finding> {
    ScanLines(START, SplitLines(text), rules)
  }

  lemma CheckFirstRule(rules: seq<Rule>, j: nat, text: string, file: string, line: int)
    requires j < |rules|
    ensures Check(rules[j..], text, file, line)
         == match rules[j].search(text)
            case None => Check(rules[j + 1..], text, file, line)
            case Some(value) => [Report(rules[j], value, file, line)] + Check(rules[j + 1..], text, file, line)
  {
    assert rules[j..][1..] == rules[j + 1..];
  }

  method CheckLine(rules: seq<Rule>, text: string, file: string, line: int) returns (findings: seq<Finding>)
    ensures findings == Check(rules, text, file, line)
  {
    findings := [];
    for j := 0 to |rules|
      invariant Check(rules, text, file, line) == findings + Check(rules[j..], text, file, line)
    {
      CheckFirstRule(rules, j, text, file, line);
      var found := rules[j].search(text);
      if found.Some? {
        ghost var before, rest := findings, Check(rules[j + 1..], text, file, line);
        findings := findings + [Report(rules[j], found.value, file, line)];
        assert before + ([Report(rules[j], found.value, file, line)] + rest) == findings + rest;
      }
    }
  }

  /** One turn of the scanner's loop. */
  method ReadLine(file: string, line: int, raw: string, rules: seq<Rule>)
    returns (currentFile: string, currentLine: int, found: seq<Finding>)
    ensures Cursor(currentFile, currentLine) == Move(Cursor(file, line), raw)
    ensures found == ScanLine(Cursor(file, line), raw, rules)
  {
    currentFile, currentLine, found := file, line, [];
    if IsFileHeader(raw) {
      var parts := Split(raw, " b/");
      if |parts| > 1 {
        currentFile := parts[1];
      }
      currentLine := 0;
    } else if IsHunkHeader(raw) {
      var m := PlusNumber(raw);
      if m.Some? {
        currentLine := m.value;
        currentLine := currentLine - 1;
      }
    } else if IsAddition(raw) {
      currentLine := currentLine + 1;
      found := CheckLine(rules, raw[1..], currentFile, currentLine);
    } else if IsContext(raw) || IsRemoval(raw) {
      if !IsRemoval(raw) {
        currentLine := currentLine + 1;
      }
    }
  }

  lemma ScanFirstLine(c: Cursor, lines: seq<string>, i: nat, rules: seq<Rule>)
    requires i < |lines|
    ensures ScanLines(c, lines[i..], rules)
         == ScanLine(c, lines[i], rules) + ScanLines(Move(c, lines[i]), lines[i + 1..], rules)
  {
    assert lines[i..][1..] == lines[i + 1..];
  }

  method ScanDiff(text: string, rules: seq<Rule>) returns (findings: seq<Finding>)
    ensures findings == Scan(text, rules)
  {
    findings := [];
    var currentFile, currentLine: int := "unknown", 0;
    var lines := SplitLines(text);
    for i := 0 to |lines|
      invariant Scan(text, rules) == findings + ScanLines(Cursor(currentFile, currentLine), lines[i..], rules)
    {
      ScanFirstLine(Cursor(currentFile, currentLine), lines, i, rules);
      var found: seq<Finding>;
      currentFile, currentLine, found := ReadLine(currentFile, currentLine, lines[i], rules);
      findings := findings + found;
    }
  }

  /** Masking keeps at most the first and last four characters of a secret, and of a short one nothing. */
  lemma MaskHidesTheMiddle(value: string)
    ensures |value| <= 8 ==> forall c :: c in Mask(value) ==> c == '*'
    ensures |value| > 8 ==>
      (|Mask(value)| == |value|
       && forall i :: 0 <= i < |value| ==> Mask(value)[i] == if 4 <= i < |value| - 4 then '*' else value[i])
  {
    if |value| > 8 {
      var stars := Stars(|value| - 8);
      assert forall i :: 0 <= i < |stars| ==> stars[i] in stars;
    }
  }
  // What a finding shows of a secret: all of it, or its outer four characters if the rule masks and it is longer than
  // eight, or nothing.
  ghost predicate ShownAs(rule: Rule, value: string, shown: string) {
    if !rule.mask then shown == value
    else if |value| <= 8 then shown == "***"
    else
      |shown| == |value|
      && forall i :: 0 <= i < |value| ==> shown[i] == if 4 <= i < |value| - 4 then '*' else value[i]
  }

  // The finding of a rule in a line, for what the rule's search finds there.
  ghost predicate Reports(f: Finding, rule: Rule, text: string, file: string, line: int) {
    && rule.search(text).Some?
    && f.ruleId == rule.id && f.title == rule.title && f.severity == rule.severity && f.file == file && f.line == line
    && exists shown :: ShownAs(rule, rule.search(text).value, shown)
                       && f.raw == shown + (" in `" + (file + (":" + (IntText(line) + "`"))))
  }

  lemma ReportReports(rule: Rule, text: string, file: string, line: int)
    requires rule.search(text).Some?
    ensures Reports(Report(rule, rule.search(text).value, file, line), rule, text, file, line)
  {
    var value := rule.search(text).value;
    var shown := if rule.mask then Mask(value) else value;
    MaskHidesTheMiddle(value);
    assert ShownAs(rule, value, shown);
    assert shown + " in `" + file + ":" + IntText(line) + "`" == shown + (" in `" + (file + (":" + (IntText(line) + "`"))));
  }

  /** One line: a finding for each rule that matches, in the order of the rules, and no secret shown that is to be masked. */
  lemma {:induction false} CheckReports(rules: seq<Rule>, text: string, file: string, line: int)
    ensures var (found, matching) := (Check(rules, text, file, line), Filter(rules, (r: Rule) => r.search(text).Some?));
      |found| == |matching| && forall j :: 0 <= j < |found| ==> Reports(found[j], matching[j], text, file, line)
    decreases |rules|
  {
    if rules != [] {
      CheckReports(rules[1..], text, file, line);
      FilterCons(rules[0], rules[1..], (r: Rule) => r.search(text).Some?);
      assert rules == [rules[0]] + rules[1..];
      if rules[0].search(text).Some? {
        ReportReports(rules[0], text, file, line);
      }
    }
  }
}
