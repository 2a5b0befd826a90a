/**
 What the secret scanner checks in a sequence of printed lines, compared with the checks that the
 lines call for.
 */
module DiffItems {
  import opened Wrappers
  import opened PyText
  import opened DiffScan

  // ----- The checks behind the findings -----

  // A text checked by every rule, as line `line` of the new version of `file`.
  datatype Checked = Checked(text: string, file: string, line: int)

  function CheckAll(checks: seq<Checked>, rules: seq<Rule>): seq<Finding> {
    if checks == [] then []
    else Check(rules, checks[0].text, checks[0].file, checks[0].line) + CheckAll(checks[1..], rules)
  }

  function LineChecks(c: Cursor, raw: string): seq<Checked> {
    if IsAddition(raw) then [Checked(raw[1..], c.file, c.line + 1)] else []
  }

  /** The checks the scanner makes on its way through `lines`. */
  function ScanChecks(c: Cursor, lines: seq<string>): seq<Checked>
    decreases |lines|
  {
    if lines == [] then [] else LineChecks(c, lines[0]) + ScanChecks(Move(c, lines[0]), lines[1..])
  }

  lemma {:induction false} CheckAllConcat(a: seq<Checked>, b: seq<Checked>, rules: seq<Rule>)
    ensures CheckAll(a + b, rules) == CheckAll(a, rules) + CheckAll(b, rules)
    decreases |a|
  {
    if a == [] {
      assert a + b == b;
    } else {
      assert (a + b)[1..] == a[1..] + b;
      CheckAllConcat(a[1..], b, rules);
    }
  }

  lemma {:induction false} ScanIsCheckAll(c: Cursor, lines: seq<string>, rules: seq<Rule>)
    ensures ScanLines(c, lines, rules) == CheckAll(ScanChecks(c, lines), rules)
    decreases |lines|
  {
    if lines != [] {
      ScanIsCheckAll(Move(c, lines[0]), lines[1..], rules);
      CheckAllConcat(LineChecks(c, lines[0]), ScanChecks(Move(c, lines[0]), lines[1..]), rules);
      if IsAddition(lines[0]) {
        assert LineChecks(c, lines[0])[1..] == [];
      }
    }
  }

  lemma {:induction false} ScanChecksConcat(c: Cursor, a: seq<string>, b: seq<string>)
    ensures ScanChecks(c, a + b) == ScanChecks(c, a) + ScanChecks(MoveAll(c, a), b)
    ensures MoveAll(c, a + b) == MoveAll(MoveAll(c, a), b)
    decreases |a|
  {
    if a == [] {
      assert a + b == b;
    } else {
      assert (a + b)[1..] == a[1..] + b;
      ScanChecksConcat(Move(c, a[0]), a[1..], b);
    }
  }

  // A rule that matches every line and shows it whole.
  const EVERY_LINE := Rule("every-line", "Every line", "low", (text: string) => Some(text), false)

  lemma EveryLineReports(k: Checked)
    ensures Check([EVERY_LINE], k.text, k.file, k.line) == [Report(EVERY_LINE, k.text, k.file, k.line)]
  {
  }

  lemma ReportDetermines(k: Checked, l: Checked)
    requires Report(EVERY_LINE, k.text, k.file, k.line) == Report(EVERY_LINE, l.text, l.file, l.line)
    ensures k == l
  {
    var tail := " in `" + k.file + ":" + IntText(k.line) + "`";
    var x := k.text + " in `" + k.file + ":" + IntText(k.line) + "`";
    var y := l.text + " in `" + l.file + ":" + IntText(l.line) + "`";
    assert x == k.text + tail && y == l.text + tail;
    assert |k.text| == |l.text| && k.text == x[..|k.text|] && l.text == y[..|l.text|];
  }

  /** Equal findings for every line mean equal checks. */
  lemma {:induction false} FindingsDetermineChecks(a: seq<Checked>, b: seq<Checked>)
    requires CheckAll(a, [EVERY_LINE]) == CheckAll(b, [EVERY_LINE])
    ensures a == b
    decreases |a|
  {
    if a != [] { EveryLineReports(a[0]); }
    if b != [] { EveryLineReports(b[0]); }
    if a != [] && b != [] {
      var x, y := CheckAll(a, [EVERY_LINE]), CheckAll(b, [EVERY_LINE]);
      assert x[0] == Report(EVERY_LINE, a[0].text, a[0].file, a[0].line) && x[1..] == CheckAll(a[1..], [EVERY_LINE]);
      assert y[0] == Report(EVERY_LINE, b[0].text, b[0].file, b[0].line) && y[1..] == CheckAll(b[1..], [EVERY_LINE]);
      ReportDetermines(a[0], b[0]);
      FindingsDetermineChecks(a[1..], b[1..]);
      assert a == [a[0]] + a[1..] && b == [b[0]] + b[1..];
    }
  }

  // ----- Lines with what ought to be checked -----

  /** A printed line, with the check it calls for if it is an added one. */
  datatype Item = Item(raw: string, check: Option<Checked>)

  function Raws(items: seq<Item>): seq<string> {
    if items == [] then [] else [items[0].raw] + Raws(items[1..])
  }

  function Checks(items: seq<Item>): seq<Checked> {
    if items == [] then []
    else (if items[0].check.Some? then [items[0].check.value] else []) + Checks(items[1..])
  }

  predicate ItemOk(it: Item) {
    IsTextLine(it.raw)
    && match it.check
       case None => !IsAddition(Pieces(it.raw)[0])
       case Some(k) => it.raw != "" && it.raw[0] == '+' && k.text == Chomp(it.raw[1..])
  }

  predicate StartsWithPluses(text: string) {
    |text| >= 2 && text[0] == '+' && text[1] == '+'
  }

  /** The scanner sees an added text as it is: it holds no inner line break and does not begin with "++". */
  predicate SeenWhole(k: Checked) {
    OneLine(k.text) && !StartsWithPluses(k.text)
  }

  ghost predicate AllSeenWhole(checks: seq<Checked>) {
    forall k :: k in checks ==> SeenWhole(k)
  }

  // No piece after a line break inside a line looks like an addition.
  predicate NoAdditionAfter(raw: string) {
    forall p :: p in Pieces(raw)[1..] ==> !IsAddition(p)
  }

  ghost predicate NoForgedAdditions(items: seq<Item>) {
    forall it :: it in items && it.check.None? ==> NoAdditionAfter(it.raw)
  }

  /** Before each added line the cursor stands on the line above it. */
  predicate OnTrack(c: Cursor, items: seq<Item>)
    decreases |items|
  {
    items == []
    || ((items[0].check.Some? ==> c == Cursor(items[0].check.value.file, items[0].check.value.line - 1))
        && OnTrack(MoveAll(c, Pieces(items[0].raw)), items[1..]))
  }

  function Scanned(c: Cursor, items: seq<Item>): seq<Checked> {
    ScanChecks(c, AllPieces(Raws(items)))
  }

  lemma {:induction false} ScannedAreWhole(c: Cursor, lines: seq<string>)
    requires forall l :: l in lines ==> OneLine(l)
    ensures AllSeenWhole(ScanChecks(c, lines))
    decreases |lines|
  {
    if lines != [] {
      var raw := lines[0];
      assert OneLine(raw);
      ScannedAreWhole(Move(c, raw), lines[1..]);
      if IsAddition(raw) {
        assert SeenWhole(LineChecks(c, raw)[0]);
      }
    }
  }

  lemma {:induction false} AllPiecesAreLines(lines: seq<string>)
    ensures forall p :: p in AllPieces(lines) ==> OneLine(p)
    decreases |lines|
  {
    if lines != [] {
      AllPiecesAreLines(lines[1..]);
    }
  }

  lemma {:induction false} NoChecksIff(c: Cursor, lines: seq<string>)
    ensures ScanChecks(c, lines) == [] <==> forall p :: p in lines ==> !IsAddition(p)
    decreases |lines|
  {
    if lines != [] {
      NoChecksIff(Move(c, lines[0]), lines[1..]);
      assert lines == [lines[0]] + lines[1..];
    }
  }

  lemma ItemScanned(c: Cursor, items: seq<Item>)
    requires items != []
    ensures var pieces := Pieces(items[0].raw);
      Scanned(c, items) == ScanChecks(c, pieces) + Scanned(MoveAll(c, pieces), items[1..])
  {
    ScanChecksConcat(c, Pieces(items[0].raw), AllPieces(Raws(items[1..])));
    assert Raws(items)[1..] == Raws(items[1..]);
  }

  /** An added line that is seen whole is checked once, as the line below the cursor. */
  lemma WholeItem(c: Cursor, it: Item)
    requires ItemOk(it) && it.check.Some? && SeenWhole(it.check.value)
    ensures ScanChecks(c, Pieces(it.raw)) == [Checked(it.check.value.text, c.file, c.line + 1)]
    ensures MoveAll(c, Pieces(it.raw)) == c.(line := c.line + 1)
  {
    var text, rest := it.check.value.text, it.raw[1..];
    assert it.raw == "+" + rest;
    OnePiece(rest);
    PiecesAfter("+", rest);
    var pieces := Pieces(it.raw);
    assert pieces == ["+" + text];
    assert pieces[0][1..] == text && IsAddition(pieces[0]) && pieces[1..] == [];
    assert ScanChecks(c, pieces) == LineChecks(c, pieces[0]) + [];
  }

  lemma {:induction false} ScannedAtLeast(c: Cursor, items: seq<Item>)
    requires (forall it :: it in items ==> ItemOk(it)) && AllSeenWhole(Checks(items))
    ensures |Scanned(c, items)| >= |Checks(items)|
    decreases |items|
  {
    if items != [] {
      var it, rest := items[0], items[1..];
      assert it in items;
      ItemScanned(c, items);
      assert forall k :: k in Checks(rest) ==> k in Checks(items);
      ScannedAtLeast(MoveAll(c, Pieces(it.raw)), rest);
      if it.check.Some? {
        assert it.check.value in Checks(items);
        WholeItem(c, it);
      }
    }
  }

  // What exactness comes down to for one list of items.
  ghost predicate Exact(c: Cursor, items: seq<Item>) {
    AllSeenWhole(Checks(items)) && NoForgedAdditions(items) && OnTrack(c, items)
  }

  lemma ExactStep(c: Cursor, items: seq<Item>)
    requires items != []
    ensures var it, rest := items[0], items[1..];
      Exact(c, items) <==>
        (match it.check
         case None => NoAdditionAfter(it.raw)
         case Some(k) => SeenWhole(k) && c == Cursor(k.file, k.line - 1))
        && Exact(MoveAll(c, Pieces(it.raw)), rest)
  {
    var it, rest := items[0], items[1..];
    assert items == [it] + rest;
    assert Checks(items) == (if it.check.Some? then [it.check.value] else []) + Checks(rest);
  }

  /** The scanner makes exactly the checks that are called for if and only if the items are exact. */
  lemma {:induction false} ItemsExactIff(c: Cursor, items: seq<Item>)
    requires forall it :: it in items ==> ItemOk(it)
    ensures Scanned(c, items) == Checks(items) <==> Exact(c, items)
    decreases |items|
  {
    if items != [] {
      var it, rest := items[0], items[1..];
      var pieces := Pieces(it.raw);
      assert it in items && ItemOk(it);
      ItemScanned(c, items);
      ExactStep(c, items);
      ItemsExactIff(MoveAll(c, pieces), rest);
      if it.check.None? {
        PlainItemExactIff(c, items);
      } else {
        AddedItemExactIff(c, items);
      }
    }
  }

  lemma PlainItemExactIff(c: Cursor, items: seq<Item>)
    requires items != [] && items[0].check.None? && forall it :: it in items ==> ItemOk(it)
    requires Scanned(c, items) == ScanChecks(c, Pieces(items[0].raw)) + Scanned(MoveAll(c, Pieces(items[0].raw)), items[1..])
    ensures Scanned(c, items) == Checks(items) <==>
      NoAdditionAfter(items[0].raw) && Scanned(MoveAll(c, Pieces(items[0].raw)), items[1..]) == Checks(items[1..])
  {
    var it, rest := items[0], items[1..];
    var pieces := Pieces(it.raw);
    var here, later := ScanChecks(c, pieces), Scanned(MoveAll(c, pieces), rest);
    assert it in items;
    assert pieces == [pieces[0]] + pieces[1..];
    NoChecksIff(c, pieces);
    assert here == [] <==> NoAdditionAfter(it.raw);
    if here + later == Checks(rest) {
      AllPiecesAreLines(Raws(items));
      ScannedAreWhole(c, AllPieces(Raws(items)));
      assert AllSeenWhole(Checks(rest));
      ScannedAtLeast(MoveAll(c, pieces), rest);
      assert |here + later| == |here| + |later|;
    }
    assert here == [] ==> here + later == later;
  }

  lemma SameConsIff(k: Checked, a: seq<Checked>, l: Checked, b: seq<Checked>)
    ensures [k] + a == [l] + b <==> k == l && a == b
  {
    var x, y := [k] + a, [l] + b;
    assert x[0] == k && y[0] == l && x[1..] == a && y[1..] == b;
  }

  lemma AddedItemExactIff(c: Cursor, items: seq<Item>)
    requires items != [] && items[0].check.Some? && ItemOk(items[0])
    requires Scanned(c, items) == ScanChecks(c, Pieces(items[0].raw)) + Scanned(MoveAll(c, Pieces(items[0].raw)), items[1..])
    ensures var k := items[0].check.value;
      Scanned(c, items) == Checks(items) <==>
        SeenWhole(k) && c == Cursor(k.file, k.line - 1)
        && Scanned(MoveAll(c, Pieces(items[0].raw)), items[1..]) == Checks(items[1..])
  {
    var k, rest := items[0].check.value, items[1..];
    var later := Scanned(MoveAll(c, Pieces(items[0].raw)), rest);
    assert Checks(items) == [k] + Checks(rest);
    if Scanned(c, items) == Checks(items) {
      AllPiecesAreLines(Raws(items));
      ScannedAreWhole(c, AllPieces(Raws(items)));
      assert k in Checks(items);
    }
    if SeenWhole(k) {
      WholeItem(c, items[0]);
      var seen := Checked(k.text, c.file, c.line + 1);
      SameConsIff(seen, later, k, Checks(rest));
    }
  }
}
