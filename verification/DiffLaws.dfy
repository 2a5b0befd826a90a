/** What the secret scanner finds in a printed diff. */
module DiffLaws {
  import opened Wrappers
  import opened PyText
  import opened DiffFormat
  import opened DiffScan
  import opened DiffItems

  // ----- Well-formed diffs -----

  // Header lines such as `index`, `---` and `+++`: neither a new file, nor a hunk, nor an addition.
  predicate MetaLine(s: string) {
    OneLine(s) && !IsFileHeader(s) && !IsHunkHeader(s) && !IsAddition(s)
  }

  predicate LineOk(l: Line) {
    !l.NoNewline? ==> IsTextLine(l.text)
  }

  ghost predicate HunkOk(h: Hunk) {
    IsTextLine(h.heading) && forall l :: l in h.lines ==> LineOk(l)
  }

  ghost predicate FileOk(f: FileDiff) {
    (forall m :: m in f.meta ==> MetaLine(m)) && forall h :: h in f.hunks ==> HunkOk(h)
  }

  /** Any paths, and any texts and headings of one line each; a line may hold every character but a newline. */
  ghost predicate DiffOk(files: seq<FileDiff>) {
    forall f :: f in files ==> FileOk(f)
  }

  // ----- What ought to be found -----

  /** The checks the added lines of a hunk call for, the next line of the new file being number `n`. */
  function AddedIn(file: string, n: int, lines: seq<Line>): seq<Checked>
    decreases |lines|
  {
    if lines == [] then []
    else
      match lines[0]
      case Added(t) => [Checked(Chomp(t), file, n)] + AddedIn(file, n + 1, lines[1..])
      case Context(_) => AddedIn(file, n + 1, lines[1..])
      case _ => AddedIn(file, n, lines[1..])
  }

  function AddedInHunks(file: string, hunks: seq<Hunk>): seq<Checked> {
    if hunks == [] then []
    else AddedIn(file, hunks[0].newStart, hunks[0].lines) + AddedInHunks(file, hunks[1..])
  }

  /** Every added line of the diff, by its text, its file and its number in the new version. */
  function AddedLines(files: seq<FileDiff>): seq<Checked> {
    if files == [] then [] else AddedInHunks(files[0].newPath, files[0].hunks) + AddedLines(files[1..])
  }

  function Expected(files: seq<FileDiff>, rules: seq<Rule>): seq<Finding> {
    CheckAll(AddedLines(files), rules)
  }

  // ----- The printed lines with their checks -----

  function LineItems(file: string, n: int, lines: seq<Line>): seq<Item>
    decreases |lines|
  {
    if lines == [] then []
    else
      var raw := PrintLine(lines[0]);
      match lines[0]
      case Added(t) => [Item(raw, Some(Checked(Chomp(t), file, n)))] + LineItems(file, n + 1, lines[1..])
      case Context(_) => [Item(raw, None)] + LineItems(file, n + 1, lines[1..])
      case _ => [Item(raw, None)] + LineItems(file, n, lines[1..])
  }

  function HunkItems(file: string, hunks: seq<Hunk>): seq<Item> {
    if hunks == [] then []
    else
      [Item(PrintHunkHeader(hunks[0]), None)]
      + (LineItems(file, hunks[0].newStart, hunks[0].lines) + HunkItems(file, hunks[1..]))
  }

  function MetaItems(meta: seq<string>): seq<Item> {
    if meta == [] then [] else [Item(meta[0], None)] + MetaItems(meta[1..])
  }

  function FileItems(f: FileDiff): seq<Item> {
    [Item(GitHeader(f.oldPath, f.newPath), None)] + (MetaItems(f.meta) + HunkItems(f.newPath, f.hunks))
  }

  function ItemsOf(files: seq<FileDiff>): seq<Item> {
    if files == [] then [] else FileItems(files[0]) + ItemsOf(files[1..])
  }

  lemma OneItem(it: Item, items: seq<Item>)
    ensures Raws([it] + items) == [it.raw] + Raws(items)
    ensures Checks([it] + items) == (if it.check.Some? then [it.check.value] else []) + Checks(items)
  {
    assert ([it] + items)[1..] == items;
  }

  lemma {:induction false} ItemsConcat(a: seq<Item>, b: seq<Item>)
    ensures Raws(a + b) == Raws(a) + Raws(b) && Checks(a + b) == Checks(a) + Checks(b)
    decreases |a|
  {
    if a == [] {
      assert a + b == b;
    } else {
      hide Raws, Checks;
      ItemsConcat(a[1..], b);
      assert a == [a[0]] + a[1..] && a + b == [a[0]] + (a[1..] + b);
      OneItem(a[0], a[1..]);
      OneItem(a[0], a[1..] + b);
    }
  }

  lemma HunkRangeIsOneLine(h: Hunk)
    ensures OneLine(HunkRange(h))
  {
    var a, b := Decimal(h.oldStart), Decimal(h.newStart);
    var m, n := PrintCount(|OldSide(h.lines)|), PrintCount(|NewSide(h.lines)|);
    assert OneLine(m) && OneLine(n);
    OneLineConcat("@@ -", a);
    OneLineConcat("@@ -" + a, m);
    OneLineConcat("@@ -" + a + m, " ");
    OneLineConcat("@@ -" + a + m + " ", "+");
    OneLineConcat("@@ -" + a + m + " " + "+", b);
    OneLineConcat(n, " @@");
    OneLineConcat("@@ -" + a + m + " " + "+" + b, n + " @@");
  }

  // A line that calls for no check, whose first character is not a plus sign.
  lemma PlainItemOk(raw: string)
    requires IsTextLine(raw) && raw != "" && raw[0] != '+' && !IsLineBreak(raw[0])
    ensures ItemOk(Item(raw, None)) && Pieces(raw)[0] != "" && Pieces(raw)[0][0] == raw[0]
  {
    assert raw == [raw[0]] + raw[1..];
    PiecesAfter([raw[0]], raw[1..]);
  }

  lemma LineItemOk(file: string, n: int, l: Line)
    requires LineOk(l)
    ensures ItemOk(LineItems(file, n, [l])[0])
  {
    var raw := PrintLine(l);
    assert LineItems(file, n, [l])[0].raw == raw;
    if l.Added? {
      assert raw[1..] == l.text;
    } else {
      assert raw[0] == ' ' || raw[0] == '-' || raw[0] == '\\';
      assert IsTextLine("\\ No newline at end of file");
      PlainItemOk(raw);
    }
  }

  lemma {:induction false} LineItemsAreRight(file: string, n: int, lines: seq<Line>)
    requires forall l :: l in lines ==> LineOk(l)
    ensures Raws(LineItems(file, n, lines)) == PrintLines(lines)
    ensures Checks(LineItems(file, n, lines)) == AddedIn(file, n, lines)
    ensures forall it :: it in LineItems(file, n, lines) ==> ItemOk(it)
    decreases |lines|
  {
    if lines != [] {
      var n' := if lines[0].Added? || lines[0].Context? then n + 1 else n;
      var it := LineItems(file, n, [lines[0]])[0];
      assert lines[0] in lines;
      LineItemOk(file, n, lines[0]);
      LineItemsAreRight(file, n', lines[1..]);
      OneItem(it, LineItems(file, n', lines[1..]));
      assert LineItems(file, n, lines) == [it] + LineItems(file, n', lines[1..]);
    }
  }

  lemma HunkHeaderItemOk(h: Hunk)
    requires HunkOk(h)
    ensures ItemOk(Item(PrintHunkHeader(h), None))
  {
    HunkRangeIsOneLine(h);
    assert PrintHunkHeader(h)[0] == HunkRange(h)[0] == '@';
    PlainItemOk(PrintHunkHeader(h));
  }

  lemma {:induction false} HunkItemsAreRight(file: string, hunks: seq<Hunk>)
    requires forall h :: h in hunks ==> HunkOk(h)
    ensures Raws(HunkItems(file, hunks)) == PrintHunks(hunks)
    ensures Checks(HunkItems(file, hunks)) == AddedInHunks(file, hunks)
    ensures forall it :: it in HunkItems(file, hunks) ==> ItemOk(it)
    decreases |hunks|
  {
    if hunks != [] {
      var h := hunks[0];
      assert h in hunks && HunkOk(h);
      var header := PrintHunkHeader(h);
      HunkHeaderItemOk(h);
      hide PrintHunkHeader, ItemOk, Pieces;
      var body, rest := LineItems(file, h.newStart, h.lines), HunkItems(file, hunks[1..]);
      LineItemsAreRight(file, h.newStart, h.lines);
      HunkItemsAreRight(file, hunks[1..]);
      ItemsConcat(body, rest);
      OneItem(Item(header, None), body + rest);
    }
  }

  lemma {:induction false} MetaItemsAreRight(meta: seq<string>)
    requires forall m :: m in meta ==> MetaLine(m)
    ensures Raws(MetaItems(meta)) == meta && Checks(MetaItems(meta)) == []
    ensures forall it :: it in MetaItems(meta) ==> ItemOk(it)
    decreases |meta|
  {
    if meta != [] {
      var m := meta[0];
      assert m in meta && MetaLine(m);
      OneLineIsOnePiece(m);
      MetaItemsAreRight(meta[1..]);
      OneItem(Item(m, None), MetaItems(meta[1..]));
    }
  }

  lemma {:induction false} ItemsAreRight(files: seq<FileDiff>)
    requires DiffOk(files)
    ensures Raws(ItemsOf(files)) == PrintFiles(files)
    ensures Checks(ItemsOf(files)) == AddedLines(files)
    ensures forall it :: it in ItemsOf(files) ==> ItemOk(it)
    decreases |files|
  {
    if files != [] {
      var f := files[0];
      assert f in files && FileOk(f);
      FileItemsAreRight(f);
      ItemsAreRight(files[1..]);
      ItemsConcat(FileItems(f), ItemsOf(files[1..]));
    }
  }

  lemma FileItemsAreRight(f: FileDiff)
    requires FileOk(f)
    ensures Raws(FileItems(f)) == PrintFile(f)
    ensures Checks(FileItems(f)) == AddedInHunks(f.newPath, f.hunks)
    ensures forall it :: it in FileItems(f) ==> ItemOk(it)
  {
    var header := GitHeader(f.oldPath, f.newPath);
    HeaderIsOneLine(f.oldPath, f.newPath);
    OneLineIsOnePiece(header);
    assert header[0] == COMMAND[0] == 'd';
    MetaItemsAreRight(f.meta);
    HunkItemsAreRight(f.newPath, f.hunks);
    ItemsConcat(MetaItems(f.meta), HunkItems(f.newPath, f.hunks));
    OneItem(Item(header, None), MetaItems(f.meta) + HunkItems(f.newPath, f.hunks));
  }

  lemma {:induction false} RawsAreText(items: seq<Item>)
    requires forall it :: it in items ==> ItemOk(it)
    ensures forall r :: r in Raws(items) ==> IsTextLine(r)
    decreases |items|
  {
    if items != [] {
      assert items[0] in items;
      RawsAreText(items[1..]);
    }
  }

  /** Scanning a printed diff is running all rules over the checks the scanner makes. */
  lemma ScanOfPrinted(files: seq<FileDiff>, rules: seq<Rule>)
    requires DiffOk(files)
    ensures Scan(Print(files), rules) == CheckAll(Scanned(START, ItemsOf(files)), rules)
  {
    ItemsAreRight(files);
    RawsAreText(ItemsOf(files));
    SplitUnlines(PrintFiles(files));
    ScanIsCheckAll(START, AllPieces(PrintFiles(files)), rules);
  }

  // ----- When the scan is exact -----

  // For whatever rules, the scanner reports exactly the matches in the added lines, where they stand.
  ghost predicate ScanIsExact(files: seq<FileDiff>) {
    forall rules: seq<Rule> :: Scan(Print(files), rules) == Expected(files, rules)
  }

  /**
   For every well-formed diff the scan is exact if and only if the scanner sees every added text whole,
   no other line holds a line break with an addition behind it, and the cursor stands right at each
   added line.
   */
  lemma ScanIsExactIff(files: seq<FileDiff>)
    requires DiffOk(files)
    ensures ScanIsExact(files) <==>
      AllSeenWhole(AddedLines(files)) && NoForgedAdditions(ItemsOf(files)) && OnTrack(START, ItemsOf(files))
  {
    ItemsAreRight(files);
    ItemsExactIff(START, ItemsOf(files));
    if ScanIsExact(files) {
      ScanOfPrinted(files, [EVERY_LINE]);
      assert Scan(Print(files), [EVERY_LINE]) == Expected(files, [EVERY_LINE]);
      FindingsDetermineChecks(Scanned(START, ItemsOf(files)), AddedLines(files));
    }
    if Exact(START, ItemsOf(files)) {
      forall rules: seq<Rule> ensures Scan(Print(files), rules) == Expected(files, rules) {
        ScanOfPrinted(files, rules);
      }
    }
  }

  // ----- Where the cursor stands -----

  function CountInLines(lines: seq<Line>): nat {
    if lines == [] then 0 else (if lines[0].Added? then 1 else 0) + CountInLines(lines[1..])
  }

  function CountInHunks(hunks: seq<Hunk>): nat {
    if hunks == [] then 0 else CountInLines(hunks[0].lines) + CountInHunks(hunks[1..])
  }

  /** How many lines the diff adds. */
  function CountAdded(files: seq<FileDiff>): nat {
    if files == [] then 0 else CountInHunks(files[0].hunks) + CountAdded(files[1..])
  }

  // No piece after a line break looks like the header of a file or a hunk.
  predicate NoHeaderAfter(raw: string) {
    forall p :: p in Pieces(raw)[1..] ==> !IsFileHeader(p) && !IsHunkHeader(p)
  }

  ghost predicate NoForgedHeaders(items: seq<Item>) {
    forall it :: it in items ==> NoHeaderAfter(it.raw)
  }

  /** Some piece after a line break begins with a space, and so counts as a line of the file. */
  predicate SpaceAfter(raw: string) {
    exists p :: p in Pieces(raw)[1..] && IsContext(p)
  }

  // No added line comes after such a piece; `stray` tells whether there was one already.
  predicate AddedBeforeSpaces(stray: bool, lines: seq<Line>)
    decreases |lines|
  {
    lines == []
    || ((lines[0].Added? ==> !stray)
        && AddedBeforeSpaces(stray || SpaceAfter(PrintLine(lines[0])), lines[1..]))
  }

  ghost predicate NoStraySpaces(files: seq<FileDiff>) {
    forall f, h :: f in files && h in f.hunks ==> AddedBeforeSpaces(SpaceAfter(PrintHunkHeader(h)), h.lines)
  }

  function Spaces(pieces: seq<string>): nat {
    if pieces == [] then 0 else (if IsContext(pieces[0]) then 1 else 0) + Spaces(pieces[1..])
  }

  // Pieces that do no more than move the cursor down.
  predicate Harmless(pieces: seq<string>) {
    forall p :: p in pieces ==> !IsAddition(p) && !IsFileHeader(p) && !IsHunkHeader(p)
  }

  lemma {:induction false} HarmlessMoves(c: Cursor, pieces: seq<string>)
    requires Harmless(pieces)
    ensures MoveAll(c, pieces) == c.(line := c.line + Spaces(pieces))
    ensures Spaces(pieces) > 0 <==> exists p :: p in pieces && IsContext(p)
    decreases |pieces|
  {
    if pieces != [] {
      assert pieces == [pieces[0]] + pieces[1..];
      HarmlessMoves(Move(c, pieces[0]), pieces[1..]);
    }
  }

  function MoveItems(c: Cursor, items: seq<Item>): Cursor
    decreases |items|
  {
    if items == [] then c else MoveItems(MoveAll(c, Pieces(items[0].raw)), items[1..])
  }

  lemma {:induction false} OnTrackConcat(c: Cursor, a: seq<Item>, b: seq<Item>)
    ensures OnTrack(c, a + b) <==> OnTrack(c, a) && OnTrack(MoveItems(c, a), b)
    ensures MoveItems(c, a + b) == MoveItems(MoveItems(c, a), b)
    decreases |a|
  {
    if a == [] {
      assert a + b == b;
    } else {
      assert (a + b)[1..] == a[1..] + b && (a + b)[0] == a[0];
      OnTrackConcat(MoveAll(c, Pieces(a[0].raw)), a[1..], b);
    }
  }

  // Items that are right but, perhaps, for the cursor.
  ghost predicate Sound(items: seq<Item>) {
    && (forall it :: it in items ==> ItemOk(it))
    && AllSeenWhole(Checks(items)) && NoForgedAdditions(items) && NoForgedHeaders(items)
  }

  lemma SoundParts(a: seq<Item>, b: seq<Item>)
    requires Sound(a + b)
    ensures Sound(a) && Sound(b)
  {
    ItemsConcat(a, b);
    assert forall it :: it in a || it in b ==> it in a + b;
    assert forall k :: k in Checks(a) || k in Checks(b) ==> k in Checks(a + b);
  }

  // How a line without a check moves the cursor: by its first piece, and by the spaces after it.
  lemma PlainItemMoves(c: Cursor, it: Item) returns (d: nat)
    requires Sound([it]) && it.check.None?
    ensures var c' := Move(c, Pieces(it.raw)[0]); MoveAll(c, Pieces(it.raw)) == c'.(line := c'.line + d)
    ensures d > 0 <==> SpaceAfter(it.raw)
  {
    var pieces := Pieces(it.raw);
    assert it in [it] && pieces == [pieces[0]] + pieces[1..];
    assert NoAdditionAfter(it.raw) && NoHeaderAfter(it.raw);
    HarmlessMoves(Move(c, pieces[0]), pieces[1..]);
    d := Spaces(pieces[1..]);
    assert MoveAll(c, pieces) == MoveAll(Move(c, pieces[0]), pieces[1..]);
  }

  lemma SoundCheck(it: Item)
    requires Sound([it]) && it.check.Some?
    ensures ItemOk(it) && SeenWhole(it.check.value)
  {
    assert it in [it] && [it][1..] == [];
    assert Checks([it]) == [it.check.value] + Checks([]);
    assert it.check.value in Checks([it]);
  }

  lemma FirstPieceOfLine(l: Line)
    requires LineOk(l) && !l.Added?
    ensures var p := Pieces(PrintLine(l))[0]; p != "" && p[0] == PrintLine(l)[0]
  {
    assert IsTextLine("\\ No newline at end of file");
    PlainItemOk(PrintLine(l));
  }

  /**
   In a hunk the cursor is right at every added line if and only if it is in the right file, should there
   be an added line, and none comes after a stray space.
   */
  lemma {:induction false} HunkOnTrackIff(c: Cursor, file: string, n: int, lines: seq<Line>)
    requires (forall l :: l in lines ==> LineOk(l)) && Sound(LineItems(file, n, lines)) && c.line >= n - 1
    ensures OnTrack(c, LineItems(file, n, lines))
       <==> (CountInLines(lines) > 0 ==> c.file == file) && AddedBeforeSpaces(c.line > n - 1, lines)
    ensures MoveItems(c, LineItems(file, n, lines)).file == c.file
    decreases |lines|
  {
    if lines != [] {
      var l, rest := lines[0], lines[1..];
      assert l in lines && forall m :: m in rest ==> m in lines;
      var n' := if l.Added? || l.Context? then n + 1 else n;
      var it := LineItems(file, n, [l])[0];
      var items := LineItems(file, n', rest);
      assert LineItems(file, n, lines) == [it] + items;
      SoundParts([it], items);
      var c' := MoveAll(c, Pieces(it.raw));
      assert it.raw == PrintLine(l);
      if l.Added? {
        SoundCheck(it);
        WholeItem(c, it);
        AddedHasNoSpaceAfter(l, it);
      } else {
        FirstPieceOfLine(l);
        var d := PlainItemMoves(c, it);
        var first := Move(c, Pieces(it.raw)[0]);
        assert first == if l.Context? then c.(line := c.line + 1) else c;
      }
      HunkOnTrackIff(c', file, n', rest);
      assert ([it] + items)[1..] == items;
    }
  }

  lemma AddedHasNoSpaceAfter(l: Line, it: Item)
    requires l.Added? && it.raw == PrintLine(l) && it.check.Some? && ItemOk(it) && SeenWhole(it.check.value)
    ensures !SpaceAfter(it.raw)
  {
    assert it.raw[1..] == l.text;
    OnePiece(l.text);
    PiecesAfter("+", l.text);
  }

  lemma HunkHeaderNumber(h: Hunk)
    ensures PlusNumber(PrintHunkHeader(h)) == Some(h.newStart)
    ensures IsHunkHeader(PrintHunkHeader(h))
  {
    var oldCount, newCount := PrintCount(|OldSide(h.lines)|), PrintCount(|NewSide(h.lines)|);
    var before := "@@ -" + Decimal(h.oldStart) + oldCount + " ";
    var rest := newCount + " @@" + h.heading;
    assert '+' !in oldCount && '+' !in Decimal(h.oldStart);
    assert '+' !in before;
    assert !IsDecimal(rest[0]);
    PlusNumberFinds(before, h.newStart, rest);
    assert PrintHunkHeader(h) == before + "+" + Decimal(h.newStart) + rest;
    assert PrintHunkHeader(h)[0] == '@' && PrintHunkHeader(h)[1] == '@';
  }

  // The first piece of a hunk header is the header of a hunk with a shorter heading.
  lemma HunkHeaderMoves(c: Cursor, h: Hunk)
    ensures Move(c, Pieces(PrintHunkHeader(h))[0]) == c.(line := h.newStart - 1)
  {
    HunkRangeIsOneLine(h);
    PiecesAfter(HunkRange(h), h.heading);
    var short := h.(heading := Pieces(h.heading)[0]);
    assert Pieces(PrintHunkHeader(h))[0] == PrintHunkHeader(short);
    HunkHeaderNumber(short);
  }

  lemma {:induction false} HunksOnTrackIff(c: Cursor, file: string, hunks: seq<Hunk>)
    requires (forall h :: h in hunks ==> HunkOk(h)) && Sound(HunkItems(file, hunks))
    ensures OnTrack(c, HunkItems(file, hunks))
       <==> (CountInHunks(hunks) > 0 ==> c.file == file)
            && forall h :: h in hunks ==> AddedBeforeSpaces(SpaceAfter(PrintHunkHeader(h)), h.lines)
    ensures MoveItems(c, HunkItems(file, hunks)).file == c.file
    decreases |hunks|
  {
    if hunks != [] {
      var h := hunks[0];
      assert hunks == [h] + hunks[1..] && HunkOk(h);
      var header := Item(PrintHunkHeader(h), None);
      var body, rest := LineItems(file, h.newStart, h.lines), HunkItems(file, hunks[1..]);
      SoundParts([header], body + rest);
      SoundParts(body, rest);
      var d := PlainItemMoves(c, header);
      HunkHeaderMoves(c, h);
      var c1 := MoveAll(c, Pieces(header.raw));
      HunkOnTrackIff(c1, file, h.newStart, h.lines);
      var c2 := MoveItems(c1, body);
      HunksOnTrackIff(c2, file, hunks[1..]);
      OnTrackConcat(c1, body, rest);
      assert ([header] + (body + rest))[1..] == body + rest;
    }
  }

  lemma {:induction false} MetaKeepsFile(c: Cursor, meta: seq<string>)
    requires forall m :: m in meta ==> MetaLine(m)
    ensures OnTrack(c, MetaItems(meta)) && MoveItems(c, MetaItems(meta)).file == c.file
    decreases |meta|
  {
    if meta != [] {
      var m := meta[0];
      assert m in meta && MetaLine(m);
      OneLineIsOnePiece(m);
      assert MoveAll(c, [m]) == Move(c, m) by { assert [m][1..] == []; }
      assert MetaItems(meta)[1..] == MetaItems(meta[1..]);
      MetaKeepsFile(Move(c, m), meta[1..]);
    }
  }

  // ----- Which path the scanner reads -----

  /**
   The path read from a header is right: the new path needs no quotes and holds no separator; or else
   the old path holds separators, and the part between the first two happens to be the new path.
   */
  predicate ReadsPath(oldPath: string, newPath: string) {
    var parts := OldParts(oldPath);
    if |parts| == 1 then !NeedsQuoting(newPath) && !Contains(newPath, " b/")
    else parts[1] == newPath && (|parts| > 2 || !NeedsQuoting(newPath))
  }

  lemma WhatIsRead(c: Cursor, oldPath: string, newPath: string)
    ensures var parts := Fused(OldParts(oldPath), NewParts(newPath));
      Move(c, GitHeader(oldPath, newPath)) == Cursor(if |parts| > 1 then parts[1] else c.file, 0)
  {
    hide Quoted, Split;
    HeaderParts(oldPath, newPath);
    var raw := GitHeader(oldPath, newPath);
    assert raw[..10] == COMMAND[..10] == "diff --git" && raw[0] == 'd';
  }

  ghost predicate AlwaysReads(oldPath: string, newPath: string) {
    forall c :: Move(c, GitHeader(oldPath, newPath)).file == newPath
  }

  lemma NoPartHoldsASeparator(oldPath: string, newPath: string)
    ensures var parts := Fused(OldParts(oldPath), NewParts(newPath)); |parts| > 1 ==> !Contains(parts[1], " b/")
  {
    HeaderParts(oldPath, newPath);
    PartsHoldNoSeparator(GitHeader(oldPath, newPath), " b/");
    var parts := Fused(OldParts(oldPath), NewParts(newPath));
    assert |parts| > 1 ==> Fronted(COMMAND, parts)[1] == parts[1];
  }

  /** For any old and new path, and whatever file came before: exactly when the new path is read from the header. */
  lemma PathReadRightIff(oldPath: string, newPath: string)
    ensures AlwaysReads(oldPath, newPath) <==> ReadsPath(oldPath, newPath)
  {
    hide OldParts, NewParts, Quoted, Split, GitHeader;
    var left, right := OldParts(oldPath), NewParts(newPath);
    var parts := Fused(left, right);
    var other := Cursor(newPath + "x", 0);
    forall c ensures Move(c, GitHeader(oldPath, newPath)) == Cursor(if |parts| > 1 then parts[1] else c.file, 0) {
      WhatIsRead(c, oldPath, newPath);
    }
    assert AlwaysReads(oldPath, newPath) ==> Move(other, GitHeader(oldPath, newPath)).file == newPath;
    assert AlwaysReads(oldPath, newPath) <==> |parts| > 1 && parts[1] == newPath;
    NoPartHoldsASeparator(oldPath, newPath);
    if NeedsQuoting(newPath) {
      QuotedNewParts(newPath);
      assert |left| == 2 ==> parts[1] == left[1] + right[0];
    } else {
      PlainNewParts(newPath);
      FirstPart(newPath);
      assert |left| == 2 ==> parts[1] == left[1] + "";
    }
  }

  lemma FirstPart(s: string)
    ensures Split(s, " b/")[0] == s <==> !Contains(s, " b/")
  {
    PartsHoldNoSeparator(s, " b/");
    if !Contains(s, " b/") {
      SplitWithout(s, " b/");
    }
  }

  /** For a file that kept its name: exactly when the path holds no separator and needs no quotes. */
  lemma OwnPathReadRightIff(path: string)
    ensures AlwaysReads(path, path) <==> !Contains(path, " b/") && !NeedsQuoting(path)
  {
    PathReadRightIff(path, path);
    if Contains(path, " b/") {
      PartsHoldNoSeparator(Quoted("a/" + path), " b/");
    } else {
      OldPartsOfOne(path);
    }
  }

  /** A quoted path is not read at all: what is found in its file is filed under the file before. */
  lemma QuotedPathIsMissed(c: Cursor, path: string)
    requires NeedsQuoting(path) && !Contains(path, " b/")
    ensures Move(c, GitHeader(path, path)).file == c.file
  {
    OldPartsOfOne(path);
    QuotedNewParts(path);
    WhatIsRead(c, path, path);
  }

  // ----- Exactness in terms of the diff -----

  /** The file the scanner is in after the header of `f`, if it was in `file` before. */
  function ReadFrom(file: string, f: FileDiff): string {
    var parts := Fused(OldParts(f.oldPath), NewParts(f.newPath));
    if |parts| > 1 then parts[1] else file
  }

  /** The scanner is in the right file wherever there is an added line. */
  predicate PathsReadInTurn(file: string, files: seq<FileDiff>)
    decreases |files|
  {
    files == []
    || (var read := ReadFrom(file, files[0]);
        (CountInHunks(files[0].hunks) > 0 ==> read == files[0].newPath) && PathsReadInTurn(read, files[1..]))
  }

  /** It is if every path can be read from its own header. */
  lemma {:induction false} ReadablePathsAreRead(file: string, files: seq<FileDiff>)
    requires forall f :: f in files ==> ReadsPath(f.oldPath, f.newPath)
    ensures PathsReadInTurn(file, files)
    decreases |files|
  {
    if |files| > 0 {
      var f := files[0];
      assert f in files;
      PathReadRightIff(f.oldPath, f.newPath);
      WhatIsRead(Cursor(file, 0), f.oldPath, f.newPath);
      assert ReadFrom(file, f) == f.newPath;
      ReadablePathsAreRead(f.newPath, files[1..]);
    }
  }

  lemma HeaderMoves(c: Cursor, f: FileDiff)
    ensures MoveAll(c, Pieces(GitHeader(f.oldPath, f.newPath))) == Cursor(ReadFrom(c.file, f), 0)
    ensures ScanChecks(c, Pieces(GitHeader(f.oldPath, f.newPath))) == []
  {
    var raw := GitHeader(f.oldPath, f.newPath);
    HeaderIsOneLine(f.oldPath, f.newPath);
    OneLineIsOnePiece(raw);
    WhatIsRead(c, f.oldPath, f.newPath);
    assert raw[0] == COMMAND[0];
    var line: seq<string> := [raw];
    assert line[1..] == [];
  }

  lemma FileOnTrackIff(c: Cursor, f: FileDiff)
    requires FileOk(f) && Sound(FileItems(f))
    ensures OnTrack(c, FileItems(f))
       <==> (CountInHunks(f.hunks) > 0 ==> ReadFrom(c.file, f) == f.newPath)
            && forall h :: h in f.hunks ==> AddedBeforeSpaces(SpaceAfter(PrintHunkHeader(h)), h.lines)
    ensures MoveItems(c, FileItems(f)).file == ReadFrom(c.file, f)
  {
    var header := Item(GitHeader(f.oldPath, f.newPath), None);
    var meta, hunks := MetaItems(f.meta), HunkItems(f.newPath, f.hunks);
    SoundParts([header], meta + hunks);
    SoundParts(meta, hunks);
    HeaderMoves(c, f);
    hide GitHeader, ReadFrom;
    var c1 := Cursor(ReadFrom(c.file, f), 0);
    MetaKeepsFile(c1, f.meta);
    HunksOnTrackIff(MoveItems(c1, meta), f.newPath, f.hunks);
    OnTrackConcat(c1, meta, hunks);
    assert ([header] + (meta + hunks))[1..] == meta + hunks;
  }

  lemma {:induction false} OnTrackIff(c: Cursor, files: seq<FileDiff>)
    requires DiffOk(files) && Sound(ItemsOf(files))
    ensures OnTrack(c, ItemsOf(files)) <==> NoStraySpaces(files) && PathsReadInTurn(c.file, files)
    decreases |files|
  {
    if files != [] {
      var f, rest := files[0], files[1..];
      assert files == [f] + rest && FileOk(f);
      SoundParts(FileItems(f), ItemsOf(rest));
      FileOnTrackIff(c, f);
      OnTrackIff(MoveItems(c, FileItems(f)), rest);
      OnTrackConcat(c, FileItems(f), ItemsOf(rest));
    }
  }

  /**
   For a diff whose lines forge no header behind a line break: the scan is exact if and only if no added
   text begins with "++" or holds an inner line break, no other line holds a break with an addition behind
   it, no added line of a hunk comes after a break with a space behind it, and the paths of the files
   with added lines are read right.
   */
  lemma ScanIsExactIffTidy(files: seq<FileDiff>)
    requires DiffOk(files) && NoForgedHeaders(ItemsOf(files))
    ensures ScanIsExact(files) <==>
      AllSeenWhole(AddedLines(files)) && NoForgedAdditions(ItemsOf(files)) && NoStraySpaces(files)
      && PathsReadInTurn(START.file, files)
  {
    ScanIsExactIff(files);
    ItemsAreRight(files);
    if AllSeenWhole(AddedLines(files)) && NoForgedAdditions(ItemsOf(files)) {
      OnTrackIff(START, files);
    }
  }

  // ----- Diffs without inner line breaks -----

  /** No text or heading holds a line break, except that it may end in a carriage return. */
  ghost predicate NoInnerBreaks(files: seq<FileDiff>) {
    forall f, h :: f in files && h in f.hunks ==> HunkHasNoBreaks(h)
  }

  ghost predicate HunkHasNoBreaks(h: Hunk) {
    OneLine(Chomp(h.heading)) && forall l :: l in h.lines && !l.NoNewline? ==> OneLine(Chomp(l.text))
  }

  // Nothing follows a line break in a line.
  predicate InOnePiece(raw: string) {
    Pieces(raw)[1..] == []
  }

  lemma LineInOnePiece(l: Line)
    requires !l.NoNewline? ==> OneLine(Chomp(l.text))
    ensures InOnePiece(PrintLine(l)) && !SpaceAfter(PrintLine(l))
  {
    match l
    case Context(t) => OnePiece(t); PiecesAfter(" ", t);
    case Added(t) => OnePiece(t); PiecesAfter("+", t);
    case Removed(t) => OnePiece(t); PiecesAfter("-", t);
    case NoNewline => OneLineIsOnePiece(PrintLine(l));
  }

  lemma {:induction false} LinesInOnePiece(file: string, n: int, lines: seq<Line>)
    requires forall l :: l in lines && !l.NoNewline? ==> OneLine(Chomp(l.text))
    ensures forall it :: it in LineItems(file, n, lines) ==> InOnePiece(it.raw)
    ensures AddedBeforeSpaces(false, lines)
    decreases |lines|
  {
    if lines != [] {
      assert lines[0] in lines;
      LineInOnePiece(lines[0]);
      LinesInOnePiece(file, if lines[0].Added? || lines[0].Context? then n + 1 else n, lines[1..]);
    }
  }

  lemma HeaderInOnePiece(h: Hunk)
    requires OneLine(Chomp(h.heading))
    ensures InOnePiece(PrintHunkHeader(h)) && !SpaceAfter(PrintHunkHeader(h))
  {
    HunkRangeIsOneLine(h);
    OnePiece(h.heading);
    PiecesAfter(HunkRange(h), h.heading);
  }

  lemma {:induction false} HunksInOnePiece(file: string, hunks: seq<Hunk>)
    requires forall h :: h in hunks ==> HunkHasNoBreaks(h)
    ensures forall it :: it in HunkItems(file, hunks) ==> InOnePiece(it.raw)
    ensures forall h :: h in hunks ==> AddedBeforeSpaces(SpaceAfter(PrintHunkHeader(h)), h.lines)
    decreases |hunks|
  {
    if hunks != [] {
      var h := hunks[0];
      assert hunks == [h] + hunks[1..] && HunkHasNoBreaks(h);
      HeaderInOnePiece(h);
      LinesInOnePiece(file, h.newStart, h.lines);
      HunksInOnePiece(file, hunks[1..]);
    }
  }

  lemma {:induction false} MetaInOnePiece(meta: seq<string>)
    requires forall m :: m in meta ==> MetaLine(m)
    ensures forall it :: it in MetaItems(meta) ==> InOnePiece(it.raw)
    decreases |meta|
  {
    if meta != [] {
      assert meta[0] in meta && MetaLine(meta[0]);
      OneLineIsOnePiece(meta[0]);
      MetaInOnePiece(meta[1..]);
    }
  }

  lemma {:induction false} FilesInOnePiece(files: seq<FileDiff>)
    requires DiffOk(files) && NoInnerBreaks(files)
    ensures forall it :: it in ItemsOf(files) ==> InOnePiece(it.raw)
    ensures NoStraySpaces(files)
    decreases |files|
  {
    if files != [] {
      var f := files[0];
      assert files == [f] + files[1..] && FileOk(f);
      HeaderIsOneLine(f.oldPath, f.newPath);
      OneLineIsOnePiece(GitHeader(f.oldPath, f.newPath));
      MetaInOnePiece(f.meta);
      HunksInOnePiece(f.newPath, f.hunks);
      FilesInOnePiece(files[1..]);
    }
  }

  /**
   For files whose lines end in LF or CRLF and hold no other break: the scan is exact if and only if no
   added text begins with "++" and the paths of the files with added lines are read right.
   */
  lemma OrdinaryScanIsExactIff(files: seq<FileDiff>)
    requires DiffOk(files) && NoInnerBreaks(files)
    ensures ScanIsExact(files) <==>
      (forall k :: k in AddedLines(files) ==> !StartsWithPluses(k.text)) && PathsReadInTurn(START.file, files)
  {
    FilesInOnePiece(files);
    forall it | it in ItemsOf(files) ensures NoHeaderAfter(it.raw) && NoAdditionAfter(it.raw) {
      assert InOnePiece(it.raw);
    }
    ScanIsExactIffTidy(files);
    forall k | k in AddedLines(files) ensures OneLine(k.text) {
      AddedTextsHaveNoBreaks(files, k);
    }
  }

  // ----- What an ordinary scan finds -----

  predicate Overlooked(l: Line) {
    l.Added? && StartsWithPluses(Chomp(l.text))
  }

  // What the scanner checks of a line it takes for number `n` of the file, and the number it gives the next.
  function Reported(file: string, n: int, l: Line): seq<Checked> {
    if l.Added? && !Overlooked(l) then [Checked(Chomp(l.text), file, n)] else []
  }

  function NextNumber(n: int, l: Line): int {
    if l.Context? || (l.Added? && !Overlooked(l)) then n + 1 else n
  }

  /** The checks made in a hunk whose first line in the new file the scanner takes for number `n`. */
  function ReportedIn(file: string, n: int, lines: seq<Line>): seq<Checked>
    decreases |lines|
  {
    if lines == [] then []
    else Reported(file, n, lines[0]) + ReportedIn(file, NextNumber(n, lines[0]), lines[1..])
  }

  function ReportedInHunks(file: string, hunks: seq<Hunk>): seq<Checked> {
    if hunks == [] then []
    else ReportedIn(file, hunks[0].newStart, hunks[0].lines) + ReportedInHunks(file, hunks[1..])
  }

  function ReportedLines(file: string, files: seq<FileDiff>): seq<Checked>
    decreases |files|
  {
    if files == [] then []
    else
      var read := ReadFrom(file, files[0]);
      ReportedInHunks(read, files[0].hunks) + ReportedLines(read, files[1..])
  }

  lemma {:induction false} ScannedConcat(c: Cursor, a: seq<Item>, b: seq<Item>)
    ensures Scanned(c, a + b) == Scanned(c, a) + Scanned(MoveItems(c, a), b)
    ensures MoveItems(c, a + b) == MoveItems(MoveItems(c, a), b)
    decreases |a|
  {
    if a == [] {
      assert a + b == b && Raws(a) == [] && AllPieces([]) == [];
    } else {
      var pieces, rest := Pieces(a[0].raw), a[1..];
      var c' := MoveAll(c, pieces);
      assert (a + b)[1..] == rest + b && (a + b)[0] == a[0];
      ItemScanned(c, a + b);
      ItemScanned(c, a);
      ScannedConcat(c', rest, b);
      hide *;
      CheckedRegroup(ScanChecks(c, pieces), Scanned(c', rest), Scanned(MoveItems(c', rest), b));
    }
  }

  lemma CheckedRegroup(a: seq<Checked>, b: seq<Checked>, c: seq<Checked>)
    ensures a + b + c == a + (b + c)
  {
  }

  lemma NothingScanned(c: Cursor)
    ensures Scanned(c, []) == []
  {
    assert Raws([]) == [] && AllPieces([]) == [];
  }

  lemma OneScanned(c: Cursor, raw: string)
    ensures ScanChecks(c, [raw]) == LineChecks(c, raw) && MoveAll(c, [raw]) == Move(c, raw)
  {
    var one: seq<string> := [raw];
    assert one[1..] == [];
  }

  lemma PlainLineScanned(c: Cursor, l: Line)
    requires LineOk(l) && !l.Added? && (!l.NoNewline? ==> OneLine(Chomp(l.text)))
    ensures var first := Pieces(PrintLine(l))[0];
      LineChecks(c, first) == [] && Move(c, first) == Cursor(c.file, NextNumber(c.line + 1, l) - 1)
  {
    FirstPieceOfLine(l);
    hide Pieces, Split, PlusNumber, Chomp;
  }

  lemma AddedLineScanned(c: Cursor, l: Line)
    requires l.Added? && OneLine(Chomp(l.text))
    ensures var first := Pieces(PrintLine(l))[0];
      LineChecks(c, first) == Reported(c.file, c.line + 1, l)
      && Move(c, first) == Cursor(c.file, NextNumber(c.line + 1, l) - 1)
  {
    OnePiece(l.text);
    PiecesAfter("+", l.text);
    var first, text := Pieces(PrintLine(l))[0], Chomp(l.text);
    hide Pieces, Split, PlusNumber, Chomp;
    assert first == "+" + text && first[1..] == text;
  }

  lemma LineScanned(c: Cursor, l: Line)
    requires LineOk(l) && (!l.NoNewline? ==> OneLine(Chomp(l.text)))
    ensures var pieces := Pieces(PrintLine(l));
      ScanChecks(c, pieces) == Reported(c.file, c.line + 1, l)
      && MoveAll(c, pieces) == Cursor(c.file, NextNumber(c.line + 1, l) - 1)
  {
    var pieces := Pieces(PrintLine(l));
    LineInOnePiece(l);
    assert pieces == [pieces[0]];
    OneScanned(c, pieces[0]);
    if l.Added? {
      AddedLineScanned(c, l);
    } else {
      PlainLineScanned(c, l);
    }
    hide Pieces, ScanChecks, MoveAll, Move, LineChecks;
  }

  lemma FirstLineItem(file: string, n: int, l: Line, rest: seq<Line>)
    ensures var items := LineItems(file, n, [l] + rest);
      items != [] && items[0].raw == PrintLine(l)
      && items[1..] == LineItems(file, if l.Added? || l.Context? then n + 1 else n, rest)
  {
    assert ([l] + rest)[1..] == rest;
  }

  lemma {:induction false} HunkScanned(c: Cursor, file: string, n: int, lines: seq<Line>)
    requires forall l :: l in lines ==> LineOk(l) && (!l.NoNewline? ==> OneLine(Chomp(l.text)))
    ensures Scanned(c, LineItems(file, n, lines)) == ReportedIn(c.file, c.line + 1, lines)
    ensures MoveItems(c, LineItems(file, n, lines)).file == c.file
    decreases |lines|
  {
    if lines == [] {
      NothingScanned(c);
    } else {
      var l := lines[0];
      assert lines == [l] + lines[1..] && l in lines;
      var c', n' := LineThenRest(c, file, n, l, lines[1..]);
      HunkScanned(c', file, n', lines[1..]);
    }
  }

  lemma LineThenRest(c: Cursor, file: string, n: int, l: Line, rest: seq<Line>) returns (c': Cursor, n': int)
    requires LineOk(l) && (!l.NoNewline? ==> OneLine(Chomp(l.text)))
    ensures c'.file == c.file && c'.line + 1 == NextNumber(c.line + 1, l)
    ensures Scanned(c, LineItems(file, n, [l] + rest))
         == Reported(c.file, c.line + 1, l) + Scanned(c', LineItems(file, n', rest))
    ensures MoveItems(c, LineItems(file, n, [l] + rest)) == MoveItems(c', LineItems(file, n', rest))
  {
    hide OneLine, Chomp, PrintLine, Pieces, Scanned, LineItems, ScanChecks, MoveAll, Reported, NextNumber;
    c', n' := MoveAll(c, Pieces(PrintLine(l))), if l.Added? || l.Context? then n + 1 else n;
    FirstLineItem(file, n, l, rest);
    LineScanned(c, l);
    ItemScanned(c, LineItems(file, n, [l] + rest));
  }

  lemma {:induction false} HunksScanned(c: Cursor, file: string, hunks: seq<Hunk>)
    requires forall h :: h in hunks ==> HunkOk(h) && HunkHasNoBreaks(h)
    ensures Scanned(c, HunkItems(file, hunks)) == ReportedInHunks(c.file, hunks)
    ensures MoveItems(c, HunkItems(file, hunks)).file == c.file
    decreases |hunks|
  {
    if hunks != [] {
      var h := hunks[0];
      assert h in hunks;
      var header := Item(PrintHunkHeader(h), None);
      var body, rest := LineItems(file, h.newStart, h.lines), HunkItems(file, hunks[1..]);
      HunkHeaderScanned(c, h);
      var c1 := c.(line := h.newStart - 1);
      HunkScanned(c1, file, h.newStart, h.lines);
      HunksScanned(MoveItems(c1, body), file, hunks[1..]);
      ScannedConcat(c1, body, rest);
      ItemScanned(c, [header] + (body + rest));
      assert ([header] + (body + rest))[1..] == body + rest;
    }
  }

  lemma HunkHeaderScanned(c: Cursor, h: Hunk)
    requires HunkOk(h) && OneLine(Chomp(h.heading))
    ensures var pieces := Pieces(PrintHunkHeader(h));
      ScanChecks(c, pieces) == [] && MoveAll(c, pieces) == c.(line := h.newStart - 1)
  {
    var pieces := Pieces(PrintHunkHeader(h));
    HeaderInOnePiece(h);
    HunkHeaderItemOk(h);
    HunkHeaderMoves(c, h);
    assert pieces == [pieces[0]] && pieces[1..] == [];
  }

  lemma {:induction false} MetaScanned(c: Cursor, meta: seq<string>)
    requires forall m :: m in meta ==> MetaLine(m)
    ensures Scanned(c, MetaItems(meta)) == []
    decreases |meta|
  {
    if meta != [] {
      var m := meta[0];
      var line: seq<string> := [m];
      assert m in meta && MetaLine(m) && line[1..] == [];
      OneLineIsOnePiece(m);
      assert MetaItems(meta)[1..] == MetaItems(meta[1..]);
      ItemScanned(c, MetaItems(meta));
      MetaScanned(Move(c, m), meta[1..]);
    }
  }

  lemma FileScanned(c: Cursor, f: FileDiff)
    requires FileOk(f) && forall h :: h in f.hunks ==> HunkHasNoBreaks(h)
    ensures Scanned(c, FileItems(f)) == ReportedInHunks(ReadFrom(c.file, f), f.hunks)
    ensures MoveItems(c, FileItems(f)).file == ReadFrom(c.file, f)
  {
    var header := Item(GitHeader(f.oldPath, f.newPath), None);
    var meta, hunks := MetaItems(f.meta), HunkItems(f.newPath, f.hunks);
    HeaderMoves(c, f);
    hide GitHeader, ReadFrom;
    var c1 := Cursor(ReadFrom(c.file, f), 0);
    MetaScanned(c1, f.meta);
    MetaKeepsFile(c1, f.meta);
    HunksScanned(MoveItems(c1, meta), f.newPath, f.hunks);
    ScannedConcat(c1, meta, hunks);
    ItemScanned(c, [header] + (meta + hunks));
    assert ([header] + (meta + hunks))[1..] == meta + hunks;
  }

  lemma {:induction false} FilesScanned(c: Cursor, files: seq<FileDiff>)
    requires DiffOk(files) && NoInnerBreaks(files)
    ensures Scanned(c, ItemsOf(files)) == ReportedLines(c.file, files)
    decreases |files|
  {
    if files != [] {
      var f := files[0];
      assert files == [f] + files[1..] && FileOk(f);
      FileScanned(c, f);
      FilesScanned(MoveItems(c, FileItems(f)), files[1..]);
      ScannedConcat(c, FileItems(f), ItemsOf(files[1..]));
    } else {
      NothingScanned(c);
    }
  }

  /** Everything an ordinary scan finds, for any paths and any added lines: the matches in the reported lines. */
  lemma OrdinaryScanFinds(files: seq<FileDiff>, rules: seq<Rule>)
    requires DiffOk(files) && NoInnerBreaks(files)
    ensures Scan(Print(files), rules) == CheckAll(ReportedLines(START.file, files), rules)
  {
    ScanOfPrinted(files, rules);
    FilesScanned(START, files);
  }

  function CountOverlooked(lines: seq<Line>): nat {
    if lines == [] then 0 else (if Overlooked(lines[0]) then 1 else 0) + CountOverlooked(lines[1..])
  }

  // What is reported of line `i` of a hunk: its number is too low by as many as overlooked lines come before it.
  function ReportOf(file: string, n: int, lines: seq<Line>, i: nat): Checked
    requires i < |lines| && lines[i].Added?
  {
    Checked(Chomp(lines[i].text), file, n + |NewSide(lines[..i])| - CountOverlooked(lines[..i]))
  }

  lemma ReportOfLater(file: string, n: int, lines: seq<Line>, i: nat)
    requires 0 < i < |lines| && lines[i].Added?
    ensures ReportOf(file, n, lines, i) == ReportOf(file, NextNumber(n, lines[0]), lines[1..], i - 1)
  {
    var front := lines[..i];
    assert front[1..] == lines[1..][..i - 1] && front[0] == lines[0];
  }

  /** An added line that does not begin with "++" is reported, numbered too low by as many as lines that do precede it. */
  lemma {:induction false} NumberedTooLow(file: string, n: int, lines: seq<Line>, i: nat)
    requires i < |lines| && lines[i].Added? && !Overlooked(lines[i])
    ensures ReportOf(file, n, lines, i) in ReportedIn(file, n, lines)
    decreases |lines|
  {
    if i == 0 {
      assert lines[..0] == [];
      assert ReportedIn(file, n, lines)[0] == ReportOf(file, n, lines, 0);
    } else {
      ReportOfLater(file, n, lines, i);
      NumberedTooLow(file, NextNumber(n, lines[0]), lines[1..], i - 1);
    }
  }

  /** And nothing else is reported of a hunk. */
  lemma {:induction false} OnlyAddedAreReported(file: string, n: int, lines: seq<Line>, j: nat) returns (i: nat)
    requires j < |ReportedIn(file, n, lines)|
    ensures i < |lines| && lines[i].Added? && !Overlooked(lines[i])
    ensures ReportedIn(file, n, lines)[j] == ReportOf(file, n, lines, i)
    decreases |lines|
  {
    var front := |Reported(file, n, lines[0])|;
    if j < front {
      i := 0;
      assert lines[..0] == [];
    } else {
      var i' := OnlyAddedAreReported(file, NextNumber(n, lines[0]), lines[1..], j - front);
      i := i' + 1;
      ReportOfLater(file, n, lines, i);
    }
  }

  // ----- Where an added line stands -----

  // `k` is the check for the added line `i` of the hunk's lines, the first of which on the new side is `n`.
  predicate IsAddedAt(k: Checked, n: int, lines: seq<Line>, i: nat) {
    i < |lines| && lines[i].Added? && k.text == Chomp(lines[i].text) && k.line == n + |NewSide(lines[..i])|
  }

  lemma {:induction false} NewSideSplits(lines: seq<Line>, i: nat)
    requires i < |lines|
    ensures NewSide(lines) == NewSide(lines[..i]) + NewSide(lines[i..])
    decreases i
  {
    if i > 0 {
      assert lines[..i][1..] == lines[1..][..i - 1] && lines[i..] == lines[1..][i - 1..];
      NewSideSplits(lines[1..], i - 1);
    } else {
      assert lines[..0] == [] && lines[0..] == lines;
    }
  }

  /** Each check of a hunk is for one of its added lines, and the numbers increase. */
  lemma {:induction false} AddedStand(file: string, n: int, lines: seq<Line>, j: nat) returns (i: nat)
    requires j < |AddedIn(file, n, lines)|
    ensures AddedIn(file, n, lines)[j].file == file && IsAddedAt(AddedIn(file, n, lines)[j], n, lines, i)
    decreases |lines|
  {
    var l, rest := lines[0], lines[1..];
    if l.Added? && j == 0 {
      i := 0;
      assert lines[..0] == [];
    } else {
      var m := if l.Added? || l.Context? then n + 1 else n;
      var i' := AddedStand(file, m, rest, if l.Added? then j - 1 else j);
      i := i' + 1;
      assert lines[..i][1..] == rest[..i'] && lines[..i][0] == l;
    }
  }

  lemma {:induction false} AddedOfHunk(file: string, hunks: seq<Hunk>, k: Checked) returns (h: Hunk, i: nat)
    requires k in AddedInHunks(file, hunks)
    ensures h in hunks && k.file == file && IsAddedAt(k, h.newStart, h.lines, i)
    decreases |hunks|
  {
    var here := AddedIn(file, hunks[0].newStart, hunks[0].lines);
    if k in here {
      h := hunks[0];
      var j :| 0 <= j < |here| && here[j] == k;
      i := AddedStand(file, h.newStart, h.lines, j);
    } else {
      h, i := AddedOfHunk(file, hunks[1..], k);
    }
  }

  lemma {:induction false} AddedOfFile(files: seq<FileDiff>, k: Checked) returns (f: FileDiff, h: Hunk, i: nat)
    requires k in AddedLines(files)
    ensures f in files && h in f.hunks && k.file == f.newPath && IsAddedAt(k, h.newStart, h.lines, i)
    decreases |files|
  {
    if k in AddedInHunks(files[0].newPath, files[0].hunks) {
      f := files[0];
      h, i := AddedOfHunk(f.newPath, f.hunks, k);
    } else {
      f, h, i := AddedOfFile(files[1..], k);
    }
  }

  lemma AddedTextsHaveNoBreaks(files: seq<FileDiff>, k: Checked)
    requires NoInnerBreaks(files) && k in AddedLines(files)
    ensures OneLine(k.text)
  {
    var f, h, i := AddedOfFile(files, k);
    assert HunkHasNoBreaks(h);
    assert h.lines[i] in h.lines;
  }

  // ----- What a finding points at -----

  // The hunk's new side stands in the new file where its header says.
  predicate Stands(h: Hunk, content: seq<string>) {
    NewSide(h.lines) == []
    || (1 <= h.newStart && h.newStart - 1 + |NewSide(h.lines)| <= |content|
        && content[h.newStart - 1..h.newStart - 1 + |NewSide(h.lines)|] == NewSide(h.lines))
  }

  // Line `line` of `file` is one that the diff adds.
  ghost predicate AddsLine(files: seq<FileDiff>, file: string, line: int) {
    exists f, h, i: nat :: f in files && h in f.hunks && f.newPath == file && i < |h.lines| && h.lines[i].Added?
      && line == h.newStart + |NewSide(h.lines[..i])|
  }

  /** A finding names an added line of the new file in which some rule found what it reports. */
  ghost predicate PointsAt(x: Finding, files: seq<FileDiff>, content: seq<string>, rules: seq<Rule>) {
    && AddsLine(files, x.file, x.line)
    && 1 <= x.line <= |content|
    && exists rule :: rule in rules && rule.search(Chomp(content[x.line - 1])).Some?
         && x == Report(rule, rule.search(Chomp(content[x.line - 1])).value, x.file, x.line)
  }

  lemma {:induction false} CheckReports(rules: seq<Rule>, text: string, file: string, line: int, x: Finding)
    requires x in Check(rules, text, file, line)
    ensures exists rule :: rule in rules && rule.search(text).Some?
              && x == Report(rule, rule.search(text).value, file, line)
    decreases |rules|
  {
    if rules[0].search(text).Some? && x == Report(rules[0], rules[0].search(text).value, file, line) {
      assert rules[0] in rules;
    } else {
      CheckReports(rules[1..], text, file, line, x);
    }
  }

  lemma {:induction false} FindingHasCheck(checks: seq<Checked>, rules: seq<Rule>, x: Finding) returns (k: Checked)
    requires x in CheckAll(checks, rules)
    ensures k in checks && x in Check(rules, k.text, k.file, k.line)
    decreases |checks|
  {
    if x in Check(rules, checks[0].text, checks[0].file, checks[0].line) {
      k := checks[0];
    } else {
      k := FindingHasCheck(checks[1..], rules, x);
    }
  }

  lemma AddedLineInContent(h: Hunk, i: nat, content: seq<string>)
    requires Stands(h, content) && i < |h.lines| && h.lines[i].Added?
    ensures var line := h.newStart + |NewSide(h.lines[..i])|;
      1 <= line <= |content| && content[line - 1] == h.lines[i].text
  {
    var before := NewSide(h.lines[..i]);
    NewSideSplits(h.lines, i);
    assert NewSide(h.lines[i..])[0] == h.lines[i].text;
    var shown := content[h.newStart - 1..h.newStart - 1 + |NewSide(h.lines)|];
    assert shown[|before|] == content[h.newStart - 1 + |before|];
  }

  /**
   When the scan is exact and every hunk stands in the new version of its file, each finding names an
   added line of that file, by path and number, whose text the rule matched.
   */
  lemma FindingsPointAtNewLines(files: seq<FileDiff>, contents: map<string, seq<string>>, rules: seq<Rule>, x: Finding)
    requires DiffOk(files) && Exact(START, ItemsOf(files))
    requires forall f, h :: f in files && h in f.hunks ==> f.newPath in contents && Stands(h, contents[f.newPath])
    requires x in Scan(Print(files), rules)
    ensures x.file in contents && PointsAt(x, files, contents[x.file], rules)
  {
    ItemsAreRight(files);
    ScanIsExactIff(files);
    var k := FindingHasCheck(AddedLines(files), rules, x);
    CheckReports(rules, k.text, k.file, k.line, x);
    var f, h, i := AddedOfFile(files, k);
    AddedLineInContent(h, i, contents[f.newPath]);
  }

  /** When the scan is exact, every added line of the diff is checked once, in order, under its own number. */
  lemma EachAddedLineCheckedOnce(files: seq<FileDiff>)
    requires DiffOk(files) && Exact(START, ItemsOf(files))
    ensures var found, added := Scan(Print(files), [EVERY_LINE]), AddedLines(files);
      |found| == |added| == CountAdded(files)
      && forall i :: 0 <= i < |found| ==>
           found[i] == Report(EVERY_LINE, added[i].text, added[i].file, added[i].line)
           && AddsLine(files, added[i].file, added[i].line)
  {
    ItemsAreRight(files);
    ScanIsExactIff(files);
    var found, added := Scan(Print(files), [EVERY_LINE]), AddedLines(files);
    EveryLineFindsAll(added);
    AddedAreCounted(files);
    forall i | 0 <= i < |added| ensures AddsLine(files, added[i].file, added[i].line) {
      assert added[i] in added;
      var f, h, j := AddedOfFile(files, added[i]);
    }
  }

  lemma {:induction false} EveryLineFindsAll(checks: seq<Checked>)
    ensures |CheckAll(checks, [EVERY_LINE])| == |checks|
    ensures forall i :: 0 <= i < |checks| ==>
      CheckAll(checks, [EVERY_LINE])[i] == Report(EVERY_LINE, checks[i].text, checks[i].file, checks[i].line)
    decreases |checks|
  {
    if checks != [] {
      EveryLineReports(checks[0]);
      EveryLineFindsAll(checks[1..]);
    }
  }

  lemma {:induction false} LinesAreCounted(file: string, n: int, lines: seq<Line>)
    ensures |AddedIn(file, n, lines)| == CountInLines(lines)
    decreases |lines|
  {
    if lines != [] {
      LinesAreCounted(file, if lines[0].Added? || lines[0].Context? then n + 1 else n, lines[1..]);
    }
  }

  lemma {:induction false} HunksAreCounted(file: string, hunks: seq<Hunk>)
    ensures |AddedInHunks(file, hunks)| == CountInHunks(hunks)
    decreases |hunks|
  {
    if hunks != [] {
      LinesAreCounted(file, hunks[0].newStart, hunks[0].lines);
      HunksAreCounted(file, hunks[1..]);
    }
  }

  lemma {:induction false} AddedAreCounted(files: seq<FileDiff>)
    ensures |AddedLines(files)| == CountAdded(files)
    decreases |files|
  {
    if files != [] {
      HunksAreCounted(files[0].newPath, files[0].hunks);
      AddedAreCounted(files[1..]);
    }
  }

  // ----- A line break inside an added line -----

  // One file of one added line.
  function OneAddedLine(path: string, text: string): seq<FileDiff> {
    [FileDiff(path, path, [], [Hunk(0, 1, [Added(text)], "")])]
  }

  /**
   What stands behind a line break other than CRLF in an added line is never looked at, such as a
   secret `b` behind a form feed: the rules see only what stands before the break.
   */
  lemma BreakHidesTheRest(path: string, a: string, brk: char, b: string, rules: seq<Rule>)
    requires !NeedsQuoting(path) && !Contains(path, " b/")
    requires OneLine(a) && !StartsWithPluses(a) && IsLineBreak(brk) && brk != '\n'
    requires OneLine(b) && b != "" && !IsAddition(b)
    ensures Scan(Print(OneAddedLine(path, a + [brk] + b)), rules) == Check(rules, a, path, 1)
    ensures Expected(OneAddedLine(path, a + [brk] + b), rules) == Check(rules, a + [brk] + b, path, 1)
  {
    var text := a + [brk] + b;
    var files := OneAddedLine(path, text);
    TwoPieces(a, brk, b);
    OneLineConcat("+", a);
    TwoPieces("+" + a, brk, b);
    assert "+" + text == "+" + a + [brk] + b;
    assert text[|text| - 1] == b[|b| - 1] && b[|b| - 1] in b && Chomp(text) == text;
    OneAddedLineItems(path, text);
    ScanOfPrinted(files, rules);
    ItemsAreRight(files);
    ScanOfOneAddedLine(path, text, a, b);
    OneCheck(Checked(a, path, 1), rules);
    OneCheck(Checked(text, path, 1), rules);
  }

  function OneHunk(text: string): Hunk {
    Hunk(0, 1, [Added(text)], "")
  }

  lemma OneAddedLineItems(path: string, text: string)
    requires IsTextLine(text) && Chomp(text) == text
    ensures DiffOk(OneAddedLine(path, text))
    ensures ItemsOf(OneAddedLine(path, text))
         == [Item(GitHeader(path, path), None), Item(PrintHunkHeader(OneHunk(text)), None),
             Item("+" + text, Some(Checked(text, path, 1)))]
    ensures AddedLines(OneAddedLine(path, text)) == [Checked(text, path, 1)]
  {
    hide GitHeader, PrintHunkHeader;
    var files := OneAddedLine(path, text);
    var f, h := files[0], OneHunk(text);
    assert IsTextLine("") && HunkOk(h) && FileOk(f);
    assert files[1..] == [] && f.hunks[1..] == [] && h.lines[1..] == [];
    assert LineItems(path, 1, []) == [] && AddedIn(path, 2, []) == [];
    assert LineItems(path, 1, h.lines) == [Item("+" + text, Some(Checked(text, path, 1)))];
    assert AddedIn(path, 1, h.lines) == [Checked(text, path, 1)];
    assert HunkItems(path, []) == [] && AddedInHunks(path, []) == [];
    assert HunkItems(path, f.hunks) == [Item(PrintHunkHeader(h), None), Item("+" + text, Some(Checked(text, path, 1)))];
    assert AddedInHunks(path, f.hunks) == [Checked(text, path, 1)];
    assert ItemsOf([]) == [] && AddedLines([]) == [] && MetaItems([]) == [];
  }

  lemma OneCheck(k: Checked, rules: seq<Rule>)
    ensures CheckAll([k], rules) == Check(rules, k.text, k.file, k.line)
  {
    assert [k][1..] == [];
  }

  lemma ScanOfOneAddedLine(path: string, text: string, a: string, b: string)
    requires !NeedsQuoting(path) && !Contains(path, " b/")
    requires IsTextLine(text) && Chomp(text) == text && Pieces("+" + text) == ["+" + a, b]
    requires !StartsWithPluses(a) && !IsAddition(b)
    ensures Scanned(START, ItemsOf(OneAddedLine(path, text))) == [Checked(a, path, 1)]
  {
    OneAddedLineItems(path, text);
    var header, range, added := GitHeader(path, path), PrintHunkHeader(OneHunk(text)), "+" + text;
    var items := ItemsOf(OneAddedLine(path, text));
    HeaderIsOneLine(path, path);
    OneLineIsOnePiece(header);
    HunkRangeIsOneLine(OneHunk(text));
    assert range == HunkRange(OneHunk(text));
    OneLineIsOnePiece(range);
    OwnPathReadRightIff(path);
    HunkHeaderNumber(OneHunk(text));
    WhatIsRead(START, path, path);
    assert AlwaysReads(path, path) && Move(START, header).file == path;
    var c := Cursor(path, 0);
    assert Move(START, header) == c && Move(c, range) == c;
    assert !IsAddition(header) by { assert header[0] == COMMAND[0]; }
    assert !IsAddition(range);
    hide GitHeader, PrintHunkHeader, ItemsOf, Pieces, Move;
    ItemScanned(START, items);
    OnePieceScanned(START, header);
    assert items[1..][1..] == items[2..] && items[2..][1..] == [];
    ItemScanned(c, items[1..]);
    OnePieceScanned(c, range);
    ItemScanned(c, items[2..]);
    BrokenScanned(c, a, b);
  }

  lemma OnePieceScanned(c: Cursor, raw: string)
    requires Pieces(raw) == [raw]
    ensures ScanChecks(c, Pieces(raw)) == LineChecks(c, raw) && MoveAll(c, Pieces(raw)) == Move(c, raw)
  {
    assert [raw][1..] == [];
  }

  lemma BrokenScanned(c: Cursor, a: string, b: string)
    requires !StartsWithPluses(a) && !IsAddition(b)
    ensures ScanChecks(c, ["+" + a, b]) == [Checked(a, c.file, c.line + 1)]
    ensures Scanned(MoveAll(c, ["+" + a, b]), []) == []
  {
    var first := "+" + a;
    assert [first, b][1..] == [b] && [b][1..] == [];
    assert first[1..] == a && first[0] == '+' && (|a| >= 1 ==> first[1] == a[0]) && (|a| >= 2 ==> first[2] == a[1]);
    assert IsAddition(first);
    var c' := Move(c, first);
    assert ScanChecks(Move(c', b), []) == [] && ScanChecks(c', [b]) == [];
    assert Raws([]) == [] && |AllPieces([])| == 0;
  }
}
