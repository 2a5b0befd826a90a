/** Parsing the ref updates of a push, and keeping the cached branch rows in step with them. */
module RefSync {
  import opened Wrappers
  import opened PyText

  const SHA_LENGTH: nat := 40
  const ZERO_SHA := "0000000000000000000000000000000000000000"
  const BRANCH_PREFIX := "refs/heads/"

  datatype RefUpdate = RefUpdate(refName: string, oldSha: string, newSha: string) {
    predicate IsDelete() {
      newSha == ZERO_SHA
    }

    predicate IsBranch() {
      BRANCH_PREFIX <= refName
    }

    function BranchName(): string {
      if IsBranch() then refName[|BRANCH_PREFIX|..] else refName
    }
  }

  // ----- Parsing -----

  function ParseLine(line: string): Option<RefUpdate> {
    var parts := Words(Trim(line));
    if |parts| == 3 && |parts[0]| == SHA_LENGTH && |parts[1]| == SHA_LENGTH
    then Some(RefUpdate(parts[2], parts[0], parts[1]))
    else None
  }

  function ParseLines(lines: seq<string>): seq<RefUpdate> {
    if lines == [] then []
    else match ParseLine(lines[0])
      case Some(u) => [u] + ParseLines(lines[1..])
      case None => ParseLines(lines[1..])
  }

  method ParseReceivePackOutput(output: string) returns (updates: seq<RefUpdate>)
    ensures updates == ParseLines(SplitLines(output))
  {
    updates := [];
    var lines := SplitLines(output);
    assert lines[0..] == lines;
    for i := 0 to |lines|
      invariant ParseLines(lines) == updates + ParseLines(lines[i..])
    {
      assert lines[i..][1..] == lines[i + 1..];
      var parts := Words(Trim(lines[i]));
      if |parts| == 3 && |parts[0]| == SHA_LENGTH && |parts[1]| == SHA_LENGTH {
        updates := updates + [RefUpdate(parts[2], parts[0], parts[1])];
      }
    }
  }

  // ----- Printing -----

  /** A line of the output of `git receive-pack`: a ref update or a progress message. */
  datatype Line = Update(update: RefUpdate) | Progress(text: string)

  function PrintUpdate(u: RefUpdate): string {
    u.oldSha + " " + (u.newSha + " " + u.refName)
  }

  function Print(line: Line): string {
    if line.Update? then PrintUpdate(line.update) else line.text
  }

  function PrintAll(lines: seq<Line>): seq<string> {
    if lines == [] then [] else [Print(lines[0])] + PrintAll(lines[1..])
  }

  function Updates(lines: seq<Line>): seq<RefUpdate> {
    if lines == [] then []
    else if lines[0].Update? then [lines[0].update] + Updates(lines[1..])
    else Updates(lines[1..])
  }

  predicate IsSha(s: string) {
    |s| == SHA_LENGTH && IsWord(s)
  }

  /**
   A line a push may print: two shas and a ref name, or a progress message.  A message may hold carriage
   returns, as git's counters do, and splitlines breaks it there; no piece of it looks like an update.
   */
  predicate Printable(line: Line) {
    match line
    case Update(u) => IsSha(u.oldSha) && IsSha(u.newSha) && IsTextLine(u.refName)
    case Progress(text) => IsTextLine(text) && forall p :: p in Pieces(text) ==> ParseLine(p).None?
  }

  lemma {:induction false} WordsAreWords(s: string)
    ensures forall w :: w in Words(s) ==> IsWord(w)
    decreases |s|
  {
    if s != "" {
      if IsSpace(s[0]) {
        WordsAreWords(s[1..]);
      } else {
        WordsAreWords(s[WordLength(s)..]);
      }
    }
  }

  lemma WordsOfUpdate(u: RefUpdate)
    requires IsSha(u.oldSha) && IsSha(u.newSha)
    ensures Words(PrintUpdate(u)) == [u.oldSha, u.newSha] + Words(u.refName)
  {
    var rest := u.newSha + " " + u.refName;
    WordThen(u.oldSha, rest);
    WordThen(u.newSha, u.refName);
    assert Words(PrintUpdate(u)) == [u.oldSha] + ([u.newSha] + Words(u.refName));
  }

  lemma WordOfWord(s: string)
    ensures Words(s) == [s] <==> IsWord(s)
  {
    WordsAreWords(s);
    if IsWord(s) {
      assert s + "" == s;
      FirstWord(s, "");
    }
  }

  /** A printed update is read back if and only if its ref name holds no whitespace. */
  lemma UpdateReadBackIff(u: RefUpdate)
    requires IsSha(u.oldSha) && IsSha(u.newSha) && u.refName != ""
    ensures ParseLine(PrintUpdate(u)) == Some(u) <==> IsWord(u.refName)
  {
    TrimKeepsWords(PrintUpdate(u));
    WordsOfUpdate(u);
    WordOfWord(u.refName);
    var parts := Words(PrintUpdate(u));
    assert parts[2..] == Words(u.refName);
    if ParseLine(PrintUpdate(u)) == Some(u) {
      assert Words(u.refName) == [parts[2]];
    }
  }

  lemma {:induction false} ParseLinesConcat(a: seq<string>, b: seq<string>)
    ensures ParseLines(a + b) == ParseLines(a) + ParseLines(b)
    decreases |a|
  {
    if a == [] {
      assert a + b == b;
    } else {
      assert (a + b)[1..] == a[1..] + b;
      ParseLinesConcat(a[1..], b);
    }
  }

  lemma {:induction false} NothingToParse(lines: seq<string>)
    requires forall l :: l in lines ==> ParseLine(l).None?
    ensures ParseLines(lines) == []
    decreases |lines|
  {
    if lines != [] {
      assert lines[0] in lines;
      NothingToParse(lines[1..]);
    }
  }

  lemma PrintedIsTextLine(line: Line)
    requires Printable(line)
    ensures IsTextLine(Print(line))
  {
    if line.Update? {
      assert IsTextLine(line.update.oldSha) && IsTextLine(line.update.newSha);
    }
  }

  // What one printed line is read as, when the ref names of updates hold no whitespace.
  lemma ParsePrintedLine(line: Line)
    requires Printable(line) && (line.Update? ==> IsWord(line.update.refName))
    ensures ParseLines(Pieces(Print(line))) == if line.Update? then [line.update] else []
  {
    match line
    case Update(u) =>
      var text := PrintUpdate(u);
      assert OneLine(text);
      assert text[|text| - 1] == u.refName[|u.refName| - 1] && u.refName[|u.refName| - 1] in u.refName;
      assert Chomp(text) == text;
      OnePiece(text);
      UpdateReadBackIff(u);
      assert [text][1..] == [];
    case Progress(text) => NothingToParse(Pieces(text));
  }

  lemma {:induction false} ParsePrintedLines(lines: seq<Line>)
    requires forall l :: l in lines ==> Printable(l) && (l.Update? ==> IsWord(l.update.refName))
    ensures ParseLines(AllPieces(PrintAll(lines))) == Updates(lines)
    decreases |lines|
  {
    if lines != [] {
      var l := lines[0];
      assert l in lines && PrintAll(lines)[1..] == PrintAll(lines[1..]);
      ParsePrintedLine(l);
      ParsePrintedLines(lines[1..]);
      ParseLinesConcat(Pieces(Print(l)), AllPieces(PrintAll(lines[1..])));
    }
  }

  lemma {:induction false} PrintedAreTextLines(lines: seq<Line>)
    requires forall l :: l in lines ==> Printable(l)
    ensures forall s :: s in PrintAll(lines) ==> IsTextLine(s)
    decreases |lines|
  {
    if lines != [] {
      assert lines[0] in lines;
      PrintedIsTextLine(lines[0]);
      PrintedAreTextLines(lines[1..]);
    }
  }

  lemma {:induction false} ParsedNamesAreWords(lines: seq<string>)
    ensures forall u :: u in ParseLines(lines) ==> IsWord(u.refName)
    decreases |lines|
  {
    if lines != [] {
      ParsedNamesAreWords(lines[1..]);
      var parts := Words(Trim(lines[0]));
      WordsAreWords(Trim(lines[0]));
      assert |parts| == 3 ==> parts[2] in parts;
    }
  }

  lemma {:induction false} UpdateIsListed(lines: seq<Line>, l: Line)
    requires l in lines && l.Update?
    ensures l.update in Updates(lines)
    decreases |lines|
  {
    if l != lines[0] {
      UpdateIsListed(lines[1..], l);
    }
  }

  /**
   Parsing what a push prints gives back its updates, whatever progress messages stand between them, if
   and only if no ref name holds whitespace.
   */
  lemma ParsePrintedIff(lines: seq<Line>)
    requires forall l :: l in lines ==> Printable(l)
    ensures ParseLines(SplitLines(Unlines(PrintAll(lines)))) == Updates(lines)
       <==> forall u :: u in Updates(lines) ==> IsWord(u.refName)
  {
    PrintedAreTextLines(lines);
    SplitUnlines(PrintAll(lines));
    ParsedNamesAreWords(AllPieces(PrintAll(lines)));
    if forall u :: u in Updates(lines) ==> IsWord(u.refName) {
      forall l | l in lines && l.Update? ensures IsWord(l.update.refName) {
        UpdateIsListed(lines, l);
      }
      ParsePrintedLines(lines);
    }
  }

  // ----- Syncing the branch cache -----

  type Branches = map<string, string>
  datatype SyncError = Unreadable(shortSha: string, branch: string)
  datatype SyncResult = SyncResult(upserted: seq<string>, deleted: seq<string>, errors: seq<SyncError>)

  function ShortSha(sha: string): string {
    if |sha| <= 7 then sha else sha[..7]
  }

  function Synced(updates: seq<RefUpdate>, readable: string -> bool): SyncResult {
    if updates == [] then SyncResult([], [], [])
    else
      var r := Synced(updates[..|updates| - 1], readable);
      var u := updates[|updates| - 1];
      if !u.IsBranch() then r
      else if u.IsDelete() then r.(deleted := r.deleted + [u.BranchName()])
      else if !readable(u.newSha) then r.(errors := r.errors + [Unreadable(ShortSha(u.newSha), u.BranchName())])
      else r.(upserted := r.upserted + [u.BranchName()])
  }

  /** The commit each branch was last seen to point at, where it could be read. */
  function Details(updates: seq<RefUpdate>, readable: string -> bool): Branches {
    if updates == [] then map[]
    else
      var d := Details(updates[..|updates| - 1], readable);
      var u := updates[|updates| - 1];
      if u.IsBranch() && !u.IsDelete() && readable(u.newSha) then d[u.BranchName() := u.newSha] else d
  }

  function Upsert(rows: Branches, names: seq<string>, details: Branches): Branches
    requires forall n :: n in names ==> n in details
  {
    if names == [] then rows
    else
      var n := names[|names| - 1];
      Upsert(rows, names[..|names| - 1], details)[n := details[n]]
  }

  function DeleteRows(rows: Branches, names: seq<string>): Branches {
    if names == [] then rows else DeleteRows(rows, names[..|names| - 1]) - {names[|names| - 1]}
  }

  lemma {:induction false} UpsertedHaveDetails(updates: seq<RefUpdate>, readable: string -> bool)
    ensures forall b :: b in Synced(updates, readable).upserted <==> b in Details(updates, readable)
    decreases |updates|
  {
    if updates != [] {
      UpsertedHaveDetails(updates[..|updates| - 1], readable);
    }
  }

  /** The cached rows after the hook has run: all upserts first, then all deletions. */
  function AfterHook(rows: Branches, updates: seq<RefUpdate>, readable: string -> bool): Branches {
    UpsertedHaveDetails(updates, readable);
    var r := Synced(updates, readable);
    DeleteRows(Upsert(rows, r.upserted, Details(updates, readable)), r.deleted)
  }

  method SyncBranchCacheFromRefs(updates: seq<RefUpdate>, readable: string -> bool) returns (result: SyncResult)
    ensures result == Synced(updates, readable)
  {
    var upserted, deleted, errors := [], [], [];
    for i := 0 to |updates|
      invariant SyncResult(upserted, deleted, errors) == Synced(updates[..i], readable)
    {
      var u := updates[i];
      assert updates[..i + 1][..i] == updates[..i];
      if u.IsBranch() {
        if u.IsDelete() {
          deleted := deleted + [u.BranchName()];
        } else if !readable(u.newSha) {
          errors := errors + [Unreadable(ShortSha(u.newSha), u.BranchName())];
        } else {
          upserted := upserted + [u.BranchName()];
        }
      }
    }
    assert updates[..|updates|] == updates;
    result := SyncResult(upserted, deleted, errors);
  }

  method ReadDetails(updates: seq<RefUpdate>, readable: string -> bool) returns (details: Branches)
    ensures details == Details(updates, readable)
  {
    details := map[];
    for i := 0 to |updates|
      invariant details == Details(updates[..i], readable)
    {
      var u := updates[i];
      assert updates[..i + 1][..i] == updates[..i];
      if u.IsBranch() && !u.IsDelete() && readable(u.newSha) {
        details := details[u.BranchName() := u.newSha];
      }
    }
    assert updates[..|updates|] == updates;
  }

  /** The branch rows of one repository, each with its last commit. */
  class BranchCache {
    var rows: Branches

    method PostReceive(updates: seq<RefUpdate>, readable: string -> bool) returns (result: SyncResult)
      modifies this
      ensures result == Synced(updates, readable)
      ensures rows == AfterHook(old(rows), updates, readable)
    {
      result := SyncBranchCacheFromRefs(updates, readable);
      var details := ReadDetails(updates, readable);
      UpsertedHaveDetails(updates, readable);
      assert DeleteRows(Upsert(rows, result.upserted, details), result.deleted) == AfterHook(rows, updates, readable);
      hide *;
      UpsertRows(result.upserted, details);
      RemoveRows(result.deleted);
    }

    method UpsertRows(names: seq<string>, details: Branches)
      requires forall n :: n in names ==> n in details
      modifies this
      ensures rows == Upsert(old(rows), names, details)
    {
      for i := 0 to |names|
        invariant rows == Upsert(old(rows), names[..i], details)
      {
        assert names[..i + 1][..i] == names[..i];
        rows := rows[names[i] := details[names[i]]];
      }
      assert names[..|names|] == names;
    }

    method RemoveRows(names: seq<string>)
      modifies this
      ensures rows == DeleteRows(old(rows), names)
    {
      for i := 0 to |names|
        invariant rows == DeleteRows(old(rows), names[..i])
      {
        assert names[..i + 1][..i] == names[..i];
        rows := rows - {names[i]};
      }
      assert names[..|names|] == names;
    }
  }

  // ----- The repository's own branches -----

  /** What the updates do to the branches, one after the other. */
  function Pushed(branches: Branches, updates: seq<RefUpdate>): Branches {
    if updates == [] then branches
    else
      var before := Pushed(branches, updates[..|updates| - 1]);
      var u := updates[|updates| - 1];
      if !u.IsBranch() then before
      else if u.IsDelete() then before - {u.BranchName()}
      else before[u.BranchName() := u.newSha]
  }

  predicate Touches(u: RefUpdate, b: string) {
    u.IsBranch() && u.BranchName() == b
  }

  function LastFor(updates: seq<RefUpdate>, b: string): Option<RefUpdate> {
    if updates == [] then None
    else if Touches(updates[|updates| - 1], b) then Some(updates[|updates| - 1])
    else LastFor(updates[..|updates| - 1], b)
  }

  predicate Deleted(updates: seq<RefUpdate>, b: string) {
    exists u :: u in updates && Touches(u, b) && u.IsDelete()
  }

  /** One update deletes the branch, and a later one sets it for good. */
  predicate Recreated(updates: seq<RefUpdate>, b: string) {
    Deleted(updates, b) && LastFor(updates, b).Some? && !LastFor(updates, b).value.IsDelete()
  }

  predicate Reported(errors: seq<SyncError>, b: string) {
    exists e :: e in errors && e.branch == b
  }

  // The two maps agree on a branch: whether there is one, and where it points.
  predicate Agree(rows: Branches, branches: Branches, b: string) {
    (b in rows <==> b in branches) && (b in rows ==> rows[b] == branches[b])
  }

  lemma {:induction false} PushedLast(branches: Branches, updates: seq<RefUpdate>, b: string)
    ensures match LastFor(updates, b)
      case None => Agree(Pushed(branches, updates), branches, b)
      case Some(u) => if u.IsDelete() then b !in Pushed(branches, updates)
                      else b in Pushed(branches, updates) && Pushed(branches, updates)[b] == u.newSha
    decreases |updates|
  {
    if updates != [] && !Touches(updates[|updates| - 1], b) {
      PushedLast(branches, updates[..|updates| - 1], b);
    }
  }

  lemma {:induction false} DeletedIsListed(updates: seq<RefUpdate>, readable: string -> bool, b: string)
    ensures b in Synced(updates, readable).deleted <==> Deleted(updates, b)
    decreases |updates|
  {
    if updates != [] {
      var rest, last := updates[..|updates| - 1], updates[|updates| - 1];
      assert updates == rest + [last];
      DeletedIsListed(rest, readable, b);
      if Deleted(rest, b) {
        var u :| u in rest && Touches(u, b) && u.IsDelete();
        assert u in updates;
      }
      if Touches(last, b) && last.IsDelete() {
        assert last in updates;
      }
    }
  }

  lemma {:induction false} DetailsAreLast(updates: seq<RefUpdate>, readable: string -> bool, b: string)
    requires !Deleted(updates, b) && !Reported(Synced(updates, readable).errors, b)
    ensures match LastFor(updates, b)
      case None => b !in Details(updates, readable)
      case Some(u) => b in Details(updates, readable) && Details(updates, readable)[b] == u.newSha
    decreases |updates|
  {
    if updates != [] {
      var rest, last := updates[..|updates| - 1], updates[|updates| - 1];
      assert updates == rest + [last];
      assert last in updates && forall u :: u in rest ==> u in updates;
      ReportedIff(updates, readable, b);
      ReportedIff(rest, readable, b);
      DetailsAreLast(rest, readable, b);
    }
  }

  lemma {:induction false} UpsertedRow(rows: Branches, names: seq<string>, details: Branches, b: string)
    requires forall n :: n in names ==> n in details
    ensures b in names ==> b in Upsert(rows, names, details) && Upsert(rows, names, details)[b] == details[b]
    ensures b !in names ==> Agree(Upsert(rows, names, details), rows, b)
    decreases |names|
  {
    if names != [] {
      UpsertedRow(rows, names[..|names| - 1], details, b);
      assert names == names[..|names| - 1] + [names[|names| - 1]];
    }
  }

  lemma {:induction false} DeletedRow(rows: Branches, names: seq<string>, b: string)
    ensures if b in names then b !in DeleteRows(rows, names) else Agree(DeleteRows(rows, names), rows, b)
    decreases |names|
  {
    if names != [] {
      DeletedRow(rows, names[..|names| - 1], b);
      assert names == names[..|names| - 1] + [names[|names| - 1]];
    }
  }

  lemma {:induction false} LastTouches(updates: seq<RefUpdate>, b: string)
    ensures LastFor(updates, b).Some? ==> LastFor(updates, b).value in updates && Touches(LastFor(updates, b).value, b)
    ensures Deleted(updates, b) ==> LastFor(updates, b).Some?
    decreases |updates|
  {
    if updates != [] {
      var rest, last := updates[..|updates| - 1], updates[|updates| - 1];
      assert updates == rest + [last];
      LastTouches(rest, b);
    }
  }

  lemma HookRow(rows: Branches, updates: seq<RefUpdate>, readable: string -> bool, b: string)
    requires !Reported(Synced(updates, readable).errors, b)
    ensures var after := AfterHook(rows, updates, readable);
      if Deleted(updates, b) then b !in after
      else match LastFor(updates, b)
        case None => Agree(after, rows, b)
        case Some(u) => b in after && after[b] == u.newSha
  {
    var r, details := Synced(updates, readable), Details(updates, readable);
    UpsertedHaveDetails(updates, readable);
    var upserted := Upsert(rows, r.upserted, details);
    DeletedIsListed(updates, readable, b);
    UpsertedRow(rows, r.upserted, details, b);
    DeletedRow(upserted, r.deleted, b);
    if !Deleted(updates, b) {
      DetailsAreLast(updates, readable, b);
    }
  }

  /**
   A cache that mirrored the repository still mirrors a branch that is not reported in the errors,
   its tip included, if and only if the updates do not delete the branch and then set it again.
   */
  lemma CacheFollowsIff(branches: Branches, updates: seq<RefUpdate>, readable: string -> bool, b: string)
    requires !Reported(Synced(updates, readable).errors, b)
    ensures Agree(AfterHook(branches, updates, readable), Pushed(branches, updates), b) <==> !Recreated(updates, b)
  {
    var after, pushed := AfterHook(branches, updates, readable), Pushed(branches, updates);
    HookRow(branches, updates, readable, b);
    PushedLast(branches, updates, b);
    LastTouches(updates, b);
  }

  predicate EachRefOnce(updates: seq<RefUpdate>) {
    forall i, j :: 0 <= i < j < |updates| ==> updates[i].refName != updates[j].refName
  }

  lemma {:induction false} OnceIsNeverRecreated(updates: seq<RefUpdate>, b: string)
    requires EachRefOnce(updates)
    ensures !Recreated(updates, b)
    decreases |updates|
  {
    if updates != [] {
      var rest, last := updates[..|updates| - 1], updates[|updates| - 1];
      assert updates == rest + [last];
      if Touches(last, b) {
        forall u | u in rest ensures !Touches(u, b) {
          var i :| 0 <= i < |rest| && rest[i] == u;
          assert updates[i].refName != updates[|updates| - 1].refName;
          if u.IsBranch() {
            assert u.refName == BRANCH_PREFIX + u.BranchName();
            assert last.refName == BRANCH_PREFIX + last.BranchName();
          }
        }
      } else {
        OnceIsNeverRecreated(rest, b);
      }
    }
  }

  /** A counter that git prints over itself is a progress message: the carriage return does no harm. */
  lemma CounterIsPrintable(a: string, b: string)
    requires OneLine(a) && OneLine(b) && b != ""
    ensures Printable(Progress(a + "\r" + b)) <==> ParseLine(a).None? && ParseLine(b).None?
  {
    TwoPieces(a, '\r', b);
    assert a + ['\r'] + b == a + "\r" + b;
    assert Pieces(a + "\r" + b)[0] == a && Pieces(a + "\r" + b)[1] == b;
  }

  /** A push that names each ref once, from its printed output to the cached rows. */
  lemma PushIsMirrored(branches: Branches, lines: seq<Line>, readable: string -> bool, b: string)
    requires (forall l :: l in lines ==> Printable(l)) && EachRefOnce(Updates(lines))
    requires forall u :: u in Updates(lines) ==> IsWord(u.refName)
    requires !Reported(Synced(Updates(lines), readable).errors, b)
    ensures var parsed := ParseLines(SplitLines(Unlines(PrintAll(lines))));
      Agree(AfterHook(branches, parsed, readable), Pushed(branches, Updates(lines)), b)
  {
    ParsePrintedIff(lines);
    OnceIsNeverRecreated(Updates(lines), b);
    CacheFollowsIff(branches, Updates(lines), readable, b);
  }

  /** An unreadable commit is reported under its branch, and only then is a branch reported. */
  lemma {:induction false} ReportedIff(updates: seq<RefUpdate>, readable: string -> bool, b: string)
    ensures Reported(Synced(updates, readable).errors, b)
       <==> exists u :: u in updates && Touches(u, b) && !u.IsDelete() && !readable(u.newSha)
    decreases |updates|
  {
    if updates != [] {
      var rest, last := updates[..|updates| - 1], updates[|updates| - 1];
      assert updates == rest + [last];
      ReportedIff(rest, readable, b);
      var before, errors := Synced(rest, readable).errors, Synced(updates, readable).errors;
      assert forall e :: e in before ==> e in errors;
      if Touches(last, b) && !last.IsDelete() && !readable(last.newSha) {
        assert errors[|errors| - 1] in errors && last in updates;
      }
      if Reported(before, b) {
        var e :| e in before && e.branch == b;
        assert e in errors;
      }
    }
  }

  /** A branch deleted and set again by one list of updates is missing from the cache. */
  lemma RecreatedBranchIsLost()
    ensures var sha := seq(SHA_LENGTH, i => 'a');
      var updates := [RefUpdate("refs/heads/x", sha, ZERO_SHA), RefUpdate("refs/heads/x", ZERO_SHA, sha)];
      var branches := map["x" := sha];
      var readable := (s: string) => true;
      "x" in Pushed(branches, updates) && "x" !in AfterHook(branches, updates, readable)
  {
    var sha := seq(SHA_LENGTH, i => 'a');
    var updates := [RefUpdate("refs/heads/x", sha, ZERO_SHA), RefUpdate("refs/heads/x", ZERO_SHA, sha)];
    var branches := map["x" := sha];
    var readable := (s: string) => true;
    assert sha[0] != ZERO_SHA[0];
    assert updates[0].BranchName() == "x" == updates[1].BranchName();
    assert Touches(updates[0], "x") && updates[0].IsDelete() && updates[0] in updates;
    assert LastFor(updates, "x") == Some(updates[1]);
    PushedLast(branches, updates, "x");
    ReportedIff(updates, readable, "x");
    CacheFollowsIff(branches, updates, readable, "x");
  }
  // ----- The formats in plain terms -----

  /** A line is an update exactly if it has three words and the first two have forty characters each. */
  lemma ParseLineMeans(line: string)
    ensures var words := Words(line);
      ParseLine(line) == if |words| == 3 && |words[0]| == 40 && |words[1]| == 40
                         then Some(RefUpdate(words[2], words[0], words[1])) else None
  {
    TrimKeepsWords(line);
  }

  // The update is of the branch `name`.
  predicate OfBranch(u: RefUpdate, name: string) {
    u.refName == "refs/heads/" + name
  }

  lemma BranchesAre(u: RefUpdate)
    ensures u.IsBranch() <==> exists name :: OfBranch(u, name)
    ensures forall name :: OfBranch(u, name) ==> u.BranchName() == name
  {
    if u.IsBranch() {
      assert u.refName == "refs/heads/" + u.BranchName();
      assert OfBranch(u, u.BranchName());
    }
  }

  /** An update deletes its ref exactly if its new sha is forty zeros. */
  lemma DeletesAre(u: RefUpdate)
    ensures u.IsDelete() <==> |u.newSha| == 40 && forall c :: c in u.newSha ==> c == '0'
  {
    assert |ZERO_SHA| == 40 && forall c :: c in ZERO_SHA ==> c == '0';
    if |u.newSha| == 40 && forall c :: c in u.newSha ==> c == '0' {
      forall i | 0 <= i < 40 ensures u.newSha[i] == ZERO_SHA[i] {
        assert u.newSha[i] in u.newSha && ZERO_SHA[i] in ZERO_SHA;
      }
    }
  }

  function Names(updates: seq<RefUpdate>): seq<string> {
    seq(|updates|, i requires 0 <= i < |updates| => updates[i].BranchName())
  }

  // The error for an update: its branch, and its commit by the first seven characters.
  function ErrorFor(u: RefUpdate): SyncError {
    Unreadable(if |u.newSha| <= 7 then u.newSha else u.newSha[..7], u.BranchName())
  }

  function ErrorsFor(updates: seq<RefUpdate>): seq<SyncError> {
    seq(|updates|, i requires 0 <= i < |updates| => ErrorFor(updates[i]))
  }

  lemma NamesSnoc(updates: seq<RefUpdate>, u: RefUpdate)
    ensures Names(updates + [u]) == Names(updates) + [u.BranchName()]
    ensures ErrorsFor(updates + [u]) == ErrorsFor(updates) + [ErrorFor(u)]
  {
  }

  // Of the updates that pass the test, the last one comes last.
  lemma PickedSnoc(rest: seq<RefUpdate>, last: RefUpdate, p: RefUpdate -> bool)
    ensures Names(Filter(rest + [last], p)) == Names(Filter(rest, p)) + if p(last) then [last.BranchName()] else []
    ensures ErrorsFor(Filter(rest + [last], p)) == ErrorsFor(Filter(rest, p)) + if p(last) then [ErrorFor(last)] else []
  {
    FilterSnoc(rest, last, p);
    NamesSnoc(Filter(rest, p), last);
  }

  // The lists are sorted as they should be.
  ghost predicate Sorts(r: SyncResult, updates: seq<RefUpdate>, readable: string -> bool) {
    && r.deleted == Names(Filter(updates, (u: RefUpdate) => u.IsBranch() && u.IsDelete()))
    && r.upserted == Names(Filter(updates, (u: RefUpdate) => u.IsBranch() && !u.IsDelete() && readable(u.newSha)))
    && r.errors == ErrorsFor(Filter(updates, (u: RefUpdate) => u.IsBranch() && !u.IsDelete() && !readable(u.newSha)))
  }

  lemma OneMoreSorts(rest: seq<RefUpdate>, last: RefUpdate, readable: string -> bool)
    requires Sorts(Synced(rest, readable), rest, readable)
    ensures Sorts(Synced(rest + [last], readable), rest + [last], readable)
  {
    var updates := rest + [last];
    assert updates[..|updates| - 1] == rest;
    PickedSnoc(rest, last, (u: RefUpdate) => u.IsBranch() && u.IsDelete());
    PickedSnoc(rest, last, (u: RefUpdate) => u.IsBranch() && !u.IsDelete() && readable(u.newSha));
    PickedSnoc(rest, last, (u: RefUpdate) => u.IsBranch() && !u.IsDelete() && !readable(u.newSha));
    hide Filter, Names, ErrorsFor;
  }

  /** The three lists: branch updates that delete, that name a readable commit, and the rest, each in the order pushed. */
  lemma {:induction false} SyncSortsUpdates(updates: seq<RefUpdate>, readable: string -> bool)
    ensures Sorts(Synced(updates, readable), updates, readable)
    decreases |updates|
  {
    if updates != [] {
      SyncSortsUpdates(updates[..|updates| - 1], readable);
      OneMoreSorts(updates[..|updates| - 1], updates[|updates| - 1], readable);
      assert updates == updates[..|updates| - 1] + [updates[|updates| - 1]];
    }
  }

  // The last update that sets the branch to a commit that can be read.
  function LastReadable(updates: seq<RefUpdate>, readable: string -> bool, b: string): Option<RefUpdate> {
    if updates == [] then None
    else
      var u := updates[|updates| - 1];
      if Touches(u, b) && !u.IsDelete() && readable(u.newSha) then Some(u)
      else LastReadable(updates[..|updates| - 1], readable, b)
  }

  lemma {:induction false} DetailsAreLastReadable(updates: seq<RefUpdate>, readable: string -> bool, b: string)
    ensures match LastReadable(updates, readable, b)
      case None => b !in Details(updates, readable)
      case Some(u) => b in Details(updates, readable) && Details(updates, readable)[b] == u.newSha
    decreases |updates|
  {
    if updates != [] {
      DetailsAreLastReadable(updates[..|updates| - 1], readable, b);
    }
  }

  /**
   The row of any branch after the hook: gone if some update deletes the branch, else at the last commit it was set to
   that could be read, else as before.
   */
  lemma RowAfterHook(rows: Branches, updates: seq<RefUpdate>, readable: string -> bool, b: string)
    ensures var after := AfterHook(rows, updates, readable);
      if Deleted(updates, b) then b !in after
      else match LastReadable(updates, readable, b)
        case None => Agree(after, rows, b)
        case Some(u) => b in after && after[b] == u.newSha
  {
    var r, details := Synced(updates, readable), Details(updates, readable);
    UpsertedHaveDetails(updates, readable);
    DeletedIsListed(updates, readable, b);
    UpsertedRow(rows, r.upserted, details, b);
    DeletedRow(Upsert(rows, r.upserted, details), r.deleted, b);
    DetailsAreLastReadable(updates, readable, b);
  }
}
