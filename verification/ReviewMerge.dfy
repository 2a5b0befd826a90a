/** Merging the suggestions of several review samples into one list. */
module ReviewMerge {
  import opened Wrappers
  import opened PyText
  import opened FirstSeen
  import Sorting = StableSort
  import Votes

  /** A suggestion as a sample returned it; any field may be missing. */
  datatype Suggestion = Suggestion(
    file: Option<string>,
    lineHint: Option<int>,
    severity: Option<string>,
    comment: Option<string>)

  datatype Merged = Merged(file: string, lineHint: Option<int>, severity: string, comment: string)

  type Location = (string, Option<int>)

  const SHOWN: nat := 1000
  const SEPARATOR := " | "

  function OrElse(o: Option<string>, default: string): string {
    if o.Some? then o.value else default
  }

  function Where(s: Suggestion): Location {
    (OrElse(s.file, ""), s.lineHint)
  }

  function SeverityOf(s: Suggestion): string {
    OrElse(s.severity, "low")
  }

  function CommentOf(s: Suggestion): string {
    Trim(OrElse(s.comment, ""))
  }

  function Place(m: Merged): Location {
    (m.file, m.lineHint)
  }

  // ----- Groups -----

  function Locations(all: seq<Suggestion>): seq<Location> {
    seq(|all|, i requires 0 <= i < |all| => Where(all[i]))
  }

  /** The suggestions for one location, in order. */
  function Group(all: seq<Suggestion>, at: Location): (group: seq<Suggestion>)
    ensures forall s :: s in group <==> s in all && Where(s) == at
  {
    if all == [] then []
    else
      var last := all[|all| - 1];
      var before := Group(all[..|all| - 1], at);
      assert all == all[..|all| - 1] + [last];
      if Where(last) == at then before + [last] else before
  }

  lemma GroupSnoc(all: seq<Suggestion>, s: Suggestion, at: Location)
    ensures Group(all + [s], at) == if Where(s) == at then Group(all, at) + [s] else Group(all, at)
  {
    assert (all + [s])[..|all|] == all;
  }

  function Severities(group: seq<Suggestion>): seq<string> {
    seq(|group|, i requires 0 <= i < |group| => SeverityOf(group[i]))
  }

  // ----- Comments -----

  function Tokens(comment: string): set<string> {
    set w | w in Words(LowerText(comment))
  }

  /** At least 80% of the words of `c` are words of `prev`. */
  predicate Covered(c: string, prev: string) {
    var words := Tokens(c);
    5 * |words * Tokens(prev)| >= 4 * (if |words| > 1 then |words| else 1)
  }

  /** The comments of a group that no earlier kept one covers. */
  function Kept(group: seq<Suggestion>): seq<string> {
    if group == [] then []
    else
      var before := Kept(group[..|group| - 1]);
      var c := CommentOf(group[|group| - 1]);
      if exists prev :: prev in before && Covered(c, prev) then before else before + [c]
  }

  function Cut(c: string): string {
    if |c| <= SHOWN then c else c[..SHOWN]
  }

  function Cuts(comments: seq<string>): seq<string> {
    seq(|comments|, i requires 0 <= i < |comments| => Cut(comments[i]))
  }

  function MergedComment(group: seq<Suggestion>): string {
    Join(Cuts(Kept(group)), SEPARATOR)
  }

  // ----- The merge -----

  function MergeGroup(at: Location, group: seq<Suggestion>): Merged
    requires group != []
  {
    Merged(at.0, at.1, Votes.Highest(Severities(group)), MergedComment(group))
  }

  lemma GroupsAreInhabited(all: seq<Suggestion>)
    ensures forall at :: at in Distinct(Locations(all)) <==> Group(all, at) != []
  {
    forall at ensures at in Distinct(Locations(all)) <==> Group(all, at) != [] {
      if at in Locations(all) {
        var i :| 0 <= i < |all| && Locations(all)[i] == at;
        assert all[i] in Group(all, at);
      }
      if Group(all, at) != [] {
        var s := Group(all, at)[0];
        assert s in Group(all, at);
        var i :| 0 <= i < |all| && all[i] == s;
        assert Locations(all)[i] == at;
      }
    }
  }

  function MergeAll(all: seq<Suggestion>): seq<Merged> {
    var at := Distinct(Locations(all));
    GroupsAreInhabited(all);
    seq(|at|, i requires 0 <= i < |at| && Group(all, at[i]) != [] => MergeGroup(at[i], Group(all, at[i])))
  }

  /** The order of the result: severest first, then by file name. */
  predicate Before(a: Merged, b: Merged) {
    Votes.SeverityRank(a.severity) > Votes.SeverityRank(b.severity)
    || (Votes.SeverityRank(a.severity) == Votes.SeverityRank(b.severity) && TextLe(a.file, b.file))
  }

  function Deduplicate(all: seq<Suggestion>): seq<Merged> {
    Sorting.Sort(MergeAll(all), Before)
  }

  // ----- The loops -----

  ghost predicate Grouped(all: seq<Suggestion>, keys: seq<Location>, groups: map<Location, seq<Suggestion>>) {
    && keys == Distinct(Locations(all))
    && (forall at :: at in groups <==> at in keys)
    && forall at :: at in groups ==> groups[at] == Group(all, at)
  }

  lemma OneMore(all: seq<Suggestion>, s: Suggestion)
    ensures var keys := Distinct(Locations(all));
      Distinct(Locations(all + [s])) == if Where(s) in keys then keys else keys + [Where(s)]
    ensures forall at :: at != Where(s) ==> Group(all + [s], at) == Group(all, at)
    ensures Group(all + [s], Where(s)) == Group(all, Where(s)) + [s]
    ensures Where(s) !in Distinct(Locations(all)) ==> Group(all + [s], Where(s)) == [s]
  {
    assert Locations(all + [s]) == Locations(all) + [Where(s)];
    DistinctSnoc(Locations(all), Where(s));
    GroupsAreInhabited(all);
    forall at ensures at != Where(s) ==> Group(all + [s], at) == Group(all, at) {
      GroupSnoc(all, s, at);
    }
    GroupSnoc(all, s, Where(s));
  }

  method AddToGroup(ghost all: seq<Suggestion>, keys: seq<Location>, groups: map<Location, seq<Suggestion>>, s: Suggestion)
    returns (keys': seq<Location>, groups': map<Location, seq<Suggestion>>)
    requires Grouped(all, keys, groups)
    ensures Grouped(all + [s], keys', groups')
  {
    var key := Where(s);
    OneMore(all, s);
    if key !in groups {
      keys', groups' := keys + [key], groups[key := [s]];
    } else {
      keys', groups' := keys, groups[key := groups[key] + [s]];
    }
  }

  method MergeComments(group: seq<Suggestion>) returns (comment: string)
    ensures comment == MergedComment(group)
  {
    var comments: seq<string> := [];
    var seen: set<string> := {};
    for i := 0 to |group|
      invariant comments == Cuts(Kept(group[..i]))
      invariant forall c :: c in seen <==> c in Kept(group[..i])
    {
      assert group[..i + 1][..i] == group[..i];
      var c := CommentOf(group[i]);
      if !exists prev :: prev in seen && Covered(c, prev) {
        comments := comments + [Cut(c)];
        seen := seen + {c};
      }
    }
    assert group[..|group|] == group;
    comment := if |comments| > 1 then Join(comments, SEPARATOR) else if comments != [] then comments[0] else "";
  }

  method MergeGroups(keys: seq<Location>, groups: map<Location, seq<Suggestion>>) returns (merged: seq<Merged>)
    requires forall at :: at in keys ==> at in groups && groups[at] != []
    ensures |merged| == |keys|
    ensures forall j :: 0 <= j < |keys| ==> merged[j] == MergeGroup(keys[j], groups[keys[j]])
  {
    merged := [];
    for i := 0 to |keys|
      invariant |merged| == i
      invariant forall j :: 0 <= j < i ==> merged[j] == MergeGroup(keys[j], groups[keys[j]])
    {
      var group := groups[keys[i]];
      var severity := Votes.Highest(Severities(group));
      var comment := MergeComments(group);
      merged := merged + [Merged(keys[i].0, keys[i].1, severity, comment)];
    }
  }

  method DeduplicateSuggestions(all: seq<Suggestion>) returns (merged: seq<Merged>)
    ensures merged == Deduplicate(all)
  {
    var keys: seq<Location> := [];
    var groups: map<Location, seq<Suggestion>> := map[];
    for i := 0 to |all|
      invariant Grouped(all[..i], keys, groups)
    {
      assert all[..i + 1] == all[..i] + [all[i]];
      keys, groups := AddToGroup(all[..i], keys, groups, all[i]);
    }
    assert all[..|all|] == all;
    GroupsAreInhabited(all);
    merged := MergeGroups(keys, groups);
    assert merged == MergeAll(all);
    merged := Sorting.Sort(merged, Before);
  }

  // ----- What the merge guarantees -----

  lemma BeforeIsOrder()
    ensures Sorting.TotalPreorder(Before)
  {
    forall a, b ensures Before(a, b) || Before(b, a) { TextLeTotal(a.file, b.file); }
    forall a, b, c | Before(a, b) && Before(b, c) ensures Before(a, c) {
      if TextLe(a.file, b.file) && TextLe(b.file, c.file) {
        TextLeTransitive(a.file, b.file, c.file);
      }
    }
  }

  lemma EntryOf(all: seq<Suggestion>, m: Merged)
    requires m in Deduplicate(all)
    ensures Group(all, Place(m)) != [] && m == MergeGroup(Place(m), Group(all, Place(m)))
  {
    GroupsAreInhabited(all);
    Sorting.SortPermutes(MergeAll(all), Before);
    var i :| 0 <= i < |MergeAll(all)| && MergeAll(all)[i] == m;
  }

  lemma EntryFor(all: seq<Suggestion>, at: Location) returns (m: Merged)
    requires at in Locations(all)
    ensures m in Deduplicate(all) && Place(m) == at
  {
    GroupsAreInhabited(all);
    Sorting.SortPermutes(MergeAll(all), Before);
    var i :| 0 <= i < |Distinct(Locations(all))| && Distinct(Locations(all))[i] == at;
    m := MergeAll(all)[i];
    assert m in MergeAll(all);
  }

  // `a` may stand before `b`: it is more severe, or as severe and its file comes first.
  ghost predicate MayPrecede(a: Merged, b: Merged) {
    Votes.AsSevere(a.severity, b.severity) && (Votes.AsSevere(b.severity, a.severity) ==> ComesFirst(a.file, b.file))
  }

  lemma BeforeMeans(a: Merged, b: Merged)
    ensures Before(a, b) <==> MayPrecede(a, b)
  {
    Votes.RankIsSeverity(a.severity, b.severity);
    Votes.RankIsSeverity(b.severity, a.severity);
    TextLeMeans(a.file, b.file);
  }

  /** Entries of one severity and file stay in the order in which their locations first occur in the input. */
  lemma EqualEntriesStayInOrder(all: seq<Suggestion>, severity: string, file: string)
    ensures var same := (m: Merged) => m.severity == severity && m.file == file;
      Filter(Deduplicate(all), same) == Filter(MergeAll(all), same)
    ensures |MergeAll(all)| == |Distinct(Locations(all))|
    ensures forall i :: 0 <= i < |MergeAll(all)| ==> Place(MergeAll(all)[i]) == Distinct(Locations(all))[i]
  {
    var same := (m: Merged) => m.severity == severity && m.file == file;
    TextLeTotal(file, file);
    Sorting.SortIsStable(MergeAll(all), Before, same);
    GroupsAreInhabited(all);
  }

  /** Exactly one entry per location named in the input, severest first and then by file. */
  lemma OneEntryPerLocation(all: seq<Suggestion>)
    ensures var r := Deduplicate(all);
      && (forall i, j :: 0 <= i < j < |r| ==> Place(r[i]) != Place(r[j]))
      && (forall at :: (exists m :: m in r && Place(m) == at) <==> at in Locations(all))
      && Sorting.Sorted(r, Before)
      && forall i, j :: 0 <= i < j < |r| ==> MayPrecede(r[i], r[j])
  {
    var r, unsorted := Deduplicate(all), MergeAll(all);
    Sorting.SortPermutes(unsorted, Before);
    BeforeIsOrder();
    Sorting.SortSorts(unsorted, Before);
    GroupsAreInhabited(all);
    assert forall i :: 0 <= i < |unsorted| ==> Place(unsorted[i]) == Distinct(Locations(all))[i];
    PermutationKeepsNoRepeats(unsorted, r);
    forall i, j | 0 <= i < j < |r| ensures MayPrecede(r[i], r[j]) {
      BeforeMeans(r[i], r[j]);
    }
    hide MayPrecede, Before;
    forall i, j | 0 <= i < j < |r| ensures Place(r[i]) != Place(r[j]) {
      assert r[i] in r && r[j] in r;
      EntryOf(all, r[i]);
      EntryOf(all, r[j]);
    }
    forall at ensures (exists m :: m in r && Place(m) == at) <==> at in Locations(all) {
      if at in Locations(all) {
        var m := EntryFor(all, at);
      }
      if m :| m in r && Place(m) == at {
        EntryOf(all, m);
        assert at in Distinct(Locations(all));
      }
    }
  }

  lemma {:induction false} GroupPlace(all: seq<Suggestion>, at: Location, k: nat) returns (i: nat)
    requires k < |Group(all, at)|
    ensures i < |all| && all[i] == Group(all, at)[k] && Where(all[i]) == at
    ensures forall j :: 0 <= j < i && Where(all[j]) == at ==> exists l :: 0 <= l < k && Group(all, at)[l] == all[j]
    decreases |all|
  {
    var n := |all| - 1;
    var before := Group(all[..n], at);
    if k < |before| {
      i := GroupPlace(all[..n], at, k);
      forall j | 0 <= j < i && Where(all[j]) == at ensures exists l :: 0 <= l < k && Group(all, at)[l] == all[j] {
        assert all[..n][j] == all[j];
        var l :| 0 <= l < k && before[l] == all[j];
        assert Group(all, at)[l] == all[j];
      }
    } else {
      i := n;
      forall j | 0 <= j < n && Where(all[j]) == at ensures exists l :: 0 <= l < k && Group(all, at)[l] == all[j] {
        assert all[..n][j] in before;
        var l :| 0 <= l < |before| && before[l] == all[j];
        assert Group(all, at)[l] == all[j];
      }
    }
  }

  /**
   An entry has the severity of the first of the suggestions for its location that are as severe as all of them; a
   missing severity counts as low.
   */
  lemma EntryHasHighestSeverity(all: seq<Suggestion>, m: Merged) returns (i: nat)
    requires m in Deduplicate(all)
    ensures i < |all| && Where(all[i]) == Place(m) && m.severity == OrElse(all[i].severity, "low")
    ensures forall s :: s in all && Where(s) == Place(m) ==> Votes.AsSevere(m.severity, OrElse(s.severity, "low"))
    ensures forall j :: 0 <= j < i && Where(all[j]) == Place(m) ==> !Votes.AsSevere(OrElse(all[j].severity, "low"), m.severity)
  {
    EntryOf(all, m);
    var group := Group(all, Place(m));
    var severities := Severities(group);
    var k := Votes.HighestIsFirst(severities);
    i := GroupPlace(all, Place(m), k);
    assert severities[k] == SeverityOf(all[i]) && m.severity == severities[k];
    forall x, y ensures Votes.SeverityRank(x) >= Votes.SeverityRank(y) <==> Votes.AsSevere(x, y) {
      Votes.RankIsSeverity(x, y);
    }
    forall s | s in all && Where(s) == Place(m) ensures Votes.AsSevere(m.severity, OrElse(s.severity, "low")) {
      assert s in group;
      var j :| 0 <= j < |group| && group[j] == s;
      assert severities[j] == SeverityOf(s);
    }
    forall j | 0 <= j < i && Where(all[j]) == Place(m) ensures !Votes.AsSevere(OrElse(all[j].severity, "low"), m.severity) {
      var l :| 0 <= l < k && group[l] == all[j];
      assert severities[l] == SeverityOf(all[j]);
    }
  }

  // `c` is one of the comments, or one of them covers it.
  ghost predicate Represented(comments: seq<string>, c: string) {
    c in comments || exists prev :: prev in comments && Covered(c, prev)
  }

  lemma KeptSnoc(group: seq<Suggestion>) returns (last: string)
    requires group != []
    ensures last == CommentOf(group[|group| - 1])
    ensures var before := Kept(group[..|group| - 1]);
      Represented(Kept(group), last)
      && (Kept(group) == before || (Kept(group) == before + [last] && forall prev :: prev in before ==> !Covered(last, prev)))
  {
    last := CommentOf(group[|group| - 1]);
  }

  lemma {:induction false} AllAreRepresented(group: seq<Suggestion>)
    ensures forall s :: s in group ==> Represented(Kept(group), CommentOf(s))
    decreases |group|
  {
    if group != [] {
      var before := Kept(group[..|group| - 1]);
      AllAreRepresented(group[..|group| - 1]);
      var last := KeptSnoc(group);
      forall s | s in group ensures Represented(Kept(group), CommentOf(s)) {
        if s in group[..|group| - 1] {
          assert Represented(before, CommentOf(s));
        }
      }
    }
  }

  lemma {:induction false} KeptComments(group: seq<Suggestion>)
    ensures forall c :: c in Kept(group) ==> exists s :: s in group && CommentOf(s) == c
    ensures forall i, j :: 0 <= i < j < |Kept(group)| ==> !Covered(Kept(group)[j], Kept(group)[i])
    decreases |group|
  {
    if group != [] {
      KeptComments(group[..|group| - 1]);
      var last := KeptSnoc(group);
      assert group[|group| - 1] in group;
    }
  }

  lemma OccursLater(before: string, s: string, p: string, i: nat)
    requires i <= |s| && OccursAt(s, p, i)
    ensures Contains(before + s, p)
  {
    var at := |before| + i;
    assert (before + s)[at..at + |p|] == s[i..i + |p|];
    assert OccursAt(before + s, p, at);
  }

  lemma {:induction false} JoinShows(parts: seq<string>, k: nat, sep: string)
    requires k < |parts|
    ensures Contains(Join(parts, sep), parts[k])
    decreases |parts|
  {
    if k == 0 {
      assert OccursAt(Join(parts, sep), parts[0], 0);
    } else {
      var rest := Join(parts[1..], sep);
      JoinShows(parts[1..], k - 1, sep);
      var i :| 0 <= i <= |rest| && OccursAt(rest, parts[k], i);
      OccursLater(parts[0] + sep, rest, parts[k], i);
    }
  }

  // The entry shows the first thousand characters of a comment.
  ghost predicate Shows(m: Merged, comment: string) {
    Contains(m.comment, if |comment| <= 1000 then comment else comment[..1000])
  }

  // At least 80% of the different words of `c`, in lower case, are words of `prev`.
  ghost predicate SharesMost(c: string, prev: string) {
    var words := set w | w in Words(LowerText(c));
    var shared := set w | w in Words(LowerText(c)) && w in Words(LowerText(prev));
    100 * |shared| >= 80 * (if words == {} then 1 else |words|)
  }

  lemma CoveredMeans(c: string, prev: string)
    ensures Covered(c, prev) <==> SharesMost(c, prev)
  {
    assert Tokens(c) * Tokens(prev) == set w | w in Words(LowerText(c)) && w in Words(LowerText(prev));
    assert Tokens(c) == set w | w in Words(LowerText(c));
    assert |Tokens(c)| > 0 <==> Tokens(c) != {};
  }

  // `c` is the comment of a suggestion for the location of `m`, and `m` shows it.
  ghost predicate ShownComment(all: seq<Suggestion>, m: Merged, c: string) {
    Shows(m, c) && exists s :: s in all && Where(s) == Place(m) && CommentOf(s) == c
  }

  /** No comment is lost: the entry shows it, or shows another that has at least 80% of its words. */
  lemma NoCommentIsLost(all: seq<Suggestion>, s: Suggestion) returns (m: Merged)
    requires s in all
    ensures m in Deduplicate(all) && Place(m) == Where(s)
    ensures Shows(m, CommentOf(s)) || exists prev :: ShownComment(all, m, prev) && SharesMost(CommentOf(s), prev)
  {
    var n :| 0 <= n < |all| && all[n] == s;
    assert Locations(all)[n] == Where(s);
    m := EntryFor(all, Where(s));
    EntryOf(all, m);
    var group := Group(all, Where(s));
    KeptComments(group);
    AllAreRepresented(group);
    var c := CommentOf(s);
    var shown := if c in Kept(group) then c else var prev :| prev in Kept(group) && Covered(c, prev); prev;
    var k :| 0 <= k < |Kept(group)| && Kept(group)[k] == shown;
    JoinShows(Cuts(Kept(group)), k, SEPARATOR);
    assert Shows(m, shown);
    var t :| t in group && CommentOf(t) == shown;
    assert ShownComment(all, m, shown);
    CoveredMeans(c, shown);
  }

  // The places in the input of the comments an entry for `place` shows: increasing, and each place of the location
  // is among them exactly if no comment at an earlier one of them shares most of its words.
  ghost predicate ShownPlaces(all: seq<Suggestion>, place: Location, at: seq<nat>) {
    && (forall j :: 0 <= j < |at| ==> at[j] < |all|)
    && (forall i, j :: 0 <= i < j < |at| ==> at[i] < at[j])
    && forall i: nat :: i in at <==> i < |all| && NotSharedBefore(all, place, at, i)
  }

  ghost predicate NotSharedBefore(all: seq<Suggestion>, place: Location, at: seq<nat>, i: nat)
    requires i < |all| && forall j :: 0 <= j < |at| ==> at[j] < |all|
  {
    Where(all[i]) == place
    && forall j :: 0 <= j < |at| && at[j] < i ==> !SharesMost(CommentOf(all[i]), CommentOf(all[at[j]]))
  }

  function CommentsAt(all: seq<Suggestion>, at: seq<nat>): seq<string>
    requires forall j :: 0 <= j < |at| ==> at[j] < |all|
  {
    seq(|at|, j requires 0 <= j < |at| => CommentOf(all[at[j]]))
  }

  lemma NotSharedSnoc(all: seq<Suggestion>, s: Suggestion, place: Location, at: seq<nat>, last: seq<nat>, i: nat)
    requires i < |all| && (forall j :: 0 <= j < |at| ==> at[j] < |all|) && (last == [] || last == [|all|])
    ensures NotSharedBefore(all + [s], place, at + last, i) <==> NotSharedBefore(all, place, at, i)
  {
    var all', at' := all + [s], at + last;
    hide SharesMost, CommentOf, Where;
    assert forall j :: 0 <= j < |at| ==> at'[j] == at[j] && all'[at'[j]] == all[at[j]];
    assert forall j :: |at| <= j < |at'| ==> at'[j] > i;
  }

  lemma LastNotShared(all: seq<Suggestion>, s: Suggestion, place: Location, at: seq<nat>, last: seq<nat>)
    requires (forall j :: 0 <= j < |at| ==> at[j] < |all|) && (last == [] || last == [|all|])
    ensures NotSharedBefore(all + [s], place, at + last, |all|) <==>
      Where(s) == place && forall j :: 0 <= j < |at| ==> !SharesMost(CommentOf(s), CommentOf(all[at[j]]))
  {
    var all', at' := all + [s], at + last;
    hide SharesMost, CommentOf, Where;
    assert forall j :: 0 <= j < |at| ==> at'[j] == at[j] && all'[at'[j]] == all[at[j]];
  }

  lemma ShownPlacesSnoc(all: seq<Suggestion>, s: Suggestion, place: Location, at: seq<nat>, more: bool)
    requires ShownPlaces(all, place, at)
    requires more <==> Where(s) == place && forall j :: 0 <= j < |at| ==> !SharesMost(CommentOf(s), CommentOf(all[at[j]]))
    ensures ShownPlaces(all + [s], place, at + if more then [|all|] else [])
  {
    var last := if more then [|all|] else [];
    LastNotShared(all, s, place, at, last);
    hide SharesMost, CommentOf, Where;
    forall i: nat | i < |all|
      ensures NotSharedBefore(all + [s], place, at + last, i) <==> NotSharedBefore(all, place, at, i)
    {
      NotSharedSnoc(all, s, place, at, last, i);
    }
    hide NotSharedBefore;
  }

  // The comments a group keeps, if they are those at `at`.
  lemma KeptPlacesSnoc(all: seq<Suggestion>, s: Suggestion, place: Location, at: seq<nat>) returns (at': seq<nat>)
    requires ShownPlaces(all, place, at) && Kept(Group(all, place)) == CommentsAt(all, at)
    ensures ShownPlaces(all + [s], place, at') && Kept(Group(all + [s], place)) == CommentsAt(all + [s], at')
  {
    var more := Where(s) == place && !exists prev :: prev in CommentsAt(all, at) && Covered(CommentOf(s), prev);
    GroupSnoc(all, s, place);
    KeptOneMore(Group(all, place), s);
    CoveredAnywhere(all, at, CommentOf(s));
    ShownPlacesSnoc(all, s, place, at, more);
    at' := at + if more then [|all|] else [];
    hide Kept, Group, Covered, SharesMost, ShownPlaces, CommentOf, Where;
    assert CommentsAt(all + [s], at') == CommentsAt(all, at) + if more then [CommentOf(s)] else [];
  }

  lemma {:induction false} KeptPlaces(all: seq<Suggestion>, place: Location) returns (at: seq<nat>)
    ensures ShownPlaces(all, place, at) && Kept(Group(all, place)) == CommentsAt(all, at)
    decreases |all|
  {
    if all == [] {
      at := [];
    } else {
      var n := |all| - 1;
      at := KeptPlaces(all[..n], place);
      at := KeptPlacesSnoc(all[..n], all[n], place, at);
      assert all == all[..n] + [all[n]];
    }
  }

  lemma KeptOneMore(group: seq<Suggestion>, s: Suggestion)
    ensures Kept(group + [s])
         == if exists prev :: prev in Kept(group) && Covered(CommentOf(s), prev) then Kept(group)
            else Kept(group) + [CommentOf(s)]
  {
    assert (group + [s])[..|group|] == group;
  }

  lemma CoveredAnywhere(all: seq<Suggestion>, at: seq<nat>, c: string)
    requires forall j :: 0 <= j < |at| ==> at[j] < |all|
    ensures (exists prev :: prev in CommentsAt(all, at) && Covered(c, prev))
       <==> exists j :: 0 <= j < |at| && SharesMost(c, CommentOf(all[at[j]]))
  {
    forall prev ensures Covered(c, prev) <==> SharesMost(c, prev) {
      CoveredMeans(c, prev);
    }
    hide Covered, SharesMost, CommentOf;
    forall j | 0 <= j < |at| ensures CommentsAt(all, at)[j] == CommentOf(all[at[j]]) {
    }
  }

  function FirstThousand(comments: seq<string>): seq<string> {
    seq(|comments|, i requires 0 <= i < |comments| => if |comments[i]| <= 1000 then comments[i] else comments[i][..1000])
  }

  /**
   An entry's comment joins, in the order of the input, the first thousand characters of those comments for its
   location that do not share most of their words with one joined before.
   */
  lemma NothingIsInvented(all: seq<Suggestion>, m: Merged) returns (at: seq<nat>)
    requires m in Deduplicate(all)
    ensures ShownPlaces(all, Place(m), at)
    ensures m.comment == Join(FirstThousand(CommentsAt(all, at)), " | ")
  {
    EntryOf(all, m);
    at := KeptPlaces(all, Place(m));
    assert Cuts(CommentsAt(all, at)) == FirstThousand(CommentsAt(all, at));
  }

  // ----- Merging twice -----

  function AsSuggestion(m: Merged): Suggestion {
    Suggestion(Some(m.file), m.lineHint, Some(m.severity), Some(m.comment))
  }

  function AsSuggestions(r: seq<Merged>): seq<Suggestion> {
    seq(|r|, i requires 0 <= i < |r| => AsSuggestion(r[i]))
  }

  lemma DifferentPlaces(all: seq<Suggestion>, j: nat, n: nat)
    requires j < n < |all| && NoRepeats(Locations(all))
    ensures Where(all[j]) != Where(all[n])
  {
    assert Locations(all)[j] != Locations(all)[n];
  }

  lemma {:induction false} GroupOfOne(all: seq<Suggestion>, i: nat)
    requires i < |all| && NoRepeats(Locations(all))
    ensures Group(all, Where(all[i])) == [all[i]]
    decreases |all|
  {
    var n := |all| - 1;
    var rest := all[..n];
    assert Locations(rest) == Locations(all)[..n];
    assert Locations(all)[n] == Where(all[n]) && Locations(all)[i] == Where(all[i]);
    if i < n {
      GroupOfOne(rest, i);
    } else {
      if Group(rest, Where(all[n])) != [] {
        var s := Group(rest, Where(all[n]))[0];
        assert s in rest;
        var j :| 0 <= j < n && rest[j] == s;
        DifferentPlaces(all, j, n);
        assert false;
      }
    }
  }

  // `again` is `m` with its comment trimmed and cut.
  predicate Recut(m: Merged, again: Merged) {
    again == m.(comment := Cut(Trim(m.comment)))
  }

  lemma {:induction false} TrimLeftShortens(s: string)
    ensures |TrimLeft(s)| <= |s|
    decreases |s|
  {
    if s != "" && IsSpace(s[0]) {
      TrimLeftShortens(s[1..]);
    }
  }

  lemma {:induction false} TrimRightShortens(s: string)
    ensures |TrimRight(s)| <= |s|
    decreases |s|
  {
    if s != "" && IsSpace(s[|s| - 1]) {
      TrimRightShortens(s[..|s| - 1]);
    }
  }

  // The comment of `m` survives another merge.
  predicate IsSettled(m: Merged) {
    Trim(m.comment) == m.comment && |m.comment| <= SHOWN
  }

  lemma RecutKeepsIff(m: Merged, again: Merged)
    requires Recut(m, again)
    ensures again == m <==> IsSettled(m)
  {
    TrimLeftShortens(m.comment);
    TrimRightShortens(TrimLeft(m.comment));
  }

  /**
   Merging the result again keeps every location and severity in place, and only trims and cuts the
   comments; it changes nothing exactly when the comments were already trimmed and short.
   */
  lemma MergingAgain(all: seq<Suggestion>)
    ensures var r, again := Deduplicate(all), Deduplicate(AsSuggestions(Deduplicate(all)));
      && |again| == |r| && (forall i :: 0 <= i < |r| ==> Recut(r[i], again[i]))
      && (again == r <==> forall m :: m in r ==> IsSettled(m))
  {
    var r := Deduplicate(all);
    var once := AsSuggestions(r);
    MergedAgain(all);
    var again := Deduplicate(once);
    forall i | 0 <= i < |r| ensures again[i] == r[i] <==> IsSettled(r[i]) {
      RecutKeepsIff(r[i], again[i]);
    }
    if forall m :: m in r ==> IsSettled(m) {
      forall i | 0 <= i < |r| ensures again[i] == r[i] {
        assert r[i] in r;
      }
    }
  }

  lemma MergedAgain(all: seq<Suggestion>)
    ensures var r, again := Deduplicate(all), Deduplicate(AsSuggestions(Deduplicate(all)));
      |again| == |r| && forall i :: 0 <= i < |r| ==> Recut(r[i], again[i])
  {
    var r := Deduplicate(all);
    var once := AsSuggestions(r);
    var at := Locations(once);
    OneEntryPerLocation(all);
    assert forall i :: 0 <= i < |r| ==> at[i] == Place(r[i]);
    DistinctOfDistinct(at);
    GroupsAreInhabited(once);
    var unsorted := MergeAll(once);
    forall i | 0 <= i < |r| ensures Recut(r[i], unsorted[i]) {
      GroupOfOne(once, i);
      RecutGroup(r[i]);
    }
    forall i, j | 0 <= i < j < |r| ensures Before(unsorted[i], unsorted[j]) {
      assert Recut(r[i], unsorted[i]) && Recut(r[j], unsorted[j]) && Before(r[i], r[j]);
    }
    Sorting.SortKeepsSorted(unsorted, Before);
  }

  lemma RecutGroup(m: Merged)
    ensures Recut(m, MergeGroup(Place(m), [AsSuggestion(m)]))
  {
    var group := [AsSuggestion(m)];
    assert group[..0] == [];
    assert Severities(group) == [m.severity];
    assert Kept(group) == [Trim(m.comment)];
    assert Cuts(Kept(group)) == [Cut(Trim(m.comment))];
  }
  /** Any two suggestions for one place whose comments are kept and long together: merging again cuts their entry. */
  lemma LongPairIsCut(s: Suggestion, t: Suggestion)
    requires Where(s) == Where(t) && !Covered(CommentOf(t), CommentOf(s))
    requires |Cut(CommentOf(s))| + |SEPARATOR| + |Cut(CommentOf(t))| > SHOWN
    ensures var r := Deduplicate([s, t]);
      && |r| == 1 && r[0].comment == Cut(CommentOf(s)) + SEPARATOR + Cut(CommentOf(t))
      && Deduplicate(AsSuggestions(r)) != r
  {
    var all, at := [s, t], Where(s);
    OneEntryOnly(all, at);
    PairMerged(s, t);
    assert !IsSettled(Deduplicate(all)[0]);
    MergingAgain(all);
  }

  lemma PairMerged(s: Suggestion, t: Suggestion)
    requires Where(s) == Where(t) && !Covered(CommentOf(t), CommentOf(s))
    ensures MergedComment(Group([s, t], Where(s))) == Cut(CommentOf(s)) + SEPARATOR + Cut(CommentOf(t))
  {
    PairKept(s, t);
    var a, b := Cut(CommentOf(s)), Cut(CommentOf(t));
    hide Group, Kept, CommentOf, Cut;
    assert Cuts(Kept(Group([s, t], Where(s)))) == [a] + [b];
    JoinCons(a, [b], SEPARATOR);
  }

  lemma PairKept(s: Suggestion, t: Suggestion)
    requires Where(s) == Where(t) && !Covered(CommentOf(t), CommentOf(s))
    ensures Kept(Group([s, t], Where(s))) == [CommentOf(s), CommentOf(t)]
  {
    hide Covered, CommentOf, Where;
    var none: seq<Suggestion> := [];
    assert [s] == none + [s] && [s, t] == [s] + [t];
    GroupSnoc(none, s, Where(s));
    GroupSnoc([s], t, Where(s));
    KeptMore(none, s);
    KeptMore([s], t);
    assert Group([s, t], Where(s)) == [s] + [t];
  }

  lemma KeptMore(group: seq<Suggestion>, s: Suggestion)
    requires forall prev :: prev in Kept(group) ==> !Covered(CommentOf(s), prev)
    ensures Kept(group + [s]) == Kept(group) + [CommentOf(s)]
  {
    assert (group + [s])[..|group|] == group;
  }

  lemma OneEntryOnly(all: seq<Suggestion>, at: Location)
    requires all != [] && forall s :: s in all ==> Where(s) == at
    ensures Deduplicate(all) == [MergeGroup(at, Group(all, at))]
  {
    assert Locations(all)[0] == Where(all[0]) == at;
    var m := EntryFor(all, at);
    OneEntryPerLocation(all);
    var r := Deduplicate(all);
    forall i | 0 <= i < |r| ensures Place(r[i]) == at {
      assert r[i] in r && exists m :: m in r && Place(m) == Place(r[i]);
      assert Place(r[i]) in Locations(all);
    }
    assert |r| > 1 ==> Place(r[0]) != Place(r[1]);
    assert |r| == 1;
    EntryOf(all, r[0]);
  }

  /** Two different words, case aside, are such comments: neither is covered by the other. */
  lemma DifferentWordsAreKept(a: string, b: string)
    requires IsWord(a) && IsWord(b) && LowerText(a) != LowerText(b)
    ensures !Covered(a, b) && Trim(a) == a
  {
    LowerWord(a);
    LowerWord(b);
    FirstWord(LowerText(a), "");
    FirstWord(LowerText(b), "");
    assert LowerText(a) + "" == LowerText(a) && LowerText(b) + "" == LowerText(b);
    assert Tokens(a) == {LowerText(a)} && Tokens(b) == {LowerText(b)};
    assert a[0] in a && a[|a| - 1] in a;
  }

  lemma LowerWord(a: string)
    requires IsWord(a)
    ensures IsWord(LowerText(a))
  {
    var low := LowerText(a);
    forall c | c in low ensures !IsSpace(c) {
      var i :| 0 <= i < |low| && low[i] == c;
      assert a[i] in a;
    }
  }
}
