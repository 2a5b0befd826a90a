/**
 Majority votes over labels: the severity vote of the review merger and the category vote of the
 neighbour retrieval, with the retrieval that feeds it.
 */
module Votes {
  import opened Wrappers
  import opened PyText
  import opened FirstSeen
  import Sorting = StableSort

  function Count(s: seq<string>, x: string): nat {
    multiset(s)[x]
  }

  function MaxCount(s: seq<string>, keys: seq<string>): nat {
    if keys == [] then 0
    else
      var rest := MaxCount(s, keys[1..]);
      if Count(s, keys[0]) > rest then Count(s, keys[0]) else rest
  }

  function WithCount(s: seq<string>, keys: seq<string>, n: nat): seq<string> {
    if keys == [] then []
    else if Count(s, keys[0]) == n then [keys[0]] + WithCount(s, keys[1..], n)
    else WithCount(s, keys[1..], n)
  }

  /** The labels of maximal count, in order of first occurrence. */
  function Candidates(s: seq<string>): seq<string> {
    WithCount(s, Distinct(s), MaxCount(s, Distinct(s)))
  }

  function SeverityRank(s: string): nat {
    if s == "critical" then 3 else if s == "high" then 2 else if s == "medium" then 1 else 0
  }

  /** `max(candidates, key=rank)`: the first of the highest rank. */
  function Highest(candidates: seq<string>): string
    requires candidates != []
  {
    if |candidates| == 1 then candidates[0]
    else
      var rest := Highest(candidates[1..]);
      if SeverityRank(candidates[0]) >= SeverityRank(rest) then candidates[0] else rest
  }

  lemma {:induction false} MaxCountIsMax(s: seq<string>, keys: seq<string>)
    ensures forall x :: x in keys ==> Count(s, x) <= MaxCount(s, keys)
    ensures keys != [] ==> exists x :: x in keys && Count(s, x) == MaxCount(s, keys)
    decreases |keys|
  {
    if keys != [] {
      MaxCountIsMax(s, keys[1..]);
      assert keys[0] in keys && forall x :: x in keys[1..] ==> x in keys;
    }
  }

  lemma {:induction false} WithCountElements(s: seq<string>, keys: seq<string>, n: nat)
    ensures forall x :: x in WithCount(s, keys, n) <==> x in keys && Count(s, x) == n
    decreases |keys|
  {
    if keys != [] {
      WithCountElements(s, keys[1..], n);
    }
  }

  // `x` occurs in `s` and no label occurs more often.
  ghost predicate Winner(s: seq<string>, x: string) {
    x in s && forall y :: y in s ==> Count(s, y) <= Count(s, x)
  }

  lemma CandidatesAreWinners(s: seq<string>)
    ensures forall x :: x in Candidates(s) <==> Winner(s, x)
    ensures s != [] ==> Candidates(s) != []
  {
    var keys := Distinct(s);
    MaxCountIsMax(s, keys);
    WithCountElements(s, keys, MaxCount(s, keys));
    if s != [] {
      assert s[0] in keys;
      var x :| x in keys && Count(s, x) == MaxCount(s, keys);
      assert x in Candidates(s);
    }
  }

  lemma {:induction false} HighestIsFirstTop(candidates: seq<string>)
    requires candidates != []
    ensures Highest(candidates) in candidates
    ensures forall x :: x in candidates ==> SeverityRank(x) <= SeverityRank(Highest(candidates))
    ensures SeverityRank(candidates[0]) == SeverityRank(Highest(candidates)) ==> Highest(candidates) == candidates[0]
    decreases |candidates|
  {
    if |candidates| > 1 {
      HighestIsFirstTop(candidates[1..]);
    }
  }

  // ----- The severity vote -----

  function MajoritySeverity(s: seq<string>): string {
    if s == [] || Candidates(s) == [] then "medium" else Highest(Candidates(s))
  }

  // The tally of `s`: its labels in order of first occurrence, and the count of each.
  ghost predicate Tallied(s: seq<string>, keys: seq<string>, counts: map<string, nat>) {
    && keys == Distinct(s)
    && (forall x :: x in counts <==> x in s)
    && forall x :: x in counts ==> counts[x] == Count(s, x)
  }

  method CountVote(ghost s: seq<string>, keys: seq<string>, counts: map<string, nat>, v: string)
    returns (keys': seq<string>, counts': map<string, nat>)
    requires Tallied(s, keys, counts)
    ensures Tallied(s + [v], keys', counts')
  {
    DistinctSnoc(s, v);
    forall x ensures Count(s + [v], x) == Count(s, x) + if x == v then 1 else 0 {
      assert multiset(s + [v]) == multiset(s) + multiset{v};
    }
    if v !in counts {
      keys', counts' := keys + [v], counts[v := 1];
    } else {
      keys', counts' := keys, counts[v := counts[v] + 1];
    }
  }

  method TallyVotes(s: seq<string>) returns (keys: seq<string>, counts: map<string, nat>)
    ensures Tallied(s, keys, counts)
  {
    keys, counts := [], map[];
    for i := 0 to |s|
      invariant Tallied(s[..i], keys, counts)
    {
      assert s[..i + 1] == s[..i] + [s[i]];
      keys, counts := CountVote(s[..i], keys, counts, s[i]);
    }
    assert s[..|s|] == s;
  }

  method HighestCount(ghost s: seq<string>, keys: seq<string>, counts: map<string, nat>) returns (maxCount: nat)
    requires Tallied(s, keys, counts)
    ensures maxCount == MaxCount(s, keys)
  {
    maxCount := 0;
    assert keys[0..] == keys;
    for i := 0 to |keys|
      invariant MaxCount(s, keys) == if maxCount > MaxCount(s, keys[i..]) then maxCount else MaxCount(s, keys[i..])
    {
      assert keys[i..][1..] == keys[i + 1..] && keys[i] in keys;
      if counts[keys[i]] > maxCount {
        maxCount := counts[keys[i]];
      }
    }
  }

  // The labels of highest count, read off the tally of `s`.
  method MostVoted(ghost s: seq<string>, keys: seq<string>, counts: map<string, nat>) returns (candidates: seq<string>)
    requires Tallied(s, keys, counts)
    ensures candidates == Candidates(s)
  {
    var maxCount := HighestCount(s, keys, counts);
    candidates := [];
    for i := 0 to |keys|
      invariant WithCount(s, keys, maxCount) == candidates + WithCount(s, keys[i..], maxCount)
    {
      assert keys[i..][1..] == keys[i + 1..] && keys[i] in keys;
      if counts[keys[i]] == maxCount {
        candidates := candidates + [keys[i]];
      }
    }
  }

  method VoteSeverity(s: seq<string>) returns (r: string)
    ensures r == MajoritySeverity(s)
  {
    if s == [] {
      return "medium";
    }
    var keys, counts := TallyVotes(s);
    var candidates := MostVoted(s, keys, counts);
    CandidatesAreWinners(s);
    r := Highest(candidates);
  }

  // The winners of highest rank; the vote returns one of them.
  ghost predicate TopWinner(s: seq<string>, x: string) {
    Winner(s, x) && forall y :: Winner(s, y) ==> SeverityRank(y) <= SeverityRank(x)
  }

  /** The vote returns a label of maximal count and, among those, of the highest rank. */
  lemma SeverityVoteIsTop(s: seq<string>)
    requires s != []
    ensures TopWinner(s, MajoritySeverity(s))
  {
    CandidatesAreWinners(s);
    HighestIsFirstTop(Candidates(s));
  }

  // The severities in their order; a label that is none of them counts as low.
  predicate AsSevere(a: string, b: string) {
    match b
    case "critical" => a == "critical"
    case "high" => a in {"critical", "high"}
    case "medium" => a in {"critical", "high", "medium"}
    case _ => true
  }

  lemma RankIsSeverity(a: string, b: string)
    ensures SeverityRank(a) >= SeverityRank(b) <==> AsSevere(a, b)
  {
  }

  // No label occurs more often than `x`, and none that occurs as often is more severe.
  ghost predicate Leads(s: seq<string>, x: string) {
    x in s && forall y :: y in s ==> multiset(s)[y] <= multiset(s)[x] && (multiset(s)[y] == multiset(s)[x] ==> AsSevere(x, y))
  }

  lemma {:induction false} CandidatesInOrder(s: seq<string>, keys: seq<string>, n: nat, i: nat, j: nat)
    returns (k: nat, l: nat)
    requires i < j < |WithCount(s, keys, n)|
    ensures k < l < |keys| && keys[k] == WithCount(s, keys, n)[i] && keys[l] == WithCount(s, keys, n)[j]
    decreases |keys|
  {
    var rest := WithCount(s, keys[1..], n);
    if Count(s, keys[0]) == n {
      if i == 0 {
        assert rest[j - 1] in rest;
        WithCountElements(s, keys[1..], n);
        k := 0;
        l :| 0 < l < |keys| && keys[l] == rest[j - 1];
      } else {
        k, l := CandidatesInOrder(s, keys[1..], n, i - 1, j - 1);
        k, l := k + 1, l + 1;
      }
    } else {
      k, l := CandidatesInOrder(s, keys[1..], n, i, j);
      k, l := k + 1, l + 1;
    }
  }

  lemma {:induction false} HighestIsFirst(candidates: seq<string>) returns (i: nat)
    requires candidates != []
    ensures i < |candidates| && candidates[i] == Highest(candidates)
    ensures forall j :: 0 <= j < i ==> SeverityRank(candidates[j]) < SeverityRank(Highest(candidates))
    ensures forall j :: 0 <= j < |candidates| ==> SeverityRank(candidates[j]) <= SeverityRank(Highest(candidates))
    decreases |candidates|
  {
    i := 0;
    if |candidates| > 1 {
      i := HighestIsFirst(candidates[1..]);
      i := if Highest(candidates) == candidates[0] then 0 else i + 1;
    }
  }

  /**
   The vote in plain terms: "medium" if there is none; otherwise, of the labels that lead, the one that was
   voted for first.
   */
  lemma VoteGoesToTheFirstLeader(s: seq<string>) returns (p: nat)
    ensures s == [] ==> MajoritySeverity(s) == "medium"
    ensures s != [] ==>
      p < |s| && s[p] == MajoritySeverity(s) && Leads(s, s[p]) && forall q :: 0 <= q < p ==> !Leads(s, s[q])
  {
    p := 0;
    if s != [] {
      SeverityVoteIsTop(s);
      CandidatesAreWinners(s);
      var r := MajoritySeverity(s);
      forall x, y ensures SeverityRank(x) >= SeverityRank(y) <==> AsSevere(x, y) {
        RankIsSeverity(x, y);
      }
      p := FirstOccurrence(s, r);
      forall q | 0 <= q < p ensures !Leads(s, s[q]) {
        if TopWinner(s, s[q]) {
          var first := OtherLeaderIsLater(s, s[q]);
        }
      }
      assert TopWinner(s, s[p]);
    }
  }

  lemma {:induction false} FirstOccurrence(s: seq<string>, x: string) returns (p: nat)
    requires x in s
    ensures p < |s| && s[p] == x && forall q :: 0 <= q < p ==> s[q] != x
    decreases |s|
  {
    p := 0;
    if s[0] != x {
      p := FirstOccurrence(s[1..], x);
      p := p + 1;
    }
  }

  lemma LeadersAreCandidates(s: seq<string>, x: string) returns (i: nat, j: nat)
    requires s != [] && TopWinner(s, x) && x != MajoritySeverity(s)
    ensures i < j < |Candidates(s)| && Candidates(s)[i] == MajoritySeverity(s) && Candidates(s)[j] == x
  {
    CandidatesAreWinners(s);
    SeverityVoteIsTop(s);
    var c := Candidates(s);
    assert x in c && SeverityRank(x) == SeverityRank(MajoritySeverity(s));
    hide Candidates, SeverityRank, Winner, TopWinner;
    i := HighestIsFirst(c);
    j :| 0 <= j < |c| && c[j] == x;
  }

  lemma OtherLeaderIsLater(s: seq<string>, x: string) returns (p: nat)
    requires s != [] && TopWinner(s, x) && x != MajoritySeverity(s)
    ensures p < |s| && s[p] == MajoritySeverity(s) && forall q :: 0 <= q <= p ==> s[q] != x
  {
    var i, j := LeadersAreCandidates(s, x);
    var k, l := CandidatesInOrder(s, Distinct(s), MaxCount(s, Distinct(s)), i, j);
    p := DistinctInOrder(s, k, l);
  }

  lemma SameVotesSameTop(s: seq<string>, t: seq<string>, x: string)
    requires multiset(s) == multiset(t)
    ensures TopWinner(s, x) <==> TopWinner(t, x)
  {
    assert forall y :: y in s <==> y in t by {
      forall y ensures y in s <==> y in t {
        assert y in multiset(s) <==> y in multiset(t);
      }
    }
    assert forall y :: Winner(s, y) <==> Winner(t, y);
  }

  // The label `x` moved to the front.
  function Fronted(s: seq<string>, i: nat): seq<string>
    requires i < |s|
  {
    [s[i]] + s[..i] + s[i + 1..]
  }

  lemma FrontedWins(s: seq<string>, x: string) returns (t: seq<string>)
    requires TopWinner(s, x)
    ensures multiset(t) == multiset(s) && MajoritySeverity(t) == x
  {
    var i :| 0 <= i < |s| && s[i] == x;
    t := Fronted(s, i);
    assert s == s[..i] + [s[i]] + s[i + 1..];
    assert multiset(t) == multiset(s);
    SameVotesSameTop(s, t, x);
    DistinctFirst(t);
    CandidatesAreWinners(t);
    var keys := Distinct(t);
    assert x in Candidates(t);
    MaxCountIsMax(t, keys);
    WithCountElements(t, keys, MaxCount(t, keys));
    assert Candidates(t)[0] == x;
    HighestIsFirstTop(Candidates(t));
  }

  /** The severity vote does not depend on the order of the votes if and only if no two labels tie at the top. */
  lemma SeverityVoteOrderIff(s: seq<string>)
    requires s != []
    ensures (forall t :: multiset(t) == multiset(s) ==> MajoritySeverity(t) == MajoritySeverity(s))
       <==> (forall x, y :: TopWinner(s, x) && TopWinner(s, y) ==> x == y)
  {
    if x, y :| TopWinner(s, x) && TopWinner(s, y) && x != y {
      var t := FrontedWins(s, x);
      var u := FrontedWins(s, y);
      assert MajoritySeverity(t) != MajoritySeverity(u);
    } else {
      forall t | multiset(t) == multiset(s) ensures MajoritySeverity(t) == MajoritySeverity(s) {
        assert |multiset(t)| == |t| && |multiset(s)| == |s|;
        SeverityVoteIsTop(s);
        SeverityVoteIsTop(t);
        SameVotesSameTop(s, t, MajoritySeverity(t));
      }
    }
  }

  /** On the four known severities it never depends on the order: a tie goes to the highest. */
  lemma KnownSeveritiesNeverTie(s: seq<string>, t: seq<string>)
    requires (forall x :: x in s ==> x in {"low", "medium", "high", "critical"}) && multiset(s) == multiset(t)
    ensures MajoritySeverity(s) == MajoritySeverity(t)
  {
    assert |multiset(t)| == |t| && |multiset(s)| == |s|;
    if s != [] {
      SeverityVoteOrderIff(s);
    }
  }

  // ----- The category vote -----

  function NonEmpty(s: seq<string>): seq<string> {
    if s == [] then [] else if s[0] != "" then [s[0]] + NonEmpty(s[1..]) else NonEmpty(s[1..])
  }

  /** `sorted(winners)[0]`; hits without a category do not vote. */
  function MajorityCategory(categories: seq<string>): Option<string> {
    var votes := NonEmpty(categories);
    var winners := Sorting.Sort(Candidates(votes), TextLe);
    if votes == [] || winners == [] then None else Some(winners[0])
  }

  lemma {:induction false} NonEmptyElements(s: seq<string>)
    ensures multiset(NonEmpty(s)) == multiset(s)["" := 0]
    ensures forall x :: x in NonEmpty(s) <==> x in s && x != ""
    decreases |s|
  {
    if s != [] {
      NonEmptyElements(s[1..]);
      assert s == [s[0]] + s[1..];
    }
  }

  lemma {:induction false} NonEmptySnoc(s: seq<string>, x: string)
    ensures NonEmpty(s + [x]) == if x != "" then NonEmpty(s) + [x] else NonEmpty(s)
    decreases |s|
  {
    if s != [] {
      assert (s + [x])[1..] == s[1..] + [x];
      NonEmptySnoc(s[1..], x);
    }
  }

  method TallyCategories(categories: seq<string>) returns (keys: seq<string>, votes: map<string, nat>)
    ensures Tallied(NonEmpty(categories), keys, votes)
  {
    keys, votes := [], map[];
    for i := 0 to |categories|
      invariant Tallied(NonEmpty(categories[..i]), keys, votes)
    {
      assert categories[..i + 1] == categories[..i] + [categories[i]];
      NonEmptySnoc(categories[..i], categories[i]);
      if categories[i] != "" {
        keys, votes := CountVote(NonEmpty(categories[..i]), keys, votes, categories[i]);
      }
    }
    assert categories[..|categories|] == categories;
  }

  method MajorityVoteCategory(categories: seq<string>) returns (winner: Option<string>, votes: map<string, nat>)
    ensures winner == MajorityCategory(categories)
    ensures votes.Keys == (set x | x in categories && x != "")
    ensures forall x :: x in votes ==> votes[x] == Count(categories, x)
  {
    var keys;
    keys, votes := TallyCategories(categories);
    ghost var counted := NonEmpty(categories);
    NonEmptyElements(categories);
    assert counted == [] || counted[0] in keys;
    if keys == [] {
      return None, votes;
    }
    var winners := MostVoted(counted, keys, votes);
    CandidatesAreWinners(counted);
    assert counted != [] by { assert keys[0] in keys; }
    Sorting.SortPermutes(winners, TextLe);
    winner := Some(Sorting.Sort(winners, TextLe)[0]);
  }

  lemma TextLeIsOrder()
    ensures Sorting.TotalPreorder(TextLe)
  {
    forall a, b ensures TextLe(a, b) || TextLe(b, a) { TextLeTotal(a, b); }
    forall a, b, c | TextLe(a, b) && TextLe(b, c) ensures TextLe(a, c) { TextLeTransitive(a, b, c); }
  }

  // The alphabetically least of the most frequent non-empty categories.
  ghost predicate Elected(categories: seq<string>, x: string) {
    var votes := NonEmpty(categories);
    Winner(votes, x) && forall y :: Winner(votes, y) ==> TextLe(x, y)
  }

  /** The vote elects the alphabetically least category of maximal count, if any hit has a category. */
  lemma CategoryVoteElects(categories: seq<string>)
    ensures MajorityCategory(categories).None? <==> forall x :: x in categories ==> x == ""
    ensures MajorityCategory(categories).Some? ==> Elected(categories, MajorityCategory(categories).value)
  {
    var votes := NonEmpty(categories);
    NonEmptyElements(categories);
    CandidatesAreWinners(votes);
    TextLeIsOrder();
    var winners := Sorting.Sort(Candidates(votes), TextLe);
    Sorting.SortPermutes(Candidates(votes), TextLe);
    Sorting.SortSorts(Candidates(votes), TextLe);
    if votes != [] {
      forall y | Winner(votes, y) ensures TextLe(winners[0], y) {
        assert y in winners;
        TextLeTotal(y, y);
      }
      assert votes[0] in votes && winners[0] in winners;
    } else {
      forall x | x in categories ensures x == "" {
        assert x !in votes;
      }
    }
  }

  /** The category vote does not depend on the order of the hits. */
  lemma CategoryVoteIgnoresOrder(s: seq<string>, t: seq<string>)
    requires multiset(s) == multiset(t)
    ensures MajorityCategory(s) == MajorityCategory(t)
  {
    NonEmptyElements(s);
    NonEmptyElements(t);
    CategoryVoteElects(s);
    CategoryVoteElects(t);
    assert forall x :: x in s <==> x in t by {
      forall x ensures x in s <==> x in t { assert x in multiset(s) <==> x in multiset(t); }
    }
    var u, v := NonEmpty(s), NonEmpty(t);
    assert forall x :: x in u <==> x in v;
    assert forall x :: Winner(u, x) <==> Winner(v, x);
    if MajorityCategory(s).Some? && MajorityCategory(t).Some? {
      TextLeTotal(MajorityCategory(s).value, MajorityCategory(t).value);
    }
  }

  // ----- Retrieval -----

  datatype Hit = Hit(id: string, score: real, category: string)

  const MIN_PRIMARY_K: nat := 2

  predicate Outranks(a: Hit, b: Hit) {
    a.score >= b.score
  }

  function Ranked(primary: seq<Hit>, secondary: seq<Hit>): seq<Hit> {
    Sorting.Sort(primary + (if |primary| < MIN_PRIMARY_K then secondary else []), Outranks)
  }

  function TopHits(primary: seq<Hit>, secondary: seq<Hit>, k: nat): seq<Hit> {
    var all := Ranked(primary, secondary);
    if |all| <= k then all else all[..k]
  }

  // The hits with score `x`, in order.
  function WithScore(hits: seq<Hit>, x: real): seq<Hit> {
    Filter(hits, (h: Hit) => h.score == x)
  }

  lemma ScoresInOrder(pool: seq<Hit>, x: real)
    ensures WithScore(Sorting.Sort(pool, Outranks), x) == WithScore(pool, x)
  {
    Sorting.SortIsStable(pool, Outranks, (h: Hit) => h.score == x);
  }

  // `all` ranks the hits of `pool`: they are the same, by falling score, and in their old order where scores are equal.
  ghost predicate Ranks(all: seq<Hit>, pool: seq<Hit>) {
    && multiset(all) == multiset(pool)
    && (forall i, j :: 0 <= i < j < |all| ==> all[i].score >= all[j].score)
    && forall x :: WithScore(all, x) == WithScore(pool, x)
  }

  lemma SortRanks(pool: seq<Hit>)
    ensures Ranks(Sorting.Sort(pool, Outranks), pool)
  {
    var all := Sorting.Sort(pool, Outranks);
    Sorting.SortPermutes(pool, Outranks);
    Sorting.SortSorts(pool, Outranks);
    assert forall i, j :: 0 <= i < j < |all| ==> Outranks(all[i], all[j]);
    forall x ensures WithScore(all, x) == WithScore(pool, x) {
      ScoresInOrder(pool, x);
    }
  }

  /**
   The neighbours that vote are the first k of all hits as ranked: by score, and in their order where scores are
   equal, primary ones first. Secondary hits take part only when there are fewer than two primary ones.
   */
  lemma TopHitsAreTop(primary: seq<Hit>, secondary: seq<Hit>, k: nat) returns (omitted: seq<Hit>)
    ensures var top := TopHits(primary, secondary, k);
      && |top| <= k && (omitted != [] ==> |top| == k)
      && Ranks(top + omitted, primary + (if |primary| < 2 then secondary else []))
  {
    var top := TopHits(primary, secondary, k);
    SortRanks(primary + (if |primary| < 2 then secondary else []));
    hide Ranks;
    omitted := Ranked(primary, secondary)[|top|..];
    assert Ranked(primary, secondary) == top + omitted;
  }

  // ----- The category override -----

  predicate KnownCategory(c: string) {
    c == "functional" || c == "refactoring" || c == "documentation" || c == "discussion" || c == "false_positive"
  }

  function Categories(hits: seq<Hit>): seq<string> {
    seq(|hits|, i requires 0 <= i < |hits| => hits[i].category)
  }

  /** The hits, merged, ranked and cut to `k`, and the vote among them. */
  method RetrieveContext(primary: seq<Hit>, secondary: seq<Hit>, k: nat)
    returns (top: seq<Hit>, voted: Option<string>, votes: map<string, nat>)
    ensures top == TopHits(primary, secondary, k)
    ensures voted == MajorityCategory(Categories(top))
    ensures votes.Keys == (set c | c in Categories(top) && c != "")
    ensures forall c :: c in votes ==> votes[c] == Count(Categories(top), c)
  {
    var hits := primary;
    if |primary| < MIN_PRIMARY_K {
      hits := hits + secondary;
    } else {
      assert primary + [] == primary;
    }
    hits := Sorting.Sort(hits, Outranks);
    top := if |hits| <= k then hits else hits[..k];
    voted, votes := MajorityVoteCategory(Categories(top));
  }

  /** The neighbours' category replaces the heuristic one only when it is known and three of them were found. */
  function FinalCategory(heuristic: string, hits: seq<Hit>): string {
    var voted := MajorityCategory(Categories(hits));
    if voted.Some? && voted.value != heuristic && |hits| >= 3 && KnownCategory(voted.value) then voted.value
    else heuristic
  }

  /** The final category is the heuristic's or the one the neighbours elected, and does not depend on their order. */
  lemma OverrideIgnoresOrder(heuristic: string, a: seq<Hit>, b: seq<Hit>)
    requires multiset(a) == multiset(b)
    ensures FinalCategory(heuristic, a) == FinalCategory(heuristic, b)
  {
    SameCategories(a, b);
    assert |multiset(a)| == |a| && |multiset(b)| == |b|;
    CategoryVoteIgnoresOrder(Categories(a), Categories(b));
  }

  const CATEGORIES := {"functional", "refactoring", "documentation", "discussion", "false_positive"}

  lemma ElectedOnce(categories: seq<string>, x: string)
    requires Elected(categories, x)
    ensures MajorityCategory(categories) == Some(x)
  {
    CategoryVoteElects(categories);
    NonEmptyElements(categories);
    assert x in categories && x != "";
    TextLeTotal(MajorityCategory(categories).value, x);
  }

  /** The elected category is taken over exactly if it is one of the five and at least three neighbours were found. */
  lemma OverridesIff(heuristic: string, hits: seq<Hit>, x: string)
    requires Elected(Categories(hits), x)
    ensures FinalCategory(heuristic, hits) == if |hits| >= 3 && x in CATEGORIES then x else heuristic
  {
    ElectedOnce(Categories(hits), x);
    hide MajorityCategory, Elected;
  }

  /** Without an elected category the heuristic's stays. */
  lemma NothingOverrides(heuristic: string, hits: seq<Hit>)
    requires forall x :: x in Categories(hits) ==> x == ""
    ensures FinalCategory(heuristic, hits) == heuristic
  {
    CategoryVoteElects(Categories(hits));
  }

  lemma OneHitOut(b: seq<Hit>, h: Hit) returns (rest: seq<Hit>)
    requires h in b
    ensures |rest| == |b| - 1 && multiset(b) == multiset{h} + multiset(rest)
    ensures multiset(Categories(b)) == multiset{h.category} + multiset(Categories(rest))
  {
    var j :| 0 <= j < |b| && b[j] == h;
    rest := b[..j] + b[j + 1..];
    assert b == b[..j] + [b[j]] + b[j + 1..];
    var c := Categories(b);
    assert c == c[..j] + [c[j]] + c[j + 1..];
    assert Categories(rest) == c[..j] + c[j + 1..];
  }

  lemma {:induction false} SameCategories(a: seq<Hit>, b: seq<Hit>)
    requires multiset(a) == multiset(b)
    ensures multiset(Categories(a)) == multiset(Categories(b))
    decreases |a|
  {
    if a != [] {
      assert a[0] in multiset(b);
      var restA := OneHitOut(a, a[0]);
      var restB := OneHitOut(b, a[0]);
      assert multiset(restA) == multiset(a) - multiset{a[0]};
      assert multiset(restB) == multiset(b) - multiset{a[0]};
      SameCategories(restA, restB);
    } else {
      assert |multiset(b)| == |b| && |multiset(a)| == 0;
      assert b == [];
    }
  }
}
