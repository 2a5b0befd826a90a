/**
 The pseudo-labelling loop of the self-training classifier.

 The classifier is an oracle: after its i-th refit it is whatever `oracle(i)` is, so that every
 claim holds for any sequence of classifiers the refits may produce.
 */
module SelfTraining {
  import opened Wrappers

  datatype Prediction = Prediction(category: string, confidence: real)
  type Classifier = (string, string) -> Prediction
  type Oracle = nat -> Classifier

  datatype Pair = Pair(diff: string, comment: string)
  datatype Label = Label(diff: string, comment: string, category: string, confidence: real)

  const GROWTH_STOP_DELTA: real := 0.02

  datatype Result<+T> = Ok(value: T) | NotFitted

  function Unlabel(l: Label): Pair {
    Pair(l.diff, l.comment)
  }

  function Predicted(c: Classifier, p: Pair): Label {
    Label(p.diff, p.comment, c(p.diff, p.comment).category, c(p.diff, p.comment).confidence)
  }

  // ----- One round -----

  /** The predictions of a round that clear the threshold, in the order of the pairs. */
  function Confident(c: Classifier, pairs: seq<Pair>, tau: real): seq<Label> {
    if pairs == [] then []
    else
      var rest := Confident(c, pairs[1..], tau);
      var l := Predicted(c, pairs[0]);
      if l.confidence >= tau then [l] + rest else rest
  }

  function Diffs(labels: seq<Label>): set<string> {
    set l | l in labels :: l.diff
  }

  function TrulyNew(labels: seq<Label>, existing: set<string>): seq<Label> {
    if labels == [] then []
    else if labels[0].diff !in existing then [labels[0]] + TrulyNew(labels[1..], existing)
    else TrulyNew(labels[1..], existing)
  }

  /** What a round with classifier `c` adds to the labels accepted so far. */
  function Additions(c: Classifier, pairs: seq<Pair>, tau: real, accepted: seq<Label>): seq<Label> {
    TrulyNew(Confident(c, pairs, tau), Diffs(accepted))
  }

  predicate GrowthStops(added: nat, before: nat, pairs: nat, round: nat) {
    var size := if before + pairs > 1 then before + pairs else 1;
    added as real / size as real < GROWTH_STOP_DELTA && round > 0
  }

  // ----- The whole loop -----

  function Flat(batches: seq<seq<Label>>): seq<Label> {
    if batches == [] then [] else batches[0] + Flat(batches[1..])
  }

  // What round number i adds to the labels accepted so far, and whether that ends the loop.
  type Adder = (nat, seq<Label>) -> seq<Label>
  type Stopper = (nat, nat, nat) -> bool

  /** What each of at most `rounds` further rounds adds, the next one being number `i`. */
  function Batches(add: Adder, stops: Stopper, i: nat, rounds: nat, accepted: seq<Label>): seq<seq<Label>>
    decreases rounds
  {
    if rounds == 0 then []
    else
      var added := add(i, accepted);
      if added == [] then []
      else if stops(|added|, |accepted|, i) then [added]
      else [added] + Batches(add, stops, i + 1, rounds - 1, accepted + added)
  }

  // The classifier of round i is the oracle's number base + i.
  function Rounds(oracle: Oracle, base: nat, pairs: seq<Pair>, tau: real): Adder {
    (i: nat, accepted: seq<Label>) => Additions(oracle(base + i), pairs, tau, accepted)
  }

  function SlowGrowth(pairs: nat): Stopper {
    (added: nat, before: nat, round: nat) => GrowthStops(added, before, pairs, round)
  }

  /** The batches of labels that self-training accepts. */
  function SelfTrained(oracle: Oracle, base: nat, rounds: nat, pairs: seq<Pair>, tau: real): seq<seq<Label>> {
    Batches(Rounds(oracle, base, pairs, tau), SlowGrowth(|pairs|), 0, rounds, [])
  }

  // What the classifier is refitted on after each of the first `n` batches: the base samples and all labels so far.
  function Refits(baseSamples: seq<Label>, batches: seq<seq<Label>>, n: nat): seq<seq<Label>>
    requires n <= |batches|
  {
    seq(n, k requires 0 <= k < n => baseSamples + Flat(batches[..k + 1]))
  }

  /** There is a refit after each batch, unless the loop ends with it. */
  function RefitCount(batches: seq<seq<Label>>, pairs: nat): (n: nat)
    ensures n <= |batches|
  {
    if batches != [] && GrowsSlowly(batches, pairs, |batches| - 1) then |batches| - 1 else |batches|
  }

  class SelfTrainingClassifier {
    var fitted: bool
    var refits: nat
    ghost var fits: seq<seq<Label>>      // what it was fitted on, each time
    const oracle: Oracle

    constructor (oracle: Oracle)
      ensures !fitted && refits == 0 && fits == [] && this.oracle == oracle
    {
      fitted, refits, fits := false, 0, [];
      this.oracle := oracle;
    }

    method Predict(p: Pair) returns (l: Label)
      requires fitted
      ensures l == Predicted(oracle(refits), p)
    {
      l := Predicted(oracle(refits), p);
    }

    // Refitting replaces the classifier by the oracle's next one.
    method Fit(samples: seq<Label>)
      modifies this`refits, this`fitted, this`fits
      ensures samples == [] ==> refits == old(refits) && fitted == old(fitted) && fits == old(fits)
      ensures samples != [] ==> refits == old(refits) + 1 && fitted && fits == old(fits) + [samples]
    {
      if samples != [] {
        refits := refits + 1;
        fitted := true;
        fits := fits + [samples];
      }
    }

    method CollectConfident(pairs: seq<Pair>, tau: real) returns (labels: seq<Label>)
      requires fitted
      ensures labels == Confident(oracle(refits), pairs, tau)
    {
      labels := [];
      for k := 0 to |pairs|
        invariant Confident(oracle(refits), pairs, tau) == labels + Confident(oracle(refits), pairs[k..], tau)
      {
        assert pairs[k..][1..] == pairs[k + 1..];
        var l := Predict(pairs[k]);
        if l.confidence >= tau {
          labels := labels + [l];
        }
      }
    }

    method KeepTrulyNew(labels: seq<Label>, existing: set<string>) returns (kept: seq<Label>)
      ensures kept == TrulyNew(labels, existing)
    {
      kept := [];
      for k := 0 to |labels|
        invariant TrulyNew(labels, existing) == kept + TrulyNew(labels[k..], existing)
      {
        assert labels[k..][1..] == labels[k + 1..];
        if labels[k].diff !in existing {
          kept := kept + [labels[k]];
        }
      }
    }

    /** One round: what it adds, and whether the loop ends with it. */
    method Round(pairs: seq<Pair>, tau: real, pseudo: seq<Label>, r: nat)
      returns (added: seq<Label>, last: bool)
      requires fitted
      ensures added == Additions(oracle(refits), pairs, tau, pseudo)
      ensures last <==> added == [] || GrowthStops(|added|, |pseudo|, |pairs|, r)
    {
      var newPseudo := CollectConfident(pairs, tau);
      if newPseudo == [] {
        return [], true;
      }
      var existing := set l | l in pseudo :: l.diff;
      added := KeepTrulyNew(newPseudo, existing);
      if added == [] {
        return [], true;
      }
      var size := if |pseudo| + |pairs| > 1 then |pseudo| + |pairs| else 1;
      last := |added| as real / size as real < GROWTH_STOP_DELTA && r > 0;
    }

    method SelfTrain(pairs: seq<Pair>, baseSamples: seq<Label>, rounds: nat, tau: real)
      returns (total: Result<nat>, pseudo: seq<Label>)
      modifies this`refits, this`fitted, this`fits
      ensures !old(fitted) ==> total == NotFitted && pseudo == [] && fits == old(fits) && refits == old(refits)
      ensures fitted == old(fitted)
      ensures old(fitted) ==> pseudo == Flat(SelfTrained(oracle, old(refits), rounds, pairs, tau))
      ensures old(fitted) ==> total == Ok(|pseudo|)
      ensures old(fitted) ==>
        var b := SelfTrained(oracle, old(refits), rounds, pairs, tau);
        var n := RefitCount(b, |pairs|);
        fits == old(fits) + Refits(baseSamples, b, n) && refits == old(refits) + n
    {
      pseudo := [];
      if !fitted {
        return NotFitted, [];
      }
      var accepted := 0;
      ghost var base := refits;
      ghost var b := SelfTrained(oracle, base, rounds, pairs, tau);
      BeforeFirst(oracle, base, pairs, tau, rounds);
      assert old(fits) + Refits(baseSamples, b, 0) == old(fits);
      hide *;
      var r := 0;
      while r < rounds
        invariant 0 <= r <= rounds && r <= |b| && fitted && refits == base + r
        invariant accepted == |pseudo|
        invariant Before(oracle, base, pairs, tau, b, r, rounds - r, pseudo)
        invariant fits == old(fits) + Refits(baseSamples, b, r)
      {
        var added, last := RoundAndRefit(pairs, baseSamples, tau, pseudo, r, base, b, rounds - r, old(fits));
        pseudo := pseudo + added;
        accepted := accepted + |added|;
        if last {
          return Ok(accepted), pseudo;
        }
        r := r + 1;
      }
      AfterLast(oracle, base, pairs, tau, b, r, pseudo);
      total := Ok(accepted);
    }

    /** A round and, unless the loop ends with it, the refit on the base samples and all labels so far. */
    method RoundAndRefit(pairs: seq<Pair>, baseSamples: seq<Label>, tau: real, pseudo: seq<Label>, r: nat, ghost base: nat,
                         ghost b: seq<seq<Label>>, ghost left: nat, ghost before: seq<seq<Label>>)
      returns (added: seq<Label>, last: bool)
      requires fitted && refits == base + r && left > 0 && Before(oracle, base, pairs, tau, b, r, left, pseudo)
      requires r <= |b| && fits == before + Refits(baseSamples, b, r)
      modifies this`refits, this`fitted, this`fits
      ensures fitted
      ensures last ==> refits == old(refits) && fits == old(fits) && pseudo + added == Flat(b) && RefitCount(b, |pairs|) == r
      ensures !last ==>
        && r < |b| && refits == base + r + 1 && fits == before + Refits(baseSamples, b, r + 1)
        && Before(oracle, base, pairs, tau, b, r + 1, left - 1, pseudo + added)
    {
      hide *;
      added, last := Round(pairs, tau, pseudo, r);
      AfterRound(oracle, base, pairs, tau, b, r, left, pseudo);
      assert added == [] ==> pseudo + added == pseudo;
      if !last {
        assert |baseSamples + (pseudo + added)| > 0;
        Fit(baseSamples + (pseudo + added));
        NextRefit(baseSamples, b, r, before);
      }
    }
  }

  lemma Regroup(a: seq<Label>, b: seq<Label>, c: seq<Label>)
    ensures a + b + c == a + (b + c)
  {
  }

  lemma NextRefit(baseSamples: seq<Label>, b: seq<seq<Label>>, r: nat, before: seq<seq<Label>>)
    requires r < |b|
    ensures before + Refits(baseSamples, b, r) + [baseSamples + Flat(b[..r + 1])]
         == before + Refits(baseSamples, b, r + 1)
  {
    assert Refits(baseSamples, b, r + 1) == Refits(baseSamples, b, r) + [baseSamples + Flat(b[..r + 1])];
  }

  // Of the batches `b` the first `r` are accepted, `rounds` more may come, and none of the first grew too slowly.
  ghost predicate Before(oracle: Oracle, base: nat, pairs: seq<Pair>, tau: real, b: seq<seq<Label>>, r: nat, rounds: nat,
                         pseudo: seq<Label>) {
    && r <= |b| && pseudo == Flat(b[..r]) && |pseudo| == Size(b, r)
    && b[r..] == Batches(Rounds(oracle, base, pairs, tau), SlowGrowth(|pairs|), r, rounds, pseudo)
    && (r > 0 ==> !GrowsSlowly(b, |pairs|, r - 1))
  }

  lemma BeforeFirst(oracle: Oracle, base: nat, pairs: seq<Pair>, tau: real, rounds: nat)
    ensures Before(oracle, base, pairs, tau, SelfTrained(oracle, base, rounds, pairs, tau), 0, rounds, [])
  {
    var b := SelfTrained(oracle, base, rounds, pairs, tau);
    assert b[0..] == b && b[..0] == [];
  }

  lemma NextBatch(oracle: Oracle, base: nat, pairs: seq<Pair>, tau: real, b: seq<seq<Label>>, r: nat, rounds: nat,
                  pseudo: seq<Label>)
    requires rounds > 0 && Before(oracle, base, pairs, tau, b, r, rounds, pseudo)
    ensures var added := Additions(oracle(base + r), pairs, tau, pseudo);
      var stops := GrowthStops(|added|, |pseudo|, |pairs|, r);
      if added == [] then |b| == r
      else
        && r < |b| && b[r] == added && (stops ==> |b| == r + 1)
        && (!stops ==> b[r + 1..] == Batches(Rounds(oracle, base, pairs, tau), SlowGrowth(|pairs|), r + 1, rounds - 1,
                                             pseudo + added))
  {
    var rest := b[r..];
    if r < |b| {
      assert b[r] == rest[0] && b[r + 1..] == rest[1..];
    }
  }

  lemma AcceptBatch(pairs: seq<Pair>, b: seq<seq<Label>>, r: nat, pseudo: seq<Label>)
    requires r < |b| && pseudo == Flat(b[..r]) && |pseudo| == Size(b, r)
    ensures pseudo + b[r] == Flat(b[..r + 1]) && |pseudo + b[r]| == Size(b, r + 1)
    ensures GrowthStops(|b[r]|, |pseudo|, |pairs|, r) <==> GrowsSlowly(b, |pairs|, r)
  {
    FlatSnoc(b[..r], b[r]);
    assert b[..r + 1] == b[..r] + [b[r]];
    assert Size(b, r + 1) == Size(b, r) + |b[r]|;
    GrowthIsAFiftieth(|b[r]|, |pseudo|, |pairs|, r);
  }

  lemma AfterRound(oracle: Oracle, base: nat, pairs: seq<Pair>, tau: real, b: seq<seq<Label>>, r: nat, rounds: nat,
                   pseudo: seq<Label>)
    requires rounds > 0 && Before(oracle, base, pairs, tau, b, r, rounds, pseudo)
    ensures r <= |b|
    ensures var added := Additions(oracle(base + r), pairs, tau, pseudo);
      if added == [] then pseudo == Flat(b) && RefitCount(b, |pairs|) == r
      else if GrowthStops(|added|, |pseudo|, |pairs|, r) then pseudo + added == Flat(b) && RefitCount(b, |pairs|) == r
      else
        && r < |b| && Before(oracle, base, pairs, tau, b, r + 1, rounds - 1, pseudo + added)
        && pseudo + added == Flat(b[..r + 1])
  {
    hide Batches, Additions, Flat, Size, GrowthStops, GrowsSlowly, Rounds, SlowGrowth;
    NextBatch(oracle, base, pairs, tau, b, r, rounds, pseudo);
    if r < |b| {
      AcceptBatch(pairs, b, r, pseudo);
      WholePrefix(b, r + 1);
    } else {
      WholePrefix(b, r);
    }
  }

  lemma WholePrefix(b: seq<seq<Label>>, n: nat)
    requires n <= |b|
    ensures |b| == n ==> b[..n] == b
  {
  }

  lemma AfterLast(oracle: Oracle, base: nat, pairs: seq<Pair>, tau: real, b: seq<seq<Label>>, r: nat, pseudo: seq<Label>)
    requires Before(oracle, base, pairs, tau, b, r, 0, pseudo)
    ensures pseudo == Flat(b) && RefitCount(b, |pairs|) == r
  {
    assert |b[r..]| == 0;
    assert b[..r] == b;
  }

  lemma FlatStep(add: Adder, stops: Stopper, i: nat, rounds: nat, accepted: seq<Label>)
    requires rounds > 0
    ensures var added := add(i, accepted);
      Flat(Batches(add, stops, i, rounds, accepted))
      == if added == [] || stops(|added|, |accepted|, i) then added
         else added + Flat(Batches(add, stops, i + 1, rounds - 1, accepted + added))
  {
    var added := add(i, accepted);
    if added != [] && stops(|added|, |accepted|, i) {
      assert Flat([added]) == added + Flat([]) == added;
    }
  }

  // ----- What holds for any oracle -----

  function PairDiffs(pairs: seq<Pair>): set<string> {
    set p | p in pairs :: p.diff
  }

  function Unlabelled(labels: seq<Label>): multiset<Pair> {
    multiset(seq(|labels|, k requires 0 <= k < |labels| => Unlabel(labels[k])))
  }

  lemma UnlabelledConcat(a: seq<Label>, b: seq<Label>)
    ensures Unlabelled(a + b) == Unlabelled(a) + Unlabelled(b)
  {
    var u := seq(|a|, k requires 0 <= k < |a| => Unlabel(a[k]));
    var v := seq(|b|, k requires 0 <= k < |b| => Unlabel(b[k]));
    assert seq(|a + b|, k requires 0 <= k < |a + b| => Unlabel((a + b)[k])) == u + v;
  }

  lemma {:induction false} UnlabelledHasDiff(labels: seq<Label>, p: Pair)
    ensures p in Unlabelled(labels) ==> p.diff in Diffs(labels)
    decreases |labels|
  {
    if labels != [] {
      assert labels == [labels[0]] + labels[1..];
      UnlabelledConcat([labels[0]], labels[1..]);
      assert Unlabelled([labels[0]]) == multiset{Unlabel(labels[0])};
      UnlabelledHasDiff(labels[1..], p);
    }
  }

  // Labels a classifier gives to distinct positions of the pairs, each above the threshold.
  ghost predicate From(labels: seq<Label>, c: Classifier, pairs: seq<Pair>, tau: real) {
    && Unlabelled(labels) <= multiset(pairs)
    && (forall l :: l in labels ==> Unlabel(l) in pairs && l == Predicted(c, Unlabel(l)) && l.confidence >= tau)
  }

  lemma {:induction false} ConfidentFrom(c: Classifier, pairs: seq<Pair>, tau: real)
    ensures From(Confident(c, pairs, tau), c, pairs, tau)
    decreases |pairs|
  {
    if pairs != [] {
      var l, rest := Predicted(c, pairs[0]), Confident(c, pairs[1..], tau);
      assert pairs == [pairs[0]] + pairs[1..];
      ConfidentFrom(c, pairs[1..], tau);
      UnlabelledConcat([l], rest);
      assert Unlabelled([l]) == multiset{pairs[0]};
    }
  }

  lemma {:induction false} TrulyNewFrom(labels: seq<Label>, existing: set<string>)
    ensures Unlabelled(TrulyNew(labels, existing)) <= Unlabelled(labels)
    ensures forall l :: l in TrulyNew(labels, existing) <==> l in labels && l.diff !in existing
    decreases |labels|
  {
    if labels != [] {
      var rest := TrulyNew(labels[1..], existing);
      assert labels == [labels[0]] + labels[1..];
      TrulyNewFrom(labels[1..], existing);
      UnlabelledConcat([labels[0]], labels[1..]);
      UnlabelledConcat([labels[0]], rest);
    }
  }

  lemma AdditionsFrom(c: Classifier, pairs: seq<Pair>, tau: real, accepted: seq<Label>)
    ensures var added := Additions(c, pairs, tau, accepted);
      && From(added, c, pairs, tau)
      && Diffs(added) !! Diffs(accepted) && Diffs(added) <= PairDiffs(pairs)
  {
    ConfidentFrom(c, pairs, tau);
    TrulyNewFrom(Confident(c, pairs, tau), Diffs(accepted));
  }

  // An adder that labels pairs whose diff text is not labelled yet, each pair at most as often as it occurs.
  ghost predicate Careful(add: Adder, pairs: seq<Pair>) {
    forall i, accepted :: CarefulAt(add(i, accepted), accepted, pairs)
  }

  ghost predicate CarefulAt(added: seq<Label>, accepted: seq<Label>, pairs: seq<Pair>) {
    && Unlabelled(added) <= multiset(pairs)
    && Diffs(added) !! Diffs(accepted) && Diffs(added) <= PairDiffs(pairs)
  }

  lemma RoundsAreCareful(oracle: Oracle, base: nat, pairs: seq<Pair>, tau: real)
    ensures Careful(Rounds(oracle, base, pairs, tau), pairs)
  {
    var add := Rounds(oracle, base, pairs, tau);
    forall i: nat, accepted ensures CarefulAt(add(i, accepted), accepted, pairs) {
      AdditionsFrom(oracle(base + i), pairs, tau, accepted);
    }
  }

  // The diff texts still open to be labelled.
  function Open(pairs: seq<Pair>, accepted: seq<Label>): set<string> {
    PairDiffs(pairs) - Diffs(accepted)
  }

  lemma {:induction false} SubsetSize(s: set<string>, t: set<string>)
    requires s <= t
    ensures |s| <= |t|
    decreases s
  {
    if s != {} {
      var x :| x in s;
      SubsetSize(s - {x}, t - {x});
    }
  }

  /** A round that adds something leaves fewer diff texts open. */
  lemma OpenShrinks(pairs: seq<Pair>, accepted: seq<Label>, added: seq<Label>)
    requires CarefulAt(added, accepted, pairs) && added != []
    ensures |Open(pairs, accepted + added)| < |Open(pairs, accepted)|
  {
    var x := added[0].diff;
    assert added[0] in added && added[0] in accepted + added;
    assert x in Diffs(added) && x in Diffs(accepted + added);
    assert Open(pairs, accepted + added) <= Open(pairs, accepted) - {x};
    SubsetSize(Open(pairs, accepted + added), Open(pairs, accepted) - {x});
  }

  lemma {:induction false} RoundsAreBounded(add: Adder, stops: Stopper, i: nat, rounds: nat, pairs: seq<Pair>,
                                            accepted: seq<Label>)
    requires Careful(add, pairs)
    ensures |Batches(add, stops, i, rounds, accepted)| <= |Open(pairs, accepted)|
    decreases rounds
  {
    hide Open;
    if rounds > 0 {
      var added := add(i, accepted);
      assert CarefulAt(added, accepted, pairs);
      if added != [] {
        OpenShrinks(pairs, accepted, added);
        RoundsAreBounded(add, stops, i + 1, rounds - 1, pairs, accepted + added);
      }
    }
  }

  lemma {:induction false} CapPlaysNoPart(add: Adder, stops: Stopper, i: nat, rounds: nat, pairs: seq<Pair>,
                                          accepted: seq<Label>)
    requires Careful(add, pairs) && rounds > |Open(pairs, accepted)|
    ensures Batches(add, stops, i, rounds, accepted) == Batches(add, stops, i, rounds + 1, accepted)
    decreases rounds
  {
    hide Open;
    var added := add(i, accepted);
    assert CarefulAt(added, accepted, pairs);
    if added != [] {
      OpenShrinks(pairs, accepted, added);
      CapPlaysNoPart(add, stops, i + 1, rounds - 1, pairs, accepted + added);
    }
  }

  /**
   However many rounds are allowed, the rounds that add something number at most the distinct diff
   texts; with more rounds allowed than that the cap plays no part, so the loop ends of itself.
   */
  lemma EndsWithinDistinctDiffs(oracle: Oracle, base: nat, rounds: nat, pairs: seq<Pair>, tau: real)
    ensures |SelfTrained(oracle, base, rounds, pairs, tau)| <= |PairDiffs(pairs)|
    ensures rounds > |PairDiffs(pairs)| ==>
      SelfTrained(oracle, base, rounds, pairs, tau) == SelfTrained(oracle, base, rounds + 1, pairs, tau)
  {
    RoundsAreCareful(oracle, base, pairs, tau);
    var add := Rounds(oracle, base, pairs, tau);
    RoundsAreBounded(add, SlowGrowth(|pairs|), 0, rounds, pairs, []);
    assert Open(pairs, []) == PairDiffs(pairs);
    if rounds > |PairDiffs(pairs)| {
      CapPlaysNoPart(add, SlowGrowth(|pairs|), 0, rounds, pairs, []);
    }
  }

  lemma {:induction false} BatchIsAddition(add: Adder, stops: Stopper, i: nat, rounds: nat, accepted: seq<Label>, k: nat)
    returns (before: seq<Label>)
    requires k < |Batches(add, stops, i, rounds, accepted)|
    ensures Batches(add, stops, i, rounds, accepted)[k] == add(i + k, before)
    decreases rounds
  {
    if k == 0 {
      before := accepted;
    } else {
      before := BatchIsAddition(add, stops, i + 1, rounds - 1, accepted + add(i, accepted), k - 1);
    }
  }

  /** Each label was predicted, above the threshold, by the classifier of the round that accepted it. */
  lemma LabelsClearedThreshold(oracle: Oracle, base: nat, rounds: nat, pairs: seq<Pair>, tau: real, k: nat)
    requires k < |SelfTrained(oracle, base, rounds, pairs, tau)|
    ensures From(SelfTrained(oracle, base, rounds, pairs, tau)[k], oracle(base + k), pairs, tau)
  {
    var before := BatchIsAddition(Rounds(oracle, base, pairs, tau), SlowGrowth(|pairs|), 0, rounds, [], k);
    AdditionsFrom(oracle(base + k), pairs, tau, before);
  }

  // Batches that share no diff text with each other or with what was labelled before.
  ghost predicate Disjoint(batches: seq<seq<Label>>, accepted: seq<Label>) {
    && (forall k :: 0 <= k < |batches| ==> Diffs(batches[k]) !! Diffs(accepted))
    && (forall j, k :: 0 <= j < k < |batches| ==> Diffs(batches[j]) !! Diffs(batches[k]))
  }

  lemma DisjointCons(added: seq<Label>, rest: seq<seq<Label>>, accepted: seq<Label>)
    requires Diffs(added) !! Diffs(accepted) && Disjoint(rest, accepted + added)
    ensures Disjoint([added] + rest, accepted)
  {
    assert Diffs(accepted + added) == Diffs(accepted) + Diffs(added);
    var b := [added] + rest;
    forall k | 0 <= k < |b| ensures Diffs(b[k]) !! Diffs(accepted) && (k > 0 ==> Diffs(added) !! Diffs(b[k])) {
      if k > 0 {
        assert b[k] == rest[k - 1];
      }
    }
    forall j, k | 0 <= j < k < |b| ensures Diffs(b[j]) !! Diffs(b[k]) {
      if j > 0 {
        assert b[j] == rest[j - 1] && b[k] == rest[k - 1];
      }
    }
  }

  lemma {:induction false} BatchesAreDisjoint(add: Adder, stops: Stopper, i: nat, rounds: nat, pairs: seq<Pair>,
                                              accepted: seq<Label>)
    requires Careful(add, pairs)
    ensures Disjoint(Batches(add, stops, i, rounds, accepted), accepted)
    decreases rounds
  {
    if rounds > 0 {
      var added := add(i, accepted);
      assert CarefulAt(added, accepted, pairs);
      BatchesAreDisjoint(add, stops, i + 1, rounds - 1, pairs, accepted + added);
      DisjointCons(added, [], accepted);
      DisjointCons(added, Batches(add, stops, i + 1, rounds - 1, accepted + added), accepted);
      assert [added] + [] == [added];
    }
  }

  /** A diff text is labelled in one round only, and never again once labelled. */
  lemma DiffsEnterOnce(oracle: Oracle, base: nat, rounds: nat, pairs: seq<Pair>, tau: real)
    ensures Disjoint(SelfTrained(oracle, base, rounds, pairs, tau), [])
  {
    RoundsAreCareful(oracle, base, pairs, tau);
    BatchesAreDisjoint(Rounds(oracle, base, pairs, tau), SlowGrowth(|pairs|), 0, rounds, pairs, []);
  }

  lemma StillUnlabelled(accepted: seq<Label>, added: seq<Label>, pairs: seq<Pair>)
    requires Unlabelled(accepted) <= multiset(pairs) && CarefulAt(added, accepted, pairs)
    ensures Unlabelled(accepted + added) <= multiset(pairs)
  {
    UnlabelledConcat(accepted, added);
    forall p ensures Unlabelled(accepted + added)[p] <= multiset(pairs)[p] {
      UnlabelledHasDiff(accepted, p);
      UnlabelledHasDiff(added, p);
    }
  }

  lemma {:induction false} BatchesAreUnlabelledPairs(add: Adder, stops: Stopper, i: nat, rounds: nat, pairs: seq<Pair>,
                                                     accepted: seq<Label>)
    requires Careful(add, pairs) && Unlabelled(accepted) <= multiset(pairs)
    ensures Unlabelled(accepted + Flat(Batches(add, stops, i, rounds, accepted))) <= multiset(pairs)
    decreases rounds
  {
    if rounds == 0 {
      assert accepted + [] == accepted;
    } else {
      var added := add(i, accepted);
      assert CarefulAt(added, accepted, pairs);
      StillUnlabelled(accepted, added, pairs);
      FlatStep(add, stops, i, rounds, accepted);
      if added != [] && !stops(|added|, |accepted|, i) {
        var rest := Flat(Batches(add, stops, i + 1, rounds - 1, accepted + added));
        BatchesAreUnlabelledPairs(add, stops, i + 1, rounds - 1, pairs, accepted + added);
        assert accepted + (added + rest) == accepted + added + rest;
      }
    }
  }

  /** The accepted labels, taken without their labels, are a sub-multiset of the unlabelled pairs. */
  lemma AcceptedAreUnlabelledPairs(oracle: Oracle, base: nat, rounds: nat, pairs: seq<Pair>, tau: real)
    ensures Unlabelled(Flat(SelfTrained(oracle, base, rounds, pairs, tau))) <= multiset(pairs)
  {
    RoundsAreCareful(oracle, base, pairs, tau);
    assert Unlabelled([]) == multiset{};
    BatchesAreUnlabelledPairs(Rounds(oracle, base, pairs, tau), SlowGrowth(|pairs|), 0, rounds, pairs, []);
    assert [] + Flat(SelfTrained(oracle, base, rounds, pairs, tau)) == Flat(SelfTrained(oracle, base, rounds, pairs, tau));
  }
  // ----- Nothing is left out -----

  // The number of labels in the first `k` batches.
  function Size(batches: seq<seq<Label>>, k: nat): nat
    requires k <= |batches|
  {
    if k == 0 then 0 else Size(batches, k - 1) + |batches[k - 1]|
  }

  lemma {:induction false} SizeCons(batches: seq<seq<Label>>, k: nat)
    requires k < |batches|
    ensures Size(batches, k + 1) == |batches[0]| + Size(batches[1..], k)
    decreases k
  {
    if k == 0 {
      assert Size(batches, 0) == 0;
    } else {
      SizeCons(batches, k - 1);
      assert batches[1..][k - 1] == batches[k];
    }
  }

  lemma {:induction false} FlatSize(batches: seq<seq<Label>>)
    ensures |Flat(batches)| == Size(batches, |batches|)
    decreases |batches|
  {
    if batches != [] {
      FlatSize(batches[1..]);
      SizeCons(batches, |batches| - 1);
      hide Size;
      assert |Flat(batches)| == |batches[0]| + |Flat(batches[1..])|;
      assert |Flat(batches)| == Size(batches, |batches|);
    }
  }

  /** The labels accepted are those of the batches, one batch after the other. */
  lemma {:induction false} FlatHoldsBatches(batches: seq<seq<Label>>, k: nat, j: nat)
    requires k < |batches| && j < |batches[k]|
    ensures Size(batches, k) + j < |Flat(batches)| == Size(batches, |batches|)
    ensures Flat(batches)[Size(batches, k) + j] == batches[k][j]
    decreases k
  {
    FlatSize(batches);
    if k == 0 {
      assert Size(batches, 0) == 0;
    } else {
      SizeCons(batches, k - 1);
      FlatHoldsBatches(batches[1..], k - 1, j);
      hide Size;
      var at := Size(batches[1..], k - 1) + j;
      assert Flat(batches)[|batches[0]| + at] == Flat(batches[1..])[at];
    }
  }

  // Some batch before number `k` labels this diff text.
  ghost predicate LabelledBefore(batches: seq<seq<Label>>, k: nat, diff: string) {
    exists j, l :: 0 <= j < k && j < |batches| && l in batches[j] && l.diff == diff
  }

  // The classifier is sure enough of the pair, and no earlier batch labels its diff text.
  ghost predicate Qualifies(c: Classifier, p: Pair, tau: real, batches: seq<seq<Label>>, k: nat) {
    c(p.diff, p.comment).confidence >= tau && !LabelledBefore(batches, k, p.diff)
  }

  // `batch` holds one label for each place of `at`, with what the classifier predicts there.
  ghost predicate LabelsAt(batch: seq<Label>, c: Classifier, pairs: seq<Pair>, at: seq<nat>) {
    && |batch| == |at|
    && (forall i, j :: 0 <= i < j < |at| ==> at[i] < at[j])
    && forall j :: 0 <= j < |at| ==>
         at[j] < |pairs|
         && var p := pairs[at[j]];
            batch[j] == Label(p.diff, p.comment, c(p.diff, p.comment).category, c(p.diff, p.comment).confidence)
  }

  function Shifted(at: seq<nat>): seq<nat> {
    seq(|at|, j requires 0 <= j < |at| => at[j] + 1)
  }

  lemma AdditionsCons(c: Classifier, pairs: seq<Pair>, tau: real, accepted: seq<Label>)
    requires pairs != []
    ensures var l := Predicted(c, pairs[0]);
      Additions(c, pairs, tau, accepted)
      == (if l.confidence >= tau && l.diff !in Diffs(accepted) then [l] else []) + Additions(c, pairs[1..], tau, accepted)
  {
    var l, rest := Predicted(c, pairs[0]), Confident(c, pairs[1..], tau);
    assert ([l] + rest)[1..] == rest;
  }

  lemma ShiftedHolds(at: seq<nat>, i: nat)
    ensures i in Shifted(at) <==> i > 0 && i - 1 in at
  {
    if i > 0 && i - 1 in at {
      var j :| 0 <= j < |at| && at[j] == i - 1;
      assert Shifted(at)[j] == i;
    }
  }

  lemma ShiftedLabels(rest: seq<Label>, c: Classifier, pairs: seq<Pair>, at: seq<nat>)
    requires pairs != [] && LabelsAt(rest, c, pairs[1..], at)
    ensures LabelsAt(rest, c, pairs, Shifted(at))
  {
  }

  lemma FirstLabel(rest: seq<Label>, c: Classifier, pairs: seq<Pair>, at: seq<nat>)
    requires pairs != [] && LabelsAt(rest, c, pairs, at) && 0 !in at
    ensures LabelsAt([Predicted(c, pairs[0])] + rest, c, pairs, [0] + at)
  {
    var batch, all := [Predicted(c, pairs[0])] + rest, [0] + at;
    forall i, j | 0 <= i < j < |all| ensures all[i] < all[j] {
      assert all[j] == at[j - 1] && at[j - 1] in at;
    }
    forall j | 0 <= j < |all| ensures all[j] < |pairs| && batch[j] == Predicted(c, pairs[all[j]]) {
      if j > 0 {
        assert all[j] == at[j - 1] && batch[j] == rest[j - 1];
      }
    }
  }

  // The places of the pairs a round labels.
  ghost predicate PlacesOfSure(at: seq<nat>, c: Classifier, pairs: seq<Pair>, tau: real, labelled: set<string>) {
    forall i: nat :: i in at <==>
      i < |pairs| && c(pairs[i].diff, pairs[i].comment).confidence >= tau && pairs[i].diff !in labelled
  }

  lemma PlacesCons(at: seq<nat>, c: Classifier, pairs: seq<Pair>, tau: real, labelled: set<string>)
    requires pairs != [] && PlacesOfSure(at, c, pairs[1..], tau, labelled)
    ensures var sure := c(pairs[0].diff, pairs[0].comment).confidence >= tau && pairs[0].diff !in labelled;
      PlacesOfSure((if sure then [0] else []) + Shifted(at), c, pairs, tau, labelled)
  {
    forall i: nat ensures i in Shifted(at) <==> i > 0 && i - 1 in at {
      ShiftedHolds(at, i);
    }
    assert forall i: nat :: 0 < i < |pairs| ==> pairs[i] == pairs[1..][i - 1];
    hide Shifted;
  }

  lemma {:induction false} AdditionsAt(c: Classifier, pairs: seq<Pair>, tau: real, accepted: seq<Label>)
    returns (at: seq<nat>)
    ensures LabelsAt(Additions(c, pairs, tau, accepted), c, pairs, at)
    ensures PlacesOfSure(at, c, pairs, tau, Diffs(accepted))
    decreases |pairs|
  {
    at := [];
    if pairs != [] {
      var l := Predicted(c, pairs[0]);
      at := AdditionsAt(c, pairs[1..], tau, accepted);
      AdditionsCons(c, pairs, tau, accepted);
      PlacesCons(at, c, pairs, tau, Diffs(accepted));
      var rest := Additions(c, pairs[1..], tau, accepted);
      ShiftedLabels(rest, c, pairs, at);
      ShiftedHolds(at, 0);
      at := Shifted(at);
      hide Additions, Diffs, LabelsAt, PlacesOfSure, Shifted;
      if l.confidence >= tau && l.diff !in Diffs(accepted) {
        FirstLabel(rest, c, pairs, at);
        at := [0] + at;
      } else {
        assert [] + rest == rest && [] + at == at;
      }
    }
  }

  lemma {:induction false} BatchAfterBatches(add: Adder, stops: Stopper, i: nat, rounds: nat, accepted: seq<Label>, k: nat)
    requires k < |Batches(add, stops, i, rounds, accepted)|
    ensures var b := Batches(add, stops, i, rounds, accepted); b[k] == add(i + k, accepted + Flat(b[..k]))
    decreases rounds
  {
    var b := Batches(add, stops, i, rounds, accepted);
    if k == 0 {
      assert accepted + Flat(b[..0]) == accepted;
    } else {
      var rest := b[1..];
      BatchAfterBatches(add, stops, i + 1, rounds - 1, accepted + b[0], k - 1);
      assert b[..k] == [b[0]] + rest[..k - 1];
      Regroup(accepted, b[0], Flat(rest[..k - 1]));
    }
  }

  lemma {:induction false} FlatDiffs(batches: seq<seq<Label>>, k: nat, diff: string)
    requires k <= |batches|
    ensures diff in Diffs(Flat(batches[..k])) <==> LabelledBefore(batches, k, diff)
    decreases k
  {
    if k > 0 {
      var b := batches[..k];
      assert b[..k - 1] == batches[..k - 1];
      FlatDiffs(batches, k - 1, diff);
      FlatSnoc(batches[..k - 1], batches[k - 1]);
      assert b == batches[..k - 1] + [batches[k - 1]];
    }
  }

  lemma {:induction false} FlatSnoc(batches: seq<seq<Label>>, last: seq<Label>)
    ensures Flat(batches + [last]) == Flat(batches) + last
    decreases |batches|
  {
    if batches == [] {
      assert Flat([last]) == last + Flat([]) == last;
    } else {
      FlatSnoc(batches[1..], last);
      assert (batches + [last])[1..] == batches[1..] + [last];
      Regroup(batches[0], Flat(batches[1..]), last);
    }
  }

  /**
   Each batch labels, in order and once for each place, exactly the pairs that its round's classifier is sure
   enough of and whose diff text no earlier batch labels.
   */
  lemma BatchIsComplete(oracle: Oracle, base: nat, rounds: nat, pairs: seq<Pair>, tau: real, k: nat) returns (at: seq<nat>)
    requires k < |SelfTrained(oracle, base, rounds, pairs, tau)|
    ensures var b := SelfTrained(oracle, base, rounds, pairs, tau);
      && LabelsAt(b[k], oracle(base + k), pairs, at)
      && forall i: nat :: i in at <==> i < |pairs| && Qualifies(oracle(base + k), pairs[i], tau, b, k)
  {
    var b := SelfTrained(oracle, base, rounds, pairs, tau);
    BatchAfterBatches(Rounds(oracle, base, pairs, tau), SlowGrowth(|pairs|), 0, rounds, [], k);
    assert [] + Flat(b[..k]) == Flat(b[..k]);
    at := AdditionsAt(oracle(base + k), pairs, tau, Flat(b[..k]));
    forall diff ensures diff in Diffs(Flat(b[..k])) <==> LabelledBefore(b, k, diff) {
      FlatDiffs(b, k, diff);
    }
  }

  // Batch number `k` is not the first, and is less than 2% of the labels before it and the pairs together.
  predicate GrowsSlowly(batches: seq<seq<Label>>, pairs: nat, k: nat)
    requires k < |batches|
  {
    k > 0 && 50 * |batches[k]| < (if Size(batches, k) + pairs > 1 then Size(batches, k) + pairs else 1)
  }

  lemma GrowthIsAFiftieth(added: nat, before: nat, pairs: nat, round: nat)
    ensures GrowthStops(added, before, pairs, round)
       <==> round > 0 && 50 * added < (if before + pairs > 1 then before + pairs else 1)
  {
    var size := if before + pairs > 1 then before + pairs else 1;
    var share := added as real / size as real;
    assert share * (size as real) == added as real;
    if share < 0.02 {
      assert share * (size as real) < 0.02 * (size as real);
    } else {
      assert share * (size as real) >= 0.02 * (size as real);
    }
  }

  lemma LaterStop(stops: Stopper, i: nat, accepted: seq<Label>, b: seq<seq<Label>>, k: nat)
    requires k + 1 < |b|
    ensures stops(|b[k + 1]|, |accepted| + Size(b, k + 1), i + k + 1)
         == stops(|b[1..][k]|, |accepted + b[0]| + Size(b[1..], k), i + 1 + k)
  {
    SizeCons(b, k);
  }

  /** No batch is empty, and none but the last stops the loop. */
  lemma {:induction false} EarlierGoOn(add: Adder, stops: Stopper, i: nat, rounds: nat, accepted: seq<Label>, k: nat)
    requires k < |Batches(add, stops, i, rounds, accepted)|
    ensures var b := Batches(add, stops, i, rounds, accepted);
      |b| <= rounds && |b[k]| > 0 && (k < |b| - 1 ==> !stops(|b[k]|, |accepted| + Size(b, k), i + k))
    decreases rounds
  {
    var b := Batches(add, stops, i, rounds, accepted);
    if k > 0 {
      LaterStop(stops, i, accepted, b, k - 1);
      EarlierGoOn(add, stops, i + 1, rounds - 1, accepted + b[0], k - 1);
    } else {
      assert Size(b, 0) == 0;
      if |b| > 1 {
        EarlierGoOn(add, stops, i + 1, rounds - 1, accepted + b[0], 0);
      }
    }
  }

  // The last of the batches stopped the loop, or the round after them added nothing.
  ghost predicate EndsItself(add: Adder, stops: Stopper, i: nat, accepted: seq<Label>, b: seq<seq<Label>>) {
    || (|b| > 0 && stops(|b[|b| - 1]|, |accepted| + Size(b, |b| - 1), i + |b| - 1))
    || add(i + |b|, accepted + Flat(b)) == []
  }

  lemma EndsItselfLater(add: Adder, stops: Stopper, i: nat, accepted: seq<Label>, b: seq<seq<Label>>)
    requires b != [] && EndsItself(add, stops, i + 1, accepted + b[0], b[1..])
    ensures EndsItself(add, stops, i, accepted, b)
  {
    var rest, before := b[1..], accepted + b[0];
    assert accepted + Flat(b) == before + Flat(rest) by {
      Regroup(accepted, b[0], Flat(rest));
    }
    hide Flat, Size;
    assert i + |b| == i + 1 + |rest|;
    if rest != [] {
      LaterStop(stops, i, accepted, b, |b| - 2);
    }
  }

  lemma {:induction false} EndsItselfEarly(add: Adder, stops: Stopper, i: nat, rounds: nat, accepted: seq<Label>)
    requires |Batches(add, stops, i, rounds, accepted)| < rounds
    ensures EndsItself(add, stops, i, accepted, Batches(add, stops, i, rounds, accepted))
    decreases rounds
  {
    var b := Batches(add, stops, i, rounds, accepted);
    if b == [] {
      assert accepted + Flat(b) == accepted;
    } else if stops(|b[0]|, |accepted|, i) {
      assert Size(b, 0) == 0;
    } else {
      assert b[1..] == Batches(add, stops, i + 1, rounds - 1, accepted + b[0]);
      EndsItselfEarly(add, stops, i + 1, rounds - 1, accepted + b[0]);
      EndsItselfLater(add, stops, i, accepted, b);
    }
  }

  /**
   When the loop ends: no batch is empty, none but the last grows too slowly, and if fewer rounds than allowed added
   something then the last one did, or in the next round no pair qualified.
   */
  lemma EndsForAReason(oracle: Oracle, base: nat, rounds: nat, pairs: seq<Pair>, tau: real)
    ensures var b := SelfTrained(oracle, base, rounds, pairs, tau);
      && |b| <= rounds
      && (forall k :: 0 <= k < |b| ==> |b[k]| > 0)
      && (forall k :: 0 <= k < |b| - 1 ==> !GrowsSlowly(b, |pairs|, k))
      && (|b| < rounds ==>
            || (b != [] && GrowsSlowly(b, |pairs|, |b| - 1))
            || forall p :: p in pairs ==> !Qualifies(oracle(base + |b|), p, tau, b, |b|))
  {
    var b := SelfTrained(oracle, base, rounds, pairs, tau);
    var add, stops := Rounds(oracle, base, pairs, tau), SlowGrowth(|pairs|);
    forall k | 0 <= k < |b| ensures |b| <= rounds && |b[k]| > 0 && (k < |b| - 1 ==> !GrowsSlowly(b, |pairs|, k)) {
      EarlierGoOn(add, stops, 0, rounds, [], k);
      GrowthIsAFiftieth(|b[k]|, Size(b, k), |pairs|, k);
    }
    if |b| < rounds {
      EndsEarly(oracle, base, rounds, pairs, tau);
    }
    if |b| > 0 {
      EarlierGoOn(add, stops, 0, rounds, [], 0);
    }
  }

  lemma EndsEarly(oracle: Oracle, base: nat, rounds: nat, pairs: seq<Pair>, tau: real)
    requires |SelfTrained(oracle, base, rounds, pairs, tau)| < rounds
    ensures var b := SelfTrained(oracle, base, rounds, pairs, tau);
      || (b != [] && GrowsSlowly(b, |pairs|, |b| - 1))
      || forall p :: p in pairs ==> !Qualifies(oracle(base + |b|), p, tau, b, |b|)
  {
    var b := SelfTrained(oracle, base, rounds, pairs, tau);
    EndsItselfEarly(Rounds(oracle, base, pairs, tau), SlowGrowth(|pairs|), 0, rounds, []);
    assert [] + Flat(b) == Flat(b);
    hide Batches, Flat, Size, SelfTrained, Qualifies;
    if Additions(oracle(base + |b|), pairs, tau, Flat(b)) == [] {
      NothingQualifies(oracle(base + |b|), pairs, tau, b);
    } else {
      GrowthIsAFiftieth(|b[|b| - 1]|, Size(b, |b| - 1), |pairs|, |b| - 1);
    }
  }

  lemma NothingQualifies(c: Classifier, pairs: seq<Pair>, tau: real, b: seq<seq<Label>>)
    requires Additions(c, pairs, tau, Flat(b)) == []
    ensures forall p :: p in pairs ==> !Qualifies(c, p, tau, b, |b|)
  {
    var at := AdditionsAt(c, pairs, tau, Flat(b));
    assert b[..|b|] == b;
    forall p | p in pairs ensures !Qualifies(c, p, tau, b, |b|) {
      var i :| 0 <= i < |pairs| && pairs[i] == p;
      assert i !in at;
      FlatDiffs(b, |b|, p.diff);
    }
  }
}
