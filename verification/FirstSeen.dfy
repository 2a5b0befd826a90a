/** The keys of a dictionary, in the order in which they were first inserted. */
module FirstSeen {

  ghost predicate NoRepeats<T>(s: seq<T>) {
    forall i, j :: 0 <= i < j < |s| ==> s[i] != s[j]
  }

  /** The elements of `s` in order of first occurrence. */
  function Distinct<T(==,!new)>(s: seq<T>): (r: seq<T>)
    ensures NoRepeats(r)
    ensures forall x :: x in r <==> x in s
  {
    if s == [] then []
    else
      var last := s[|s| - 1];
      var before := Distinct(s[..|s| - 1]);
      assert s == s[..|s| - 1] + [last];
      if last in before then before else before + [last]
  }

  lemma DistinctSnoc<T(!new)>(s: seq<T>, x: T)
    ensures Distinct(s + [x]) == if x in s then Distinct(s) else Distinct(s) + [x]
  {
    assert (s + [x])[..|s|] == s;
  }

  lemma {:induction false} DistinctFirst<T(!new)>(s: seq<T>)
    requires s != []
    ensures Distinct(s) != [] && Distinct(s)[0] == s[0]
    decreases |s|
  {
    if |s| > 1 {
      DistinctFirst(s[..|s| - 1]);
    } else {
      assert s[..0] == [] && s == [s[0]];
    }
  }

  lemma {:induction false} DistinctOfDistinct<T(!new)>(s: seq<T>)
    requires NoRepeats(s)
    ensures Distinct(s) == s
    decreases |s|
  {
    if s != [] {
      DistinctOfDistinct(s[..|s| - 1]);
      assert s == s[..|s| - 1] + [s[|s| - 1]];
    }
  }

  lemma {:induction false} NoRepeatsCountsOnce<T>(s: seq<T>)
    requires NoRepeats(s)
    ensures forall x :: x in s ==> multiset(s)[x] == 1
    decreases |s|
  {
    if s != [] {
      NoRepeatsCountsOnce(s[1..]);
      assert s == [s[0]] + s[1..];
    }
  }

  /** A permutation of a sequence without repeats has none. */
  lemma PermutationKeepsNoRepeats<T>(s: seq<T>, t: seq<T>)
    requires NoRepeats(s) && multiset(s) == multiset(t)
    ensures NoRepeats(t)
  {
    NoRepeatsCountsOnce(s);
    forall i, j | 0 <= i < j < |t| ensures t[i] != t[j] {
      assert t == t[..i] + [t[i]] + t[i + 1..];
      assert t[j] in multiset(t[i + 1..]) && t[i] in multiset(s);
    }
  }

  /** Distinct elements stand in the order in which they first occur. */
  lemma {:induction false} DistinctInOrder<T(!new)>(s: seq<T>, i: nat, j: nat) returns (p: nat)
    requires i < j < |Distinct(s)|
    ensures p < |s| && s[p] == Distinct(s)[i] && forall q :: 0 <= q <= p ==> s[q] != Distinct(s)[j]
    decreases |s|
  {
    var n := |s| - 1;
    var before := Distinct(s[..n]);
    if j < |before| {
      p := DistinctInOrder(s[..n], i, j);
    } else {
      assert before[i] in s[..n];
      p :| 0 <= p < n && s[..n][p] == before[i];
      forall q | 0 <= q <= p ensures s[q] != s[n] {
        assert s[..n][q] in s[..n];
      }
    }
  }
}
