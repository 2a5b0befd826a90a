/** Paging through a commit log. */
module CommitPages {

  const DEFAULT_PER_PAGE: nat := 30

  function PerPage(perPage: int): nat {
    if perPage < 1 then DEFAULT_PER_PAGE else perPage
  }

  /** `log[skip : skip + per_page]`, both ends cut to the log, after the two arguments are repaired. */
  function Page<T>(log: seq<T>, page: int, perPage: int): seq<T> {
    var n := PerPage(perPage);
    var skip: int := (if page < 1 then 0 else page - 1) * n;
    var lo := if skip < |log| then skip else |log|;
    var hi := if skip + n < |log| then skip + n else |log|;
    log[lo..hi]
  }

  /** The pages from the first to the last, one after the other. */
  function Pages<T>(log: seq<T>, last: nat, perPage: int): seq<T> {
    if last == 0 then [] else Pages(log, last - 1, perPage) + Page(log, last, perPage)
  }

  lemma NextPage(last: nat, n: nat)
    requires last >= 1
    ensures last * n == (last - 1) * n + n
  {
  }

  /** Reading the pages in turn reads the log in order, and once they cover it, all of it. */
  lemma {:induction false} PagesAreTheLog<T>(log: seq<T>, last: nat, perPage: int)
    ensures Pages(log, last, perPage) <= log
    ensures |Pages(log, last, perPage)| == if last * PerPage(perPage) < |log| then last * PerPage(perPage) else |log|
    ensures last * PerPage(perPage) >= |log| ==> Pages(log, last, perPage) == log
    decreases last
  {
    if last > 0 {
      PagesAreTheLog(log, last - 1, perPage);
      NextPage(last, PerPage(perPage));
    }
  }

  lemma SkipOrder(a: int, b: int, n: int)
    requires a <= b && n >= 0
    ensures a * n <= b * n
  {
  }

  /** The commit at place `i` of the log stands on one page only, at one place of it. */
  lemma OnOnePageOnly<T>(log: seq<T>, i: nat, perPage: int, page: int)
    requires i < |log| && page >= 1
    ensures var n := PerPage(perPage);
      (page - 1) * n <= i < page * n <==> page == i / n + 1
    ensures page == i / PerPage(perPage) + 1 ==>
      i % PerPage(perPage) < |Page(log, page, perPage)| && Page(log, page, perPage)[i % PerPage(perPage)] == log[i]
  {
    var n := PerPage(perPage);
    var q := i / n;
    assert i == q * n + i % n;
    NextPage(page, n);
    if page - 1 < q {
      SkipOrder(page, q, n);
    } else if page - 1 > q {
      SkipOrder(q + 1, page - 1, n);
      assert (q + 1) * n == q * n + n;
    }
  }
  /** Arguments below one are repaired: the first page, and thirty commits a page. */
  lemma SmallArguments<T>(log: seq<T>, page: int, perPage: int)
    ensures page < 1 ==> Page(log, page, perPage) == Page(log, 1, perPage)
    ensures perPage < 1 ==> Page(log, page, perPage) == Page(log, page, 30)
    ensures perPage >= 1 ==> PerPage(perPage) == perPage
  {
  }
}
