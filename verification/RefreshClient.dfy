/**
 The browser client's single-flight token refresh.

 `Page` is one loaded page: the module variables and the two stored tokens, with the
 history of what was sent and how each waiting request ended.  The functions say what
 each callback does to a page; `ApiClient` does the same by updating variables in place.
 Promise continuations run before the next event, so each callback is one step.
 */
module RefreshClient {
  import opened Wrappers

  type Token = string
  type Request = nat

  // An empty string is as good as no token.
  predicate Truthy(t: Option<Token>) {
    t.Some? && t.value != ""
  }

  datatype RefreshEnd = Renewed(access: Token) | Failed

  // Request `waiter` was queued during the refresh number `refresh` of this page.
  datatype Wait = Wait(waiter: Request, refresh: nat)
  datatype Settlement = Settlement(wait: Wait, end: RefreshEnd)

  datatype Dispatch = Dispatch(request: Request, bearer: Option<Token>)

  datatype Page = Page(
    refreshing: bool,
    queue: seq<Request>,
    retried: set<Request>,
    access: Option<Token>,
    refresh: Option<Token>,
    original: Request,           // the request whose 401 started the refresh in flight
    sent: seq<Dispatch>,         // every request put on the network
    posts: seq<Token>,           // every refresh token posted to the refresh endpoint
    waits: seq<Wait>,            // every wait begun
    ends: seq<RefreshEnd>,       // how each finished refresh ended
    settled: seq<Settlement>)    // how each finished wait was settled

  function Loaded(access: Option<Token>, refresh: Option<Token>): Page {
    Page(false, [], {}, access, refresh, 0, [], [], [], [], [])
  }

  // ----- What each callback does -----

  /** The request interceptor: a stored token replaces whatever header the request carries. */
  function Dispatched(p: Page, r: Request, header: Option<Token>): Page {
    p.(sent := p.sent + [Dispatch(r, if Truthy(p.access) then p.access else header)])
  }

  /** Whether a 401 for `r` makes this page start a refresh. */
  predicate StartsRefresh(p: Page, r: Request) {
    r !in p.retried && !p.refreshing && Truthy(p.refresh)
  }

  function Unauthorized(p: Page, r: Request): Page {
    if r in p.retried then
      p
    else
      var p1 := p.(retried := p.retried + {r});
      if p1.refreshing then
        p1.(queue := p1.queue + [r], waits := p1.waits + [Wait(r, |p1.ends|)])
      else if !Truthy(p1.refresh) then
        p1
      else
        p1.(refreshing := true, original := r, posts := p1.posts + [p1.refresh.value])
  }

  function SettleAll(queue: seq<Request>, refresh: nat, end: RefreshEnd): (s: seq<Settlement>)
    ensures |s| == |queue|
    ensures forall i :: 0 <= i < |s| ==> s[i] == Settlement(Wait(queue[i], refresh), end)
  {
    seq(|queue|, i requires 0 <= i < |queue| => Settlement(Wait(queue[i], refresh), end))
  }

  function ResendAll(p: Page, waiters: seq<Request>, token: Token): Page
    decreases |waiters|
  {
    if waiters == [] then p else ResendAll(Dispatched(p, waiters[0], Some(token)), waiters[1..], token)
  }

  // The page after the waiters of a successful refresh are resolved and before any request is sent again.
  function Stored(p: Page, access: Token, refresh: Token): Page {
    p.(access := Some(access), refresh := Some(refresh), ends := p.ends + [Renewed(access)],
       settled := p.settled + SettleAll(p.queue, |p.ends|, Renewed(access)), queue := [])
  }

  function RefreshSucceeded(p: Page, access: Token, refresh: Token): Page {
    var resent := ResendAll(Stored(p, access, refresh), p.queue, access);
    Dispatched(resent, p.original, Some(access)).(refreshing := false)
  }

  function RefreshFailed(p: Page): Page {
    p.(access := None, refresh := None, ends := p.ends + [Failed],
       settled := p.settled + SettleAll(p.queue, |p.ends|, Failed), queue := [], refreshing := false)
  }

  /** The refresh endpoint answered 200; an answer without both tokens counts as a failure. */
  function RefreshAnswered(p: Page, access: Option<Token>, refresh: Option<Token>): Page {
    if Truthy(access) && Truthy(refresh) then RefreshSucceeded(p, access.value, refresh.value) else RefreshFailed(p)
  }

  function StoreLogin(p: Page, access: Token, refresh: Token): Page {
    p.(access := Some(access), refresh := Some(refresh))
  }

  function Logout(p: Page): Page {
    p.(access := None, refresh := None)
  }

  // ----- The same callbacks over module variables -----

  class ApiClient {
    var isRefreshing: bool
    var failedQueue: seq<Request>
    var retry: set<Request>
    var accessItem: Option<Token>
    var refreshItem: Option<Token>
    var original: Request
    ghost var sent: seq<Dispatch>
    ghost var posts: seq<Token>
    ghost var waits: seq<Wait>
    ghost var ends: seq<RefreshEnd>
    ghost var settled: seq<Settlement>

    constructor (access: Option<Token>, refresh: Option<Token>)
      ensures State() == Loaded(access, refresh)
    {
      isRefreshing, failedQueue, retry := false, [], {};
      accessItem, refreshItem, original := access, refresh, 0;
      sent, posts, waits, ends, settled := [], [], [], [], [];
    }

    ghost function State(): Page
      reads this
    {
      Page(isRefreshing, failedQueue, retry, accessItem, refreshItem, original, sent, posts, waits, ends, settled)
    }

    method Send(r: Request, header: Option<Token>)
      modifies this`sent
      ensures State() == Dispatched(old(State()), r, header)
    {
      if Truthy(accessItem) {
        sent := sent + [Dispatch(r, accessItem)];
      } else {
        sent := sent + [Dispatch(r, header)];
      }
    }

    method OnUnauthorized(r: Request) returns (post: Option<Token>)
      modifies this
      ensures State() == Unauthorized(old(State()), r)
      ensures post == if StartsRefresh(old(State()), r) then old(refreshItem) else None
    {
      if r in retry {
        return None;
      }
      retry := retry + {r};
      if isRefreshing {
        failedQueue := failedQueue + [r];
        waits := waits + [Wait(r, |ends|)];
        return None;
      }
      if !Truthy(refreshItem) {
        return None;
      }
      isRefreshing := true;
      original := r;
      posts := posts + [refreshItem.value];
      post := refreshItem;
    }

    /** Empties the queue first and then settles the waiters in order; a resolved waiter sends its request again. */
    method ProcessQueue(end: RefreshEnd)
      requires end.Renewed? ==> accessItem == Some(end.access)
      modifies this`failedQueue, this`settled, this`sent
      ensures failedQueue == []
      ensures settled == old(settled) + SettleAll(old(failedQueue), |ends|, end)
      ensures sent == if end.Failed? then old(sent)
                      else ResendAll(old(State()), old(failedQueue), end.access).sent
    {
      var queue := failedQueue;
      failedQueue := [];
      ghost var emptied := State();
      var i := 0;
      while i < |queue|
        invariant 0 <= i <= |queue|
        invariant failedQueue == []
        invariant settled == old(settled) + SettleAll(queue[..i], |ends|, end)
        invariant end.Failed? ==> sent == old(sent)
        invariant end.Renewed? ==>
          ResendAll(State(), queue[i..], end.access).sent == ResendAll(emptied, queue, end.access).sent
      {
        settled := settled + [Settlement(Wait(queue[i], |ends|), end)];
        assert SettleAll(queue[..i + 1], |ends|, end)
            == SettleAll(queue[..i], |ends|, end) + [Settlement(Wait(queue[i], |ends|), end)];
        if end.Renewed? {
          ghost var before := State();
          ResendDependsOnlyOnSent(before, before.(settled := settled[..|settled| - 1]), queue[i..], end.access);
          Send(queue[i], Some(end.access));
          assert queue[i..][1..] == queue[i + 1..];
        }
        i := i + 1;
      }
      assert queue[..i] == queue;
      if end.Renewed? {
        ResendDependsOnlyOnSent(emptied, old(State()), queue, end.access);
      }
    }

    method OnRefreshAnswer(access: Option<Token>, refresh: Option<Token>)
      requires isRefreshing
      modifies this
      ensures State() == RefreshAnswered(old(State()), access, refresh)
    {
      if !Truthy(access) || !Truthy(refresh) {
        OnRefreshError();
        return;
      }
      accessItem, refreshItem := access, refresh;
      ghost var waiting := State();
      ProcessQueue(Renewed(access.value));
      ends := ends + [Renewed(access.value)];
      ghost var stored := Stored(old(State()), access.value, refresh.value);
      ResendKeepsTheRest(stored, old(failedQueue), access.value);
      ResendDependsOnlyOnSent(stored, waiting, old(failedQueue), access.value);
      Send(original, access);
      isRefreshing := false;
    }

    method OnRefreshError()
      requires isRefreshing
      modifies this
      ensures State() == RefreshFailed(old(State()))
    {
      ProcessQueue(Failed);
      ends := ends + [Failed];
      accessItem, refreshItem := None, None;
      isRefreshing := false;
    }

    method SaveLogin(access: Token, refresh: Token)
      modifies this`accessItem, this`refreshItem
      ensures State() == StoreLogin(old(State()), access, refresh)
    {
      accessItem, refreshItem := Some(access), Some(refresh);
    }

    method ClearTokens()
      modifies this`accessItem, this`refreshItem
      ensures State() == Logout(old(State()))
    {
      accessItem, refreshItem := None, None;
    }
  }

  lemma {:induction false} ResendDependsOnlyOnSent(p: Page, q: Page, waiters: seq<Request>, token: Token)
    requires p.sent == q.sent && p.access == q.access
    ensures ResendAll(p, waiters, token).sent == ResendAll(q, waiters, token).sent
    decreases |waiters|
  {
    if waiters != [] {
      ResendDependsOnlyOnSent(Dispatched(p, waiters[0], Some(token)), Dispatched(q, waiters[0], Some(token)),
                              waiters[1..], token);
    }
  }

  lemma {:induction false} ResendKeepsTheRest(p: Page, waiters: seq<Request>, token: Token)
    ensures ResendAll(p, waiters, token) == p.(sent := ResendAll(p, waiters, token).sent)
    decreases |waiters|
  {
    if waiters != [] {
      ResendKeepsTheRest(Dispatched(p, waiters[0], Some(token)), waiters[1..], token);
    }
  }

  // ----- Runs of one page -----

  datatype Event =
    | Send(r: Request)
    | Reply401(r: Request)
    | Answer(access: Option<Token>, refresh: Option<Token>)
    | Error
    | LoggedIn(newAccess: Token, newRefresh: Token)
    | LoggedOut

  function SentRequests(sent: seq<Dispatch>): multiset<Request> {
    multiset(seq(|sent|, i requires 0 <= i < |sent| => sent[i].request))
  }

  /** A call of the client makes a request not seen before, and only a refresh in flight can end. */
  predicate Possible(p: Page, e: Event) {
    match e
    case Send(r) => SentRequests(p.sent)[r] == 0 && r !in p.retried
    case Reply401(r) => SentRequests(p.sent)[r] > 0
    case Answer(_, _) => p.refreshing
    case Error => p.refreshing
    case _ => true
  }

  function Next(p: Page, e: Event): Page {
    match e
    case Send(r) => Dispatched(p, r, None)
    case Reply401(r) => Unauthorized(p, r)
    case Answer(access, refresh) => RefreshAnswered(p, access, refresh)
    case Error => RefreshFailed(p)
    case LoggedIn(access, refresh) => StoreLogin(p, access, refresh)
    case LoggedOut => Logout(p)
  }

  predicate PageCanRun(p: Page, es: seq<Event>)
    decreases |es|
  {
    es == [] || (Possible(p, es[0]) && PageCanRun(Next(p, es[0]), es[1..]))
  }

  function PageRun(p: Page, es: seq<Event>): Page
    decreases |es|
  {
    if es == [] then p else PageRun(Next(p, es[0]), es[1..])
  }

  // Refreshes posted are those that ended plus, while one is in flight, that one.
  ghost predicate SingleFlight(p: Page) {
    && |p.posts| == |p.ends| + (if p.refreshing then 1 else 0)
    && (p.queue != [] ==> p.refreshing)
  }

  // Each settlement is of the wait begun at the same position, with the end of the refresh it waited on.
  ghost predicate Matched(settled: seq<Settlement>, waits: seq<Wait>, ends: seq<RefreshEnd>) {
    && |settled| <= |waits|
    && forall i :: 0 <= i < |settled| ==>
         settled[i].wait == waits[i] && waits[i].refresh < |ends| && settled[i].end == ends[waits[i].refresh]
  }

  /**
   The waits begun are, in order, those already settled, each with the end of the refresh it
   waited on, followed by those in the queue, which wait on the refresh in flight.  No request
   waits twice.
   */
  ghost predicate WaitsAccounted(p: Page) {
    && |p.waits| == |p.settled| + |p.queue|
    && Matched(p.settled, p.waits, p.ends)
    && (forall i :: 0 <= i < |p.queue| ==> p.waits[|p.settled| + i] == Wait(p.queue[i], |p.ends|))
    && (forall i :: 0 <= i < |p.waits| ==> p.waits[i].waiter in p.retried)
    && (forall i, j :: 0 <= i < j < |p.waits| ==> p.waits[i].waiter != p.waits[j].waiter)
  }

  // How often a request can have been sent: a second time only once its wait or its refresh is over.
  ghost function MostSends(p: Page, r: Request): nat {
    if r !in p.retried || r in p.queue || (p.refreshing && r == p.original) then 1 else 2
  }

  ghost predicate SendsBounded(p: Page) {
    && (forall r :: SentRequests(p.sent)[r] <= MostSends(p, r))
    && (p.refreshing ==> p.original in p.retried && p.original !in p.queue)
    && (forall r :: r in p.queue ==> r in p.retried)
  }

  ghost predicate PageInv(p: Page) {
    SingleFlight(p) && WaitsAccounted(p) && SendsBounded(p)
  }

  lemma SentAppend(sent: seq<Dispatch>, d: Dispatch)
    ensures SentRequests(sent + [d]) == SentRequests(sent) + multiset{d.request}
  {
    var a := seq(|sent|, i requires 0 <= i < |sent| => sent[i].request);
    var b := seq(|sent + [d]|, i requires 0 <= i < |sent + [d]| => (sent + [d])[i].request);
    assert b == a + [d.request];
  }

  lemma {:induction false} ResendSendsEachOnce(p: Page, waiters: seq<Request>, token: Token)
    ensures SentRequests(ResendAll(p, waiters, token).sent) == SentRequests(p.sent) + multiset(waiters)
    decreases |waiters|
  {
    if waiters != [] {
      var q := Dispatched(p, waiters[0], Some(token));
      SentAppend(p.sent, q.sent[|p.sent|]);
      ResendSendsEachOnce(q, waiters[1..], token);
      assert waiters == [waiters[0]] + waiters[1..];
    }
  }

  lemma DistinctOnce(s: seq<Request>, r: Request)
    requires forall i, j :: 0 <= i < j < |s| ==> s[i] != s[j]
    ensures multiset(s)[r] == if r in s then 1 else 0
    decreases |s|
  {
    if s != [] {
      assert s == [s[0]] + s[1..];
      DistinctOnce(s[1..], r);
    }
  }

  lemma SuccessIsStoredAndSent(p: Page, access: Token, refresh: Token)
    ensures var q := RefreshSucceeded(p, access, refresh);
      && q == Stored(p, access, refresh).(sent := q.sent, refreshing := false)
      && SentRequests(q.sent) == SentRequests(p.sent) + multiset(p.queue) + multiset{p.original}
  {
    var stored := Stored(p, access, refresh);
    var resent := ResendAll(stored, p.queue, access);
    ResendKeepsTheRest(stored, p.queue, access);
    ResendSendsEachOnce(stored, p.queue, access);
    SentAppend(resent.sent, RefreshSucceeded(p, access, refresh).sent[|resent.sent|]);
  }

  lemma {:induction false} ResendAppends(p: Page, waiters: seq<Request>, token: Token)
    requires p.access == Some(token) && token != ""
    ensures var sent := ResendAll(p, waiters, token).sent;
      && p.sent <= sent && |sent| == |p.sent| + |waiters|
      && forall i :: 0 <= i < |waiters| ==> sent[|p.sent| + i] == Dispatch(waiters[i], Some(token))
    decreases |waiters|
  {
    if waiters != [] {
      var q := Dispatched(p, waiters[0], Some(token));
      ResendAppends(q, waiters[1..], token);
      var sent := ResendAll(p, waiters, token).sent;
      forall i | 0 <= i < |waiters| ensures sent[|p.sent| + i] == Dispatch(waiters[i], Some(token)) {
        if i > 0 {
          assert sent[|q.sent| + (i - 1)] == Dispatch(waiters[1..][i - 1], Some(token));
        } else {
          assert sent[|p.sent|] == q.sent[|p.sent|];
        }
      }
    }
  }

  // `settled` goes on from `before` with the waiters of `p`, each settled with `end`.
  ghost predicate SettlesQueue(p: Page, q: Page, end: RefreshEnd) {
    && |q.settled| == |p.settled| + |p.queue| && p.settled <= q.settled
    && (forall i :: 0 <= i < |p.queue| ==> q.settled[|p.settled| + i] == Settlement(Wait(p.queue[i], |p.ends|), end))
    && q.ends == p.ends + [end] && q.queue == [] && !q.refreshing
  }

  /**
   An answer with both tokens: they are stored as they came, the waiters are told of the access token, and they
   and the request that started the refresh are sent again with it; nothing else changes.
   */
  lemma AnswerIsStoredAndSent(p: Page, access: Token, refresh: Token)
    requires p.refreshing && access != "" && refresh != ""
    ensures var q := Next(p, Answer(Some(access), Some(refresh)));
      && q.access == Some(access) && q.refresh == Some(refresh)
      && SettlesQueue(p, q, Renewed(access))
      && p.sent <= q.sent && |q.sent| == |p.sent| + |p.queue| + 1
      && (forall i :: 0 <= i < |p.queue| ==> q.sent[|p.sent| + i] == Dispatch(p.queue[i], Some(access)))
      && q.sent[|q.sent| - 1] == Dispatch(p.original, Some(access))
      && q.posts == p.posts && q.waits == p.waits && q.retried == p.retried && q.original == p.original
  {
    var stored := Stored(p, access, refresh);
    ResendKeepsTheRest(stored, p.queue, access);
    ResendAppends(stored, p.queue, access);
  }

  // The refresh ends without both tokens.
  predicate Fails(e: Event) {
    e.Error? || (e.Answer? && (e.access in {None, Some("")} || e.refresh in {None, Some("")}))
  }

  /** Any other end, an answer that lacks a token included: both tokens are removed, every waiter fails, nothing is sent. */
  lemma FailureForgetsTokens(p: Page, e: Event)
    requires p.refreshing && Fails(e)
    ensures var q := Next(p, e);
      && q.access == None && q.refresh == None
      && SettlesQueue(p, q, Failed)
      && q.sent == p.sent && q.posts == p.posts && q.waits == p.waits && q.retried == p.retried
  {
    var q := RefreshFailed(p);
    assert Next(p, e) == q;
    assert forall i :: 0 <= i < |p.queue| ==> q.settled[|p.settled| + i] == SettleAll(p.queue, |p.ends|, Failed)[i];
  }

  // The request `r` was refused, and is sent again when the refresh in flight succeeds.
  predicate Awaits(p: Page, r: Request) {
    p.refreshing && r in p.retried && (r in p.queue || r == p.original)
  }

  predicate EndsRefresh(e: Event) {
    e.Answer? || e.Error?
  }

  lemma {:induction false} StillAwaits(p: Page, es: seq<Event>, r: Request)
    requires PageInv(p) && Awaits(p, r) && PageCanRun(p, es) && forall e :: e in es ==> !EndsRefresh(e)
    ensures PageInv(PageRun(p, es)) && Awaits(PageRun(p, es), r)
    decreases |es|
  {
    if es != [] {
      assert es[0] in es;
      NextKeepsInv(p, es[0]);
      StillAwaits(Next(p, es[0]), es[1..], r);
    }
  }

  // The times `sent` holds the request `r`.
  function TimesSent(sent: seq<Dispatch>, r: Request): nat {
    SentRequests(sent)[r]
  }

  /**
   A request refused for the first time, while the page has a refresh token or a refresh in flight, is sent again,
   once, with the very token the next successful answer brings, whatever the page does in between.
   */
  lemma RefusedIsSentAgain(p: Page, r: Request, es: seq<Event>, access: Token, refresh: Token)
    requires PageInv(p) && Possible(p, Reply401(r)) && r !in p.retried && (p.refreshing || Truthy(p.refresh))
    requires PageCanRun(Next(p, Reply401(r)), es) && forall e :: e in es ==> !EndsRefresh(e)
    requires access != "" && refresh != ""
    ensures var before := PageRun(Next(p, Reply401(r)), es);
      before.refreshing && SentAgain(before, Next(before, Answer(Some(access), Some(refresh))), r, access)
  {
    NextKeepsInv(p, Reply401(r));
    StillAwaits(Next(p, Reply401(r)), es, r);
    AwaitedIsSent(PageRun(Next(p, Reply401(r)), es), r, access, refresh);
  }

  // Between `before` and `after` the request was sent once, with the given token.
  ghost predicate SentAgain(before: Page, after: Page, r: Request, access: Token) {
    && TimesSent(after.sent, r) == TimesSent(before.sent, r) + 1
    && exists i :: |before.sent| <= i < |after.sent| && after.sent[i] == Dispatch(r, Some(access))
  }

  lemma AwaitedIsSentOnce(p: Page, r: Request, access: Token, refresh: Token)
    requires PageInv(p) && Awaits(p, r) && access != "" && refresh != ""
    ensures TimesSent(Next(p, Answer(Some(access), Some(refresh))).sent, r) == TimesSent(p.sent, r) + 1
  {
    SuccessIsStoredAndSent(p, access, refresh);
    WaitersAreDistinct(p);
    DistinctOnce(p.queue, r);
    assert r == p.original ==> r !in p.queue;
    hide RefreshSucceeded, SentRequests;
  }

  lemma AwaitedIsSent(p: Page, r: Request, access: Token, refresh: Token)
    requires PageInv(p) && Awaits(p, r) && access != "" && refresh != ""
    ensures SentAgain(p, Next(p, Answer(Some(access), Some(refresh))), r, access)
  {
    var q := Next(p, Answer(Some(access), Some(refresh)));
    AwaitedIsSentOnce(p, r, access, refresh);
    AnswerIsStoredAndSent(p, access, refresh);
    hide Next, PageInv, TimesSent;
    if r in p.queue {
      var i :| 0 <= i < |p.queue| && p.queue[i] == r;
      assert q.sent[|p.sent| + i] == Dispatch(r, Some(access));
    } else {
      assert q.sent[|q.sent| - 1] == Dispatch(r, Some(access));
    }
  }

  lemma WaitersAreDistinct(p: Page)
    requires WaitsAccounted(p)
    ensures forall i, j :: 0 <= i < j < |p.queue| ==> p.queue[i] != p.queue[j]
  {
    forall i, j | 0 <= i < j < |p.queue| ensures p.queue[i] != p.queue[j] {
      assert p.waits[|p.settled| + i].waiter != p.waits[|p.settled| + j].waiter;
    }
  }

  lemma SuccessKeepsSendsBounded(p: Page, access: Token, refresh: Token)
    requires PageInv(p) && p.refreshing
    ensures SendsBounded(RefreshSucceeded(p, access, refresh))
  {
    var q := RefreshSucceeded(p, access, refresh);
    SuccessIsStoredAndSent(p, access, refresh);
    WaitersAreDistinct(p);
    forall r ensures SentRequests(q.sent)[r] <= MostSends(q, r) {
      DistinctOnce(p.queue, r);
    }
  }

  lemma SettlingMatches(settled: seq<Settlement>, waits: seq<Wait>, ends: seq<RefreshEnd>, queue: seq<Request>, end: RefreshEnd)
    requires Matched(settled, waits, ends) && |waits| == |settled| + |queue|
    requires forall i :: 0 <= i < |queue| ==> waits[|settled| + i] == Wait(queue[i], |ends|)
    ensures Matched(settled + SettleAll(queue, |ends|, end), waits, ends + [end])
  {
    var all, more := settled + SettleAll(queue, |ends|, end), SettleAll(queue, |ends|, end);
    forall i | 0 <= i < |all|
      ensures all[i].wait == waits[i] && waits[i].refresh < |ends| + 1 && all[i].end == (ends + [end])[waits[i].refresh]
    {
      if i >= |settled| {
        var j := i - |settled|;
        assert all[i] == more[j] && waits[|settled| + j] == Wait(queue[j], |ends|);
      }
    }
  }

  lemma SettlingKeepsWaits(p: Page, end: RefreshEnd)
    requires WaitsAccounted(p)
    ensures WaitsAccounted(p.(ends := p.ends + [end], settled := p.settled + SettleAll(p.queue, |p.ends|, end), queue := []))
  {
    assert Matched(p.settled, p.waits, p.ends);
    SettlingMatches(p.settled, p.waits, p.ends, p.queue, end);
  }

  lemma SuccessKeepsInv(p: Page, access: Token, refresh: Token)
    requires PageInv(p) && p.refreshing
    ensures PageInv(RefreshSucceeded(p, access, refresh))
  {
    var q := RefreshSucceeded(p, access, refresh);
    SuccessIsStoredAndSent(p, access, refresh);
    SuccessKeepsSendsBounded(p, access, refresh);
    SettlingKeepsWaits(p, Renewed(access));
    assert SingleFlight(q);
    assert WaitsAccounted(q);
  }

  lemma FailureKeepsInv(p: Page)
    requires PageInv(p) && p.refreshing
    ensures PageInv(RefreshFailed(p))
  {
    SettlingKeepsWaits(p, Failed);
    assert WaitsAccounted(RefreshFailed(p));
    assert SendsBounded(RefreshFailed(p));
  }

  lemma UnauthorizedKeepsSendsBounded(p: Page, r: Request)
    requires PageInv(p) && SentRequests(p.sent)[r] > 0
    ensures SendsBounded(Unauthorized(p, r))
  {
    hide SentRequests, WaitsAccounted;
  }

  lemma UnauthorizedKeepsInv(p: Page, r: Request)
    requires PageInv(p) && SentRequests(p.sent)[r] > 0
    ensures PageInv(Unauthorized(p, r))
  {
    var q := Unauthorized(p, r);
    assert SingleFlight(q);
    UnauthorizedKeepsSendsBounded(p, r);
    assert WaitsAccounted(q) by {
      hide SendsBounded, SentRequests;
    }
  }

  lemma SendKeepsInv(p: Page, r: Request)
    requires PageInv(p) && SentRequests(p.sent)[r] == 0 && r !in p.retried
    ensures PageInv(Dispatched(p, r, None))
  {
    var q := Dispatched(p, r, None);
    SentAppend(p.sent, q.sent[|p.sent|]);
    forall other ensures SentRequests(q.sent)[other] <= MostSends(q, other) {
      assert SentRequests(p.sent)[other] <= MostSends(p, other);
    }
    assert SingleFlight(q);
    assert WaitsAccounted(q);
  }

  lemma NextKeepsInv(p: Page, e: Event)
    requires PageInv(p) && Possible(p, e)
    ensures PageInv(Next(p, e))
  {
    match e
    case Send(r) => SendKeepsInv(p, r);
    case Reply401(r) => UnauthorizedKeepsInv(p, r);
    case Answer(access, refresh) =>
      if Truthy(access) && Truthy(refresh) {
        SuccessKeepsInv(p, access.value, refresh.value);
      } else {
        FailureKeepsInv(p);
      }
    case Error => FailureKeepsInv(p);
    case _ =>
  }

  lemma {:induction false} PageRunKeepsInv(p: Page, es: seq<Event>)
    requires PageInv(p) && PageCanRun(p, es)
    ensures PageInv(PageRun(p, es))
    decreases |es|
  {
    if es != [] {
      NextKeepsInv(p, es[0]);
      PageRunKeepsInv(Next(p, es[0]), es[1..]);
    }
  }

  /**
   In every run of a page: at most one refresh is in flight, nobody waits unless one is, and
   each request is sent at most twice.
   */
  lemma OneRefreshAtATime(access: Option<Token>, refresh: Option<Token>, es: seq<Event>)
    requires PageCanRun(Loaded(access, refresh), es)
    ensures var p := PageRun(Loaded(access, refresh), es);
      && |p.ends| <= |p.posts| <= |p.ends| + 1
      && (p.queue != [] ==> p.refreshing && |p.posts| == |p.ends| + 1)
      && forall r :: SentRequests(p.sent)[r] <= 2
  {
    PageRunKeepsInv(Loaded(access, refresh), es);
  }

  /**
   In every run of a page nobody is stranded: once no refresh is in flight every wait begun has
   been settled, exactly once, with the end of the very refresh it waited on.
   */
  lemma EveryWaiterIsSettledOnce(access: Option<Token>, refresh: Option<Token>, es: seq<Event>)
    requires PageCanRun(Loaded(access, refresh), es)
    ensures var p := PageRun(Loaded(access, refresh), es);
      && WaitsAccounted(p)
      && (!p.refreshing ==>
            |p.settled| == |p.waits|
            && forall i :: 0 <= i < |p.waits| ==>
                 p.settled[i].wait == p.waits[i] && p.settled[i].end == p.ends[p.waits[i].refresh])
  {
    PageRunKeepsInv(Loaded(access, refresh), es);
  }

  // ----- Logging in and out -----

  predicate NoLoginOrLogout(es: seq<Event>) {
    forall e :: e in es ==> !e.LoggedIn? && !e.LoggedOut?
  }

  lemma {:induction false} HistoryGrows(p: Page, es: seq<Event>)
    requires PageCanRun(p, es)
    ensures p.ends <= PageRun(p, es).ends && p.posts <= PageRun(p, es).posts
    decreases |es|
  {
    if es != [] {
      var e := es[0];
      if e.Answer? && Truthy(e.access) && Truthy(e.refresh) {
        SuccessIsStoredAndSent(p, e.access.value, e.refresh.value);
      }
      HistoryGrows(Next(p, e), es[1..]);
    }
  }

  // Every request sent since `p` carries the token `access`.
  predicate SentWith(p: Page, q: Page, access: Token) {
    p.sent <= q.sent && forall i :: |p.sent| <= i < |q.sent| ==> q.sent[i].bearer == Some(access)
  }

  predicate Holds(p: Page, access: Token, refresh: Token) {
    p.access == Some(access) && p.refresh == Some(refresh)
  }

  /**
   A login takes effect at once: until a refresh ends, every request sent carries the new access
   token, and the one refresh that may start presents the new refresh token.
   */
  lemma {:induction false} LoginTakesEffect(p: Page, access: Token, refresh: Token, es: seq<Event>)
    requires access != "" && refresh != "" && PageCanRun(StoreLogin(p, access, refresh), es) && NoLoginOrLogout(es)
    ensures var q := PageRun(StoreLogin(p, access, refresh), es);
      q.ends == p.ends ==>
        && Holds(q, access, refresh) && SentWith(p, q, access)
        && (q.posts == p.posts || (!p.refreshing && q.posts == p.posts + [refresh]))
    decreases |es|
  {
    if es != [] {
      var login := StoreLogin(p, access, refresh);
      var p' := Next(login, es[0]);
      assert es[0] in es;
      if es[0].Send? || es[0].Reply401? {
        assert StoreLogin(p', access, refresh) == p';
        LoginTakesEffect(p', access, refresh, es[1..]);
      } else {
        if es[0].Answer? && Truthy(es[0].access) && Truthy(es[0].refresh) {
          SuccessIsStoredAndSent(login, es[0].access.value, es[0].refresh.value);
        }
        HistoryGrows(p', es[1..]);
      }
    }
  }

  // Whatever happens before the next login or logout, the next refresh token presented is `refresh`.
  ghost predicate PresentsNext(p: Page, refresh: Token) {
    forall es: seq<Event> :: PageCanRun(p, es) && NoLoginOrLogout(es) ==>
      var q := PageRun(p, es); |q.posts| > |p.posts| ==> q.posts[|p.posts|] == refresh
  }

  // And until one is presented, both tokens stay stored and requests carry the access token.
  ghost predicate KeepsUntilPresented(p: Page, access: Token, refresh: Token) {
    forall es: seq<Event> :: PageCanRun(p, es) && NoLoginOrLogout(es) && PageRun(p, es).posts == p.posts ==>
      Holds(PageRun(p, es), access, refresh) && SentWith(p, PageRun(p, es), access)
  }

  lemma {:induction false} IdleKeepsLogin(p: Page, access: Token, refresh: Token, es: seq<Event>)
    requires !p.refreshing && access != "" && refresh != "" && Holds(p, access, refresh)
    requires PageCanRun(p, es) && NoLoginOrLogout(es)
    ensures var q := PageRun(p, es);
      && (|q.posts| > |p.posts| ==> q.posts[|p.posts|] == refresh)
      && (q.posts == p.posts ==> Holds(q, access, refresh) && SentWith(p, q, access))
    decreases |es|
  {
    if es != [] {
      assert es[0] in es;
      var p' := Next(p, es[0]);
      HistoryGrows(p', es[1..]);
      if p'.posts == p.posts {
        IdleKeepsLogin(p', access, refresh, es[1..]);
      } else {
        assert p'.posts == p.posts + [refresh];
      }
    }
  }

  lemma UnusedRequest(retried: set<Request>, sent: seq<Dispatch>) returns (n: Request)
    ensures n !in retried && SentRequests(sent)[n] == 0
  {
    n := AboveAll(retried, sent);
    var requests := seq(|sent|, i requires 0 <= i < |sent| => sent[i].request);
    assert n !in requests;
    assert SentRequests(sent) == multiset(requests);
  }

  lemma AboveAll(retried: set<Request>, sent: seq<Dispatch>) returns (n: Request)
    ensures (forall r :: r in retried ==> r < n) && forall i :: 0 <= i < |sent| ==> sent[i].request < n
    decreases |retried| + |sent|
  {
    if sent != [] {
      var m := AboveAll(retried, sent[1..]);
      n := if m > sent[0].request then m else sent[0].request + 1;
      assert forall i :: 1 <= i < |sent| ==> sent[i] == sent[1..][i - 1];
    } else if r :| r in retried {
      var m := AboveAll(retried - {r}, sent);
      n := if m > r then m else r + 1;
      assert forall s :: s in retried ==> s == r || s in retried - {r};
    } else {
      n := 0;
    }
  }

  lemma RunOfThree(p: Page, a: Event, b: Event, c: Event)
    requires Possible(p, a) && Possible(Next(p, a), b) && Possible(Next(Next(p, a), b), c)
    ensures PageCanRun(p, [a, b, c]) && PageRun(p, [a, b, c]) == Next(Next(Next(p, a), b), c)
  {
    hide Possible, Next;
    var p1, p2 := Next(p, a), Next(Next(p, a), b);
    assert [a, b, c][1..] == [b, c] && [b, c][1..] == [c] && [c][1..] == [];
    assert PageCanRun(p2, [c]) && PageRun(p2, [c]) == Next(p2, c);
    assert PageCanRun(p1, [b, c]) && PageRun(p1, [b, c]) == Next(p2, c);
  }

  lemma AnotherIsPresented(p: Page, refresh: Token, es: seq<Event>, other: Token)
    requires PageCanRun(p, es) && NoLoginOrLogout(es) && other != refresh
    requires PageRun(p, es).posts == p.posts + [other]
    ensures !PresentsNext(p, refresh)
  {
    var q := PageRun(p, es);
    assert |q.posts| > |p.posts| && q.posts[|p.posts|] == other;
  }

  // A refresh in flight stores its own tokens when it is answered, and those are presented next.
  lemma AnswerIsPresentedNext(p: Page, refresh: Token)
    requires p.refreshing
    ensures !PresentsNext(p, refresh)
  {
    var other := refresh + "r";
    var answer := Answer(Some("a"), Some(other));
    var p1 := Next(p, answer);
    SuccessIsStoredAndSent(p, "a", other);
    var n := UnusedRequest(p1.retried, p1.sent);
    var p2 := Next(p1, Send(n));
    SentAppend(p1.sent, p2.sent[|p1.sent|]);
    var p3 := Next(p2, Reply401(n));
    assert p3.posts == p.posts + [other] && |other| == |refresh| + 1;
    RunOfThree(p, answer, Send(n), Reply401(n));
    AnotherIsPresented(p, refresh, [answer, Send(n), Reply401(n)], other);
  }

  lemma ErrorForgetsTokens(p: Page, access: Token, refresh: Token)
    requires p.refreshing
    ensures !KeepsUntilPresented(p, access, refresh)
  {
    var es := [Error];
    assert es[1..] == [] && PageCanRun(p, es) && NoLoginOrLogout(es);
    assert PageRun(p, es) == RefreshFailed(p);
  }

  /**
   A login lasts until its own refresh token is presented if and only if no refresh was in flight: the end of
   one stores the tokens of its answer over the new ones, or removes them.
   */
  lemma LoginLastsIff(p: Page, access: Token, refresh: Token)
    requires access != "" && refresh != ""
    ensures PresentsNext(StoreLogin(p, access, refresh), refresh) <==> !p.refreshing
    ensures KeepsUntilPresented(StoreLogin(p, access, refresh), access, refresh) <==> !p.refreshing
  {
    var login := StoreLogin(p, access, refresh);
    if p.refreshing {
      AnswerIsPresentedNext(login, refresh);
      ErrorForgetsTokens(login, access, refresh);
    } else {
      forall es: seq<Event> | PageCanRun(login, es) && NoLoginOrLogout(es)
        ensures var q := PageRun(login, es);
          && (|q.posts| > |login.posts| ==> q.posts[|login.posts|] == refresh)
          && (q.posts == login.posts ==> Holds(q, access, refresh) && SentWith(login, q, access))
      {
        IdleKeepsLogin(login, access, refresh, es);
      }
    }
  }

  // Every request sent since `p` carries no token.
  predicate SentBare(p: Page, q: Page) {
    p.sent <= q.sent && forall i :: |p.sent| <= i < |q.sent| ==> q.sent[i].bearer == None
  }

  // The page has no tokens, has presented none since `p`, and has sent requests without.
  predicate LoggedOutSince(p: Page, q: Page) {
    !Truthy(q.access) && !Truthy(q.refresh) && q.posts == p.posts && SentBare(p, q)
  }

  // Until the next login, no run of the page stores a token, presents one or sends one along.
  ghost predicate StaysLoggedOut(p: Page) {
    forall es: seq<Event> :: PageCanRun(p, es) && (forall e :: e in es ==> !e.LoggedIn?) ==>
      LoggedOutSince(p, PageRun(p, es))
  }

  lemma {:induction false} IdleStaysLoggedOut(p: Page, es: seq<Event>)
    requires !p.refreshing && !Truthy(p.access) && !Truthy(p.refresh)
    requires PageCanRun(p, es) && forall e :: e in es ==> !e.LoggedIn?
    ensures LoggedOutSince(p, PageRun(p, es))
    decreases |es|
  {
    if es != [] {
      assert es[0] in es;
      IdleStaysLoggedOut(Next(p, es[0]), es[1..]);
    }
  }

  /** A logout lasts if and only if no refresh was in flight: the answer to one stores tokens again. */
  lemma LogoutLastsIff(p: Page)
    ensures StaysLoggedOut(Logout(p)) <==> !p.refreshing
  {
    var q := Logout(p);
    if p.refreshing {
      var es := [Answer(Some("a"), Some("r"))];
      var r := Next(q, es[0]);
      SuccessIsStoredAndSent(q, "a", "r");
      assert es[1..] == [] && PageCanRun(r, []);
      assert PageCanRun(q, es) && PageRun(q, es) == r;
      assert Truthy(r.refresh);
    } else {
      forall es: seq<Event> | PageCanRun(q, es) && (forall e :: e in es ==> !e.LoggedIn?)
        ensures LoggedOutSince(q, PageRun(q, es))
      {
        IdleStaysLoggedOut(q, es);
      }
    }
  }
}
