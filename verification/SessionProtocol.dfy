/**
 The browser client and the authentication service together, in every interleaving.

 One browser page at a time talks to the service over a network that may delay or lose
 answers.  Anybody else may call the service too, with any token the browser was never given.
 */
module SessionProtocol {
  import opened Wrappers
  import opened Store = TokenStore
  import Client = RefreshClient

  // Refresh requests are numbered in the order they are posted; a number is a ticket.
  datatype World = World(
    page: Client.Page,
    srv: Server,
    posted: seq<Token>,                   // refresh tokens presented by this browser, by ticket
    pending: Option<nat>,                 // the ticket whose answer the page awaits
    wire: set<nat>,                       // tickets the service has not handled yet
    answers: map<nat, Option<Token>>,     // answers on their way back: the new token, or a refusal
    logins: set<Token>,                   // tokens of login answers on their way to the browser
    urls: set<Token>,                     // tokens that arrived in a page address, which can be visited again
    mine: set<Token>)                     // every refresh token issued to this browser

  datatype Event =
    | Send(r: Client.Request)
    | Reply401(r: Client.Request)
    | ServiceHandles(ticket: nat, minted: Token)
    | AnswerArrives(ticket: nat, access: Token)
    | RefreshLost
    | LoginHandled(user: UserId, minted: Token)
    | LoginArrives(token: Token, access: Token)
    | Revisit(token: Token, access: Token)
    | LogOut
    | Elsewhere(op: Op)
    | Reload

  ghost predicate Possible(w: World, e: Event) {
    match e
    case Send(r) => Client.Possible(w.page, Client.Send(r))
    case Reply401(r) => Client.Possible(w.page, Client.Reply401(r))
    case ServiceHandles(k, minted) =>
      k in w.wire && k < |w.posted| && minted != "" && Enabled(w.srv, Rotate(w.posted[k], minted))
    case AnswerArrives(k, access) => k in w.answers && access != ""
    case RefreshLost => w.pending.Some?
    case LoginHandled(user, minted) => minted != "" && Enabled(w.srv, Login(user, minted))
    case LoginArrives(t, access) => t in w.logins && access != ""
    case Revisit(t, access) => t in w.urls && access != ""
    case Elsewhere(op) => Enabled(w.srv, op) && (op.Rotate? ==> op.presented !in w.mine)
    case LogOut => true
    case Reload => true
  }

  ghost function Next(w: World, e: Event): World
    requires Possible(w, e)
  {
    match e
    case Send(r) => w.(page := Client.Next(w.page, Client.Send(r)))
    case Reply401(r) =>
      var page' := Client.Unauthorized(w.page, r);
      if Client.StartsRefresh(w.page, r) then
        w.(page := page', posted := w.posted + [w.page.refresh.value],
           pending := Some(|w.posted|), wire := w.wire + {|w.posted|})
      else
        w.(page := page')
    case ServiceHandles(k, minted) =>
      var (srv', o) := Step(w.srv, Rotate(w.posted[k], minted));
      if o.Rotated? then
        w.(srv := srv', wire := w.wire - {k}, answers := w.answers[k := Some(minted)], mine := w.mine + {minted})
      else
        w.(srv := srv', wire := w.wire - {k}, answers := w.answers[k := None])
    case AnswerArrives(k, access) =>
      var w' := w.(answers := w.answers - {k});
      if w.pending != Some(k) then w'
      else if w.answers[k].Some? then
        w'.(page := Client.RefreshAnswered(w.page, Some(access), w.answers[k]), pending := None)
      else
        w'.(page := Client.RefreshFailed(w.page), pending := None)
    case RefreshLost => w.(page := Client.RefreshFailed(w.page), pending := None)
    case LoginHandled(user, minted) =>
      w.(srv := Step(w.srv, Login(user, minted)).0, logins := w.logins + {minted}, mine := w.mine + {minted})
    case LoginArrives(t, access) =>
      w.(page := Client.StoreLogin(w.page, access, t), logins := w.logins - {t}, urls := w.urls + {t})
    case Revisit(t, access) => w.(page := Client.StoreLogin(w.page, access, t))
    case LogOut => w.(page := Client.Logout(w.page))
    case Elsewhere(op) => w.(srv := Step(w.srv, op).0)
    case Reload => w.(page := Client.Loaded(w.page.access, w.page.refresh), pending := None)
  }

  /** The stored token is the one the refresh in flight has presented. */
  predicate StoredTokenInExchange(w: World) {
    w.pending.Some? && w.pending.value < |w.posted| && w.page.refresh == Some(w.posted[w.pending.value])
  }

  /** A token that was presented, other than by the refresh in flight. */
  predicate Spent(w: World, t: Token) {
    t in w.posted && !(w.pending.Some? && w.pending.value < |w.posted| && w.posted[w.pending.value] == t)
  }

  /**
   A run in which the page is never reloaded while its stored token is being exchanged, and no
   address is visited again once its token is spent.
   */
  ghost predicate CanRun(w: World, es: seq<Event>)
    decreases |es|
  {
    es == [] || (Possible(w, es[0])
                 && (es[0].Reload? ==> !StoredTokenInExchange(w))
                 && (es[0].Revisit? ==> !Spent(w, es[0].token))
                 && CanRun(Next(w, es[0]), es[1..]))
  }

  ghost function Run(w: World, es: seq<Event>): World
    requires CanRun(w, es)
    decreases |es|
  {
    if es == [] then w else Run(Next(w, es[0]), es[1..])
  }

  /** A browser that has never talked to the service, which is in any state it can reach. */
  ghost predicate Initial(w: World) {
    && ServerInv(w.srv)
    && w.page == Client.Loaded(None, None)
    && w.posted == [] && w.pending == None && w.wire == {}
    && w.answers == map[] && w.logins == {} && w.urls == {} && w.mine == {}
  }

  // ----- What every step keeps -----

  predicate NotRevoked(db: Db, t: Token) {
    Digest(t) in db.sessions ==> !db.sessions[Digest(t)].revoked
  }

  // Given to this browser and not presented yet.
  ghost predicate Unposted(w: World, t: Token) {
    t in w.mine && t !in w.posted && NotRevoked(w.srv.db, t)
  }

  ghost predicate PostedInv(w: World) {
    && (forall i, j :: 0 <= i < j < |w.posted| ==> w.posted[i] != w.posted[j])
    && (forall t :: t in w.posted ==> t in w.mine)
    && (forall t :: t in w.mine ==> t in w.srv.origin && t != "")
    && (forall k :: k in w.wire ==> k < |w.posted| && NotRevoked(w.srv.db, w.posted[k]))
  }

  ghost predicate StorageInv(w: World) {
    && (w.page.refreshing <==> w.pending.Some?)
    && (w.pending.Some? ==> w.pending.value < |w.posted|)
    && (Client.Truthy(w.page.refresh) ==> StoredTokenInExchange(w) || Unposted(w, w.page.refresh.value))
  }

  ghost predicate TransitInv(w: World) {
    && (forall k :: k in w.answers && w.answers[k].Some? ==>
          Unposted(w, w.answers[k].value) && w.page.refresh != w.answers[k] && w.answers[k].value !in w.logins)
    && (forall k, l :: k in w.answers && l in w.answers && k != l && w.answers[k].Some? ==> w.answers[k] != w.answers[l])
    && (forall t :: t in w.logins ==> Unposted(w, t) && w.page.refresh != Some(t))
  }

  // A token in an address is of this browser, has arrived, and is no answer's.
  ghost predicate UrlInv(w: World) {
    forall t :: t in w.urls ==>
      t in w.mine && t !in w.logins && (t in w.posted || Unposted(w, t))
      && forall k :: k in w.answers ==> w.answers[k] != Some(t)
  }

  ghost predicate WorldInv(w: World) {
    ServerInv(w.srv) && PostedInv(w) && StorageInv(w) && TransitInv(w) && UrlInv(w)
  }

  /** A call by somebody else never revokes a token of this browser, and issues none of them. */
  lemma OthersCannotRevoke(s: Server, op: Op, t: Token)
    requires ServerInv(s) && Enabled(s, op) && t in s.origin && (op.Rotate? ==> op.presented != t)
    requires NotRevoked(s.db, t)
    ensures NotRevoked(Step(s, op).0.db, t) && t in Step(s, op).0.origin
  {
    assert TokenInv(s, t);
  }

  // What the service's handling of a refresh does to the tokens of this browser.
  lemma ServiceStepTokens(w: World, k: nat, minted: Token)
    requires WorldInv(w) && Possible(w, ServiceHandles(k, minted))
    ensures var w' := Next(w, ServiceHandles(k, minted));
      && ServerInv(w'.srv)
      && (forall t :: t in w.srv.origin ==> t in w'.srv.origin)
      && (forall t :: t in w.mine && t != w.posted[k] && NotRevoked(w.srv.db, t) ==> NotRevoked(w'.srv.db, t))
      && (minted in w'.mine ==> minted in w'.srv.origin)
      && NotRevoked(w'.srv.db, minted)
      && minted !in w.mine && minted != ""
  {
    var w' := Next(w, ServiceHandles(k, minted));
    var op := Rotate(w.posted[k], minted);
    StepKeepsInv(w.srv, op);
    assert TokenInv(w.srv, minted) && TokenInv(w.srv, w.posted[k]);
    forall t | t in w.mine && t != w.posted[k] && NotRevoked(w.srv.db, t) ensures NotRevoked(w'.srv.db, t) {
      OthersCannotRevoke(w.srv, op, t);
    }
  }

  lemma ServiceStepKeepsPosted(w: World, k: nat, minted: Token)
    requires WorldInv(w) && Possible(w, ServiceHandles(k, minted))
    ensures var w' := Next(w, ServiceHandles(k, minted));
      ServerInv(w'.srv) && PostedInv(w') && forall t :: Unposted(w, t) ==> Unposted(w', t)
    ensures var w' := Next(w, ServiceHandles(k, minted));
      minted !in w.mine && (minted in w'.mine ==> Unposted(w', minted))
  {
    var w' := Next(w, ServiceHandles(k, minted));
    ServiceStepTokens(w, k, minted);
    assert forall i :: i in w'.wire ==> w.posted[i] in w.mine && w.posted[i] != w.posted[k];
  }

  lemma ServiceStepKeepsInv(w: World, k: nat, minted: Token)
    requires WorldInv(w) && Possible(w, ServiceHandles(k, minted))
    ensures WorldInv(Next(w, ServiceHandles(k, minted)))
  {
    hide Step;
    var w' := Next(w, ServiceHandles(k, minted));
    ServiceStepKeepsPosted(w, k, minted);
    assert StorageInv(w');
    assert TransitInv(w');
    assert UrlInv(w');
  }

  lemma OthersKeepInv(w: World, op: Op)
    requires WorldInv(w) && Possible(w, Elsewhere(op))
    ensures WorldInv(Next(w, Elsewhere(op)))
  {
    var w' := Next(w, Elsewhere(op));
    StepKeepsInv(w.srv, op);
    forall t | t in w.mine && NotRevoked(w.srv.db, t) ensures NotRevoked(w'.srv.db, t) {
      OthersCannotRevoke(w.srv, op, t);
    }
    assert forall t :: Unposted(w, t) ==> Unposted(w', t);
    assert forall i :: i in w.wire ==> w.posted[i] in w.mine;
    assert PostedInv(w');
  }

  lemma LoginKeepsInv(w: World, user: UserId, minted: Token)
    requires WorldInv(w) && Possible(w, LoginHandled(user, minted))
    ensures WorldInv(Next(w, LoginHandled(user, minted)))
  {
    var w' := Next(w, LoginHandled(user, minted));
    StepKeepsInv(w.srv, Login(user, minted));
    assert TokenInv(w.srv, minted);
    forall t | t in w.mine && NotRevoked(w.srv.db, t) ensures NotRevoked(w'.srv.db, t) {
      OthersCannotRevoke(w.srv, Login(user, minted), t);
    }
    assert forall t :: Unposted(w, t) ==> Unposted(w', t);
    assert forall i :: i in w.wire ==> w.posted[i] in w.mine;
    assert Unposted(w', minted);
    assert PostedInv(w');
  }

  /** When the awaited answer arrives the page is idle again and stores exactly what the answer carries. */
  lemma AnswerIsStored(w: World, k: nat, access: Token)
    requires WorldInv(w) && Possible(w, AnswerArrives(k, access))
    ensures var page' := Next(w, AnswerArrives(k, access)).page;
      if w.pending == Some(k) then !page'.refreshing && page'.refresh == w.answers[k] else page' == w.page
  {
    if w.pending == Some(k) && w.answers[k].Some? {
      assert w.answers[k].value in w.mine;
      Client.SuccessIsStoredAndSent(w.page, access, w.answers[k].value);
    }
  }

  lemma AnswerKeepsInv(w: World, k: nat, access: Token)
    requires WorldInv(w) && Possible(w, AnswerArrives(k, access))
    ensures WorldInv(Next(w, AnswerArrives(k, access)))
  {
    var w' := Next(w, AnswerArrives(k, access));
    AnswerIsStored(w, k, access);
    assert forall t :: Unposted(w, t) ==> Unposted(w', t);
    assert forall l :: l in w'.answers ==> l in w.answers && l != k;
  }

  lemma UnauthorizedKeepsInv(w: World, r: Client.Request)
    requires WorldInv(w) && Possible(w, Reply401(r))
    ensures WorldInv(Next(w, Reply401(r)))
  {
    var w' := Next(w, Reply401(r));
    if Client.StartsRefresh(w.page, r) {
      assert Unposted(w, w.page.refresh.value);
      assert forall t :: Unposted(w, t) && t != w.page.refresh.value ==> Unposted(w', t);
      assert StoredTokenInExchange(w');
      assert PostedInv(w');
    } else {
      assert forall t :: Unposted(w, t) ==> Unposted(w', t);
    }
  }

  lemma NextKeepsInv(w: World, e: Event)
    requires WorldInv(w) && Possible(w, e)
    requires e.Reload? ==> !StoredTokenInExchange(w)
    requires e.Revisit? ==> !Spent(w, e.token)
    ensures WorldInv(Next(w, e))
  {
    match e
    case ServiceHandles(k, minted) => ServiceStepKeepsInv(w, k, minted);
    case Elsewhere(op) => OthersKeepInv(w, op);
    case LoginHandled(user, minted) => LoginKeepsInv(w, user, minted);
    case AnswerArrives(k, access) => AnswerKeepsInv(w, k, access);
    case Reply401(r) => UnauthorizedKeepsInv(w, r);
    case _ => assert forall t :: Unposted(w, t) ==> Unposted(Next(w, e), t);
  }

  lemma {:induction false} RunKeepsInv(w: World, es: seq<Event>)
    requires WorldInv(w) && CanRun(w, es)
    ensures WorldInv(Run(w, es))
    decreases |es|
  {
    if es != [] {
      NextKeepsInv(w, es[0]);
      RunKeepsInv(Next(w, es[0]), es[1..]);
    }
  }

  // ----- The guarantees -----

  /** In every run the browser never presents the same refresh token twice. */
  lemma NeverPresentsATokenTwice(w: World, es: seq<Event>)
    requires Initial(w) && CanRun(w, es)
    ensures forall i, j :: 0 <= i < j < |Run(w, es).posted| ==> Run(w, es).posted[i] != Run(w, es).posted[j]
  {
    RunKeepsInv(w, es);
  }

  /**
   In every run, when the service handles a refresh request of the browser it reports reuse exactly
   if the token's row is still stored and has expired, and then that row was never revoked.
   */
  lemma ReuseIsReportedOnlyForExpiry(w: World, es: seq<Event>, k: nat, minted: Token)
    requires Initial(w) && CanRun(w, es) && Possible(Run(w, es), ServiceHandles(k, minted))
    ensures var w' := Run(w, es);
      var d := Digest(w'.posted[k]);
      && NotRevoked(w'.srv.db, w'.posted[k])
      && (Step(w'.srv, Rotate(w'.posted[k], minted)).1.ReuseDetected?
          <==> d in w'.srv.db.sessions && w'.srv.db.sessions[d].expiresAt < w'.srv.now)
  {
    RunKeepsInv(w, es);
  }

  ghost predicate PresentsNoneTwice(w: World) {
    forall i, j :: 0 <= i < j < |w.posted| ==> w.posted[i] != w.posted[j]
  }

  // However the run goes on, no token is presented twice.
  ghost predicate StaysSafe(w: World) {
    forall es: seq<Event> :: CanRun(w, es) ==> PresentsNoneTwice(Run(w, es))
  }

  lemma InvStaysSafe(w: World)
    requires WorldInv(w)
    ensures StaysSafe(w)
  {
    forall es: seq<Event> | CanRun(w, es) ensures PresentsNoneTwice(Run(w, es)) {
      RunKeepsInv(w, es);
    }
  }

  // A request and its 401, on a page that was just loaded.
  const FIRST_401 := [Send(0), Reply401(0)]

  lemma LoadedPagePresents(w: World, access: Option<Token>, t: Token)
    requires w.page == Client.Loaded(access, Some(t)) && t != "" && w.pending.None?
    ensures CanRun(w, FIRST_401)
    ensures Run(w, FIRST_401)
         == w.(page := Run(w, FIRST_401).page, posted := w.posted + [t], pending := Some(|w.posted|), wire := w.wire + {|w.posted|})
  {
    assert Client.SentRequests([]) == multiset{};
    var w1 := Next(w, FIRST_401[0]);
    Client.SentAppend([], w1.page.sent[0]);
    assert w1.page.sent == [] + [w1.page.sent[0]];
    var w2 := Next(w1, FIRST_401[1]);
    assert FIRST_401[1..] == [Reply401(0)] && FIRST_401[1..][1..] == [];
    assert CanRun(w2, []) && CanRun(w1, FIRST_401[1..]);
    assert Run(w1, FIRST_401[1..]) == w2;
  }

  lemma SpentIsUnsafe(w: World, access: Option<Token>, t: Token)
    requires w.page == Client.Loaded(access, Some(t)) && t != "" && w.pending.None? && t in w.posted
    ensures !StaysSafe(w)
  {
    LoadedPagePresents(w, access, t);
    var i :| 0 <= i < |w.posted| && w.posted[i] == t;
    var w' := Run(w, FIRST_401);
    assert w'.posted[i] == w'.posted[|w.posted|];
  }

  /**
   From any state a run can reach: after a reload no token is ever presented twice, however the run
   goes on, if and only if the stored token was not the one being exchanged.
   */
  lemma ReloadIsSafeIff(w: World)
    requires WorldInv(w)
    ensures StaysSafe(Next(w, Reload)) <==> !StoredTokenInExchange(w)
  {
    if StoredTokenInExchange(w) {
      var t := w.posted[w.pending.value];
      assert t in w.posted && t in w.mine;
      SpentIsUnsafe(Next(w, Reload), w.page.access, t);
    } else {
      NextKeepsInv(w, Reload);
      InvStaysSafe(Next(w, Reload));
    }
  }

  /**
   Visiting again the address a sign-in ended on stores its token again; no token is then presented
   twice, however the run goes on, if and only if that token was not spent.
   */
  lemma RevisitIsSafeIff(w: World, t: Token, access: Token)
    requires WorldInv(w) && Possible(w, Revisit(t, access))
    ensures StaysSafe(Next(w, Revisit(t, access))) <==> !Spent(w, t)
  {
    var w1 := Next(w, Revisit(t, access));
    if Spent(w, t) {
      assert !StoredTokenInExchange(w1);
      var w2 := Next(w1, Reload);
      SpentIsUnsafe(w2, Some(access), t);
      if StaysSafe(w1) {
        forall es: seq<Event> | CanRun(w2, es) ensures PresentsNoneTwice(Run(w2, es)) {
          var longer := [Reload] + es;
          assert longer[1..] == es;
          assert CanRun(w1, longer) && Run(w1, longer) == Run(w2, es);
        }
      }
    } else {
      NextKeepsInv(w, Revisit(t, access));
      InvStaysSafe(w1);
    }
  }

  // The world after an unsafe reload and the next 401.
  ghost function ReloadedAndRetried(w: World): World
    requires WorldInv(w) && StoredTokenInExchange(w)
  {
    var w1 := Next(w, Reload);
    assert w.posted[w.pending.value] in w.posted && w.posted[w.pending.value] in w.mine;
    LoadedPagePresents(w1, w.page.access, w.page.refresh.value);
    Run(w1, FIRST_401)
  }

  lemma RetriedWorld(w: World)
    requires WorldInv(w) && StoredTokenInExchange(w)
    ensures var t, w' := w.page.refresh.value, ReloadedAndRetried(w);
      && t in w.mine && w'.posted == w.posted + [t] && w'.wire == w.wire + {|w.posted|} && w'.srv == w.srv
  {
    var t := w.page.refresh.value;
    assert t in w.posted;
    LoadedPagePresents(Next(w, Reload), w.page.access, t);
  }

  /**
   What any unsafe reload leads to: the next 401 presents the token a second time, and the service
   reports reuse exactly if by then it has exchanged the token, or the token has expired.
   */
  lemma ReloadDuringRefreshTripsReuse(w: World, minted: Token)
    requires WorldInv(w) && StoredTokenInExchange(w) && minted !in w.srv.origin && minted != ""
    ensures var n, t, w' := |w.posted|, w.page.refresh.value, ReloadedAndRetried(w);
      && w'.posted == w.posted + [t] && Possible(w', ServiceHandles(n, minted))
      && (Step(w'.srv, Rotate(w'.posted[n], minted)).1.ReuseDetected?
          <==> Digest(t) in w.srv.db.sessions
               && (t in w.srv.exchanged || w.srv.db.sessions[Digest(t)].expiresAt < w.srv.now))
  {
    hide ReloadedAndRetried;
    RetriedWorld(w);
    ReuseReportedIff(w.srv, w.page.refresh.value, minted);
  }

  lemma ExchangedIsRevoked(s: Server, t: Token, m: Token)
    requires ServerInv(s) && t in s.origin && m !in s.origin && Live(s.db, t)
    requires var row := s.db.sessions[Digest(t)];
      row.expiresAt >= s.now && row.user in s.db.users && s.db.users[row.user].active
    ensures var s' := Step(s, Rotate(t, m)).0;
      && Digest(t) in s'.db.sessions && s'.db.sessions[Digest(t)].revoked
      && s'.db.sessions[Digest(t)].user == s.db.sessions[Digest(t)].user
      && (forall x :: x in s'.origin ==> x in s.origin || x == m)
  {
    assert TokenInv(s, m);
  }

  /**
   If the first request is still on its way then, and the token is good, the service exchanges it for
   the first and takes the second for reuse, which ends every session of the user.
   */
  lemma SecondPresentationEndsSessions(w: World, m1: Token, m2: Token)
    requires WorldInv(w) && StoredTokenInExchange(w) && w.pending.value in w.wire
    requires var t := w.page.refresh.value;
      Live(w.srv.db, t)
      && var row := w.srv.db.sessions[Digest(t)];
         row.expiresAt >= w.srv.now && row.user in w.srv.db.users && w.srv.db.users[row.user].active
    requires m1 != m2 && m1 !in w.srv.origin && m2 !in w.srv.origin && m1 != "" && m2 != ""
    ensures var k, n, w' := w.pending.value, |w.posted|, ReloadedAndRetried(w);
      var user := w.srv.db.sessions[Digest(w.page.refresh.value)].user;
      Possible(w', ServiceHandles(k, m1)) &&
      var w'' := Next(w', ServiceHandles(k, m1));
      Possible(w'', ServiceHandles(n, m2)) &&
      var (srv, answer) := Step(w''.srv, Rotate(w''.posted[n], m2));
      answer == ReuseDetected(user) && forall d :: d in srv.db.sessions ==> srv.db.sessions[d].user != user
  {
    hide RotateRefreshToken, ReloadedAndRetried;
    var t := w.page.refresh.value;
    RetriedWorld(w);
    ExchangedIsRevoked(w.srv, t, m1);
    RevokedIsReuse(Step(w.srv, Rotate(t, m1)).0, t, m2);
  }

  lemma RevokedIsReuse(s: Server, t: Token, m: Token)
    requires Enabled(s, Rotate(t, m)) && Digest(t) in s.db.sessions && s.db.sessions[Digest(t)].revoked
    ensures var user := s.db.sessions[Digest(t)].user;
      var (srv, answer) := Step(s, Rotate(t, m));
      answer == ReuseDetected(user) && forall d :: d in srv.db.sessions ==> srv.db.sessions[d].user != user
  {
  }
  // ----- Renewal -----

  // The service would exchange the token now.
  ghost predicate Good(s: Server, t: Token) {
    Live(s.db, t)
    && var row := s.db.sessions[Digest(t)];
       row.expiresAt >= s.now && row.user in s.db.users && s.db.users[row.user].active
  }

  lemma GoodIsExchanged(s: Server, t: Token, m: Token)
    requires ServerInv(s) && Good(s, t) && m !in s.origin
    ensures var (s', o) := Step(s, Rotate(t, m));
      && t in s.origin && o == Rotated(s.origin[t].user, m)
      && m in s'.origin && s'.origin[m] == Origin(s.origin[t].user, s.origin[t].login) && Good(s', m)
  {
    assert TokenInv(s, t);
  }

  /**
   What the whole exchange is for: a request refused while the stored token is good leads, if no message is lost, to a
   page that holds the new tokens, a service that would exchange the new refresh token for the same user and login,
   and the request sent again with the new access token.
   */
  lemma SessionIsRenewed(w: World, r: Client.Request, minted: Token, access: Token)
    requires WorldInv(w) && Possible(w, Reply401(r)) && Client.StartsRefresh(w.page, r)
    requires Good(w.srv, w.page.refresh.value) && minted !in w.srv.origin && minted != "" && access != ""
    ensures var t, k, w1 := w.page.refresh.value, |w.posted|, Next(w, Reply401(r));
      Possible(w1, ServiceHandles(k, minted)) &&
      var w2 := Next(w1, ServiceHandles(k, minted));
      Possible(w2, AnswerArrives(k, access)) &&
      var w3 := Next(w2, AnswerArrives(k, access));
      && w3.page.access == Some(access) && w3.page.refresh == Some(minted) && !w3.page.refreshing && w3.pending == None
      && Good(w3.srv, minted) && t in w.srv.origin && minted in w3.srv.origin
      && w3.srv.origin[minted] == Origin(w.srv.origin[t].user, w.srv.origin[t].login)
      && |w3.page.sent| > |w.page.sent| && w3.page.sent[|w3.page.sent| - 1] == Client.Dispatch(r, Some(access))
  {
    var t, k, w1 := w.page.refresh.value, |w.posted|, Next(w, Reply401(r));
    GoodIsExchanged(w.srv, t, minted);
    assert w1.posted[k] == t && k in w1.wire && w1.srv == w.srv && w1.pending == Some(k);
    var w2 := Next(w1, ServiceHandles(k, minted));
    assert w2.answers[k] == Some(minted) && w2.page == w1.page && w2.pending == Some(k);
    Client.AnswerIsStoredAndSent(w1.page, access, minted);
  }
}
