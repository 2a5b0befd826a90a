/**
 The refresh-token and password-reset rows of the authentication service.

 `Db` is the part of the database those calls read and write; each service call
 is a function from the database before to the database after.  `AuthService`
 performs the same calls by updating its tables in place, one statement at a time.
 `Server` adds the history a run leaves behind, over which the guarantees are stated.
 */
module TokenStore {
  import opened Wrappers

  type Token = string
  type UserId = nat

  // hash_token is a collision-free digest: equal digests come from equal tokens.
  datatype Digest = Digest(raw: Token)

  // Times are whole seconds.
  const REFRESH_TOKEN_TTL: int := 30 * 24 * 3600
  const PASSWORD_RESET_TTL: int := 3600

  datatype Account = Account(password: Option<string>, active: bool)
  datatype RefreshRow = RefreshRow(user: UserId, revoked: bool, expiresAt: int)
  datatype ResetRow = ResetRow(user: UserId, used: bool, expiresAt: int)

  // Columns with a unique index are map keys.
  datatype Db = Db(
    users: map<UserId, Account>,
    byEmail: map<string, UserId>,
    sessions: map<Digest, RefreshRow>,
    resets: map<Digest, ResetRow>)

  datatype Outcome =
    | Done
    | Issued(refresh: Token)
    | Rotated(user: UserId, refresh: Token)
    | InvalidToken
    | ReuseDetected(user: UserId)
    | AccountInactive
    | ResetRefused
    | ResetAccepted(user: UserId)
    | ServerError          // the reset row names a user that is gone

  /** The rows that remain when every refresh token of `user` is deleted. */
  function WithoutUser(sessions: map<Digest, RefreshRow>, user: UserId): map<Digest, RefreshRow> {
    map d | d in sessions && sessions[d].user != user :: sessions[d]
  }

  // ----- Service calls -----

  function IssueTokenPair(db: Db, user: UserId, minted: Token, now: int): Db {
    db.(sessions := db.sessions[Digest(minted) := RefreshRow(user, false, now + REFRESH_TOKEN_TTL)])
  }

  function RotateRefreshToken(db: Db, presented: Token, minted: Token, now: int): (Db, Outcome) {
    var d := Digest(presented);
    if d !in db.sessions then
      (db, InvalidToken)
    else
      var row := db.sessions[d];
      if row.revoked || row.expiresAt < now then
        (db.(sessions := WithoutUser(db.sessions, row.user)), ReuseDetected(row.user))
      else if row.user !in db.users || !db.users[row.user].active then
        (db, AccountInactive)
      else
        var revoked := db.(sessions := db.sessions[d := row.(revoked := true)]);
        (IssueTokenPair(revoked, row.user, minted, now), Rotated(row.user, minted))
  }

  function RevokeRefreshToken(db: Db, presented: Token): Db {
    db.(sessions := db.sessions - {Digest(presented)})
  }

  function RequestPasswordReset(db: Db, email: string, minted: Token, now: int): Db {
    if email !in db.byEmail then db
    else db.(resets := db.resets[Digest(minted) := ResetRow(db.byEmail[email], false, now + PASSWORD_RESET_TTL)])
  }

  function ConfirmPasswordReset(db: Db, token: Token, hashed: string, now: int): (Db, Outcome) {
    var d := Digest(token);
    if d !in db.resets || db.resets[d].used || db.resets[d].expiresAt < now then
      (db, ResetRefused)
    else
      var row := db.resets[d];
      if row.user !in db.users then
        (db, ServerError)
      else
        (db.(users := db.users[row.user := db.users[row.user].(password := Some(hashed))],
             resets := db.resets[d := row.(used := true)],
             sessions := WithoutUser(db.sessions, row.user)),
         ResetAccepted(row.user))
  }

  function ChangePassword(db: Db, user: UserId, hashed: string): Db
    requires user in db.users
  {
    db.(users := db.users[user := db.users[user].(password := Some(hashed))],
        sessions := WithoutUser(db.sessions, user))
  }

  // ----- The service as an object that updates its tables -----

  class AuthService {
    var users: map<UserId, Account>
    var byEmail: map<string, UserId>
    var refreshTokens: map<Digest, RefreshRow>
    var resetTokens: map<Digest, ResetRow>

    constructor ()
      ensures Snapshot() == Db(map[], map[], map[], map[])
    {
      users, byEmail, refreshTokens, resetTokens := map[], map[], map[], map[];
    }

    ghost function Snapshot(): Db
      reads this
    {
      Db(users, byEmail, refreshTokens, resetTokens)
    }

    /** `delete(RefreshToken).where(user_id == user)`. */
    method DeleteSessionsOf(user: UserId)
      modifies this`refreshTokens
      ensures refreshTokens == WithoutUser(old(refreshTokens), user)
    {
      var remaining := refreshTokens.Keys;
      while remaining != {}
        invariant remaining <= old(refreshTokens).Keys
        invariant refreshTokens
               == map d | d in old(refreshTokens) && (d in remaining || old(refreshTokens)[d].user != user)
                    :: old(refreshTokens)[d]
        decreases remaining
      {
        var d :| d in remaining;
        if refreshTokens[d].user == user {
          refreshTokens := refreshTokens - {d};
        }
        remaining := remaining - {d};
      }
    }

    method Issue(user: UserId, minted: Token, now: int) returns (refresh: Token)
      requires Digest(minted) !in refreshTokens
      modifies this`refreshTokens
      ensures Snapshot() == IssueTokenPair(old(Snapshot()), user, minted, now)
      ensures refresh == minted
    {
      var row := RefreshRow(user, false, now + REFRESH_TOKEN_TTL);
      refreshTokens := refreshTokens[Digest(minted) := row];
      refresh := minted;
    }

    method Rotate(presented: Token, minted: Token, now: int) returns (o: Outcome)
      requires Digest(minted) !in refreshTokens
      modifies this`refreshTokens
      ensures (Snapshot(), o) == RotateRefreshToken(old(Snapshot()), presented, minted, now)
    {
      var d := Digest(presented);
      if d !in refreshTokens {
        return InvalidToken;
      }
      var record := refreshTokens[d];
      if record.revoked || record.expiresAt < now {
        DeleteSessionsOf(record.user);
        return ReuseDetected(record.user);
      }
      if record.user !in users || !users[record.user].active {
        return AccountInactive;
      }
      refreshTokens := refreshTokens[d := record.(revoked := true)];
      var refresh := Issue(record.user, minted, now);
      o := Rotated(record.user, refresh);
    }

    method Revoke(presented: Token)
      modifies this`refreshTokens
      ensures Snapshot() == RevokeRefreshToken(old(Snapshot()), presented)
    {
      refreshTokens := refreshTokens - {Digest(presented)};
    }

    method RequestReset(email: string, minted: Token, now: int)
      requires Digest(minted) !in resetTokens
      modifies this`resetTokens
      ensures Snapshot() == RequestPasswordReset(old(Snapshot()), email, minted, now)
    {
      if email !in byEmail {
        return;
      }
      resetTokens := resetTokens[Digest(minted) := ResetRow(byEmail[email], false, now + PASSWORD_RESET_TTL)];
    }

    method ConfirmReset(token: Token, hashed: string, now: int) returns (o: Outcome)
      modifies this
      ensures (Snapshot(), o) == ConfirmPasswordReset(old(Snapshot()), token, hashed, now)
    {
      var d := Digest(token);
      if d !in resetTokens || resetTokens[d].used || resetTokens[d].expiresAt < now {
        return ResetRefused;
      }
      var record := resetTokens[d];
      if record.user !in users {
        return ServerError;
      }
      users := users[record.user := users[record.user].(password := Some(hashed))];
      resetTokens := resetTokens[d := record.(used := true)];
      DeleteSessionsOf(record.user);
      o := ResetAccepted(record.user);
    }

    method SetPassword(user: UserId, hashed: string)
      requires user in users
      modifies this
      ensures Snapshot() == ChangePassword(old(Snapshot()), user, hashed)
    {
      users := users[user := users[user].(password := Some(hashed))];
      DeleteSessionsOf(user);
    }
  }

  // ----- Runs -----

  // Where a refresh token comes from: its user, and the login token its chain started with.
  datatype Origin = Origin(user: UserId, login: Token)

  datatype Server = Server(
    db: Db,
    now: int,
    origin: map<Token, Origin>,     // every refresh token ever issued
    resetsSent: set<Token>,         // every reset token ever issued
    exchanged: multiset<Token>,     // one occurrence per successful exchange
    resetsUsed: multiset<Token>)    // one occurrence per accepted reset

  datatype Op =
    | Login(user: UserId, minted: Token)
    | Rotate(presented: Token, minted: Token)
    | Logout(presented: Token)
    | RequestReset(email: string, minted: Token)
    | ConfirmReset(token: Token, hashed: string)
    | SetPassword(user: UserId, hashed: string)
    | SetActive(user: UserId, active: bool)
    | AddUser(user: UserId, email: string)
    | Tick(seconds: nat)

  /** Generated tokens are fresh, and the account a call names was looked up before the call. */
  ghost predicate Enabled(s: Server, op: Op) {
    match op
    case Login(user, minted) => user in s.db.users && minted !in s.origin
    case Rotate(_, minted) => minted !in s.origin
    case RequestReset(_, minted) => minted !in s.resetsSent
    case SetPassword(user, _) => user in s.db.users
    case SetActive(user, _) => user in s.db.users
    case AddUser(user, email) => user !in s.db.users && email !in s.db.byEmail
    case _ => true
  }

  ghost function Step(s: Server, op: Op): (Server, Outcome)
    requires Enabled(s, op)
  {
    match op
    case Login(user, minted) =>
      (s.(db := IssueTokenPair(s.db, user, minted, s.now), origin := s.origin[minted := Origin(user, minted)]),
       Issued(minted))
    case Rotate(presented, minted) =>
      var (db', o) := RotateRefreshToken(s.db, presented, minted, s.now);
      if o.Rotated? && presented in s.origin then
        (s.(db := db', origin := s.origin[minted := Origin(o.user, s.origin[presented].login)],
            exchanged := s.exchanged + multiset{presented}), o)
      else
        (s.(db := db'), o)
    case Logout(presented) => (s.(db := RevokeRefreshToken(s.db, presented)), Done)
    case RequestReset(email, minted) =>
      (s.(db := RequestPasswordReset(s.db, email, minted, s.now), resetsSent := s.resetsSent + {minted}), Done)
    case ConfirmReset(token, hashed) =>
      var (db', o) := ConfirmPasswordReset(s.db, token, hashed, s.now);
      (s.(db := db', resetsUsed := if o.ResetAccepted? then s.resetsUsed + multiset{token} else s.resetsUsed), o)
    case SetPassword(user, hashed) => (s.(db := ChangePassword(s.db, user, hashed)), Done)
    case SetActive(user, active) =>
      (s.(db := s.db.(users := s.db.users[user := s.db.users[user].(active := active)])), Done)
    case AddUser(user, email) =>
      (s.(db := s.db.(users := s.db.users[user := Account(None, true)], byEmail := s.db.byEmail[email := user])), Done)
    case Tick(seconds) => (s.(now := s.now + seconds), Done)
  }

  ghost predicate CanRun(s: Server, ops: seq<Op>)
    decreases |ops|
  {
    ops == [] || (Enabled(s, ops[0]) && CanRun(Step(s, ops[0]).0, ops[1..]))
  }

  ghost function Run(s: Server, ops: seq<Op>): Server
    requires CanRun(s, ops)
    decreases |ops|
  {
    if ops == [] then s else Run(Step(s, ops[0]).0, ops[1..])
  }

  /** What the k-th call of a run answers. */
  ghost function Answer(s: Server, ops: seq<Op>, k: nat): Outcome
    requires CanRun(s, ops) && k < |ops|
    decreases |ops|
  {
    if k == 0 then Step(s, ops[0]).1 else Answer(Step(s, ops[0]).0, ops[1..], k - 1)
  }

  ghost predicate Initial(s: Server) {
    && s.db.sessions == map[] && s.db.resets == map[]
    && s.origin == map[] && s.resetsSent == {}
    && s.exchanged == multiset{} && s.resetsUsed == multiset{}
  }

  // A token that a call could still exchange or that would trip the reuse branch.
  predicate Live(db: Db, t: Token) {
    Digest(t) in db.sessions && !db.sessions[Digest(t)].revoked
  }

  // What is known of one refresh token: its row belongs to its user and is revoked exactly once exchanged.
  ghost predicate TokenInv(s: Server, t: Token) {
    && (Digest(t) in s.db.sessions ==>
          t in s.origin
          && s.db.sessions[Digest(t)].user == s.origin[t].user
          && (s.db.sessions[Digest(t)].revoked <==> t in s.exchanged))
    && (t in s.exchanged ==> t in s.origin && s.exchanged[t] == 1)
    && (t in s.origin ==> s.origin[t].login in s.origin)
  }

  ghost predicate ResetInv(s: Server, t: Token) {
    && (Digest(t) in s.db.resets ==> t in s.resetsSent)
    && (t in s.resetsUsed ==> s.resetsUsed[t] == 1 && Digest(t) in s.db.resets && s.db.resets[Digest(t)].used)
  }

  ghost predicate LineageInv(s: Server, t: Token, u: Token) {
    Live(s.db, t) && Live(s.db, u) && t in s.origin && u in s.origin && s.origin[t].login == s.origin[u].login
    ==> t == u
  }

  ghost predicate ServerInv(s: Server) {
    && (forall t :: TokenInv(s, t))
    && (forall t :: ResetInv(s, t))
    && (forall t, u :: LineageInv(s, t, u))
  }

  lemma StepKeepsTokenInv(s: Server, op: Op, t: Token)
    requires ServerInv(s) && Enabled(s, op)
    ensures TokenInv(Step(s, op).0, t)
  {
    assert TokenInv(s, t);
    if op.Rotate? {
      assert TokenInv(s, op.presented);
    }
  }

  lemma StepKeepsResetInv(s: Server, op: Op, t: Token)
    requires ServerInv(s) && Enabled(s, op)
    ensures ResetInv(Step(s, op).0, t)
  {
    assert ResetInv(s, t);
  }

  lemma StepKeepsLineageInv(s: Server, op: Op, t: Token, u: Token)
    requires ServerInv(s) && Enabled(s, op)
    ensures LineageInv(Step(s, op).0, t, u)
  {
    assert TokenInv(s, t) && TokenInv(s, u) && LineageInv(s, t, u);
    if op.Rotate? {
      assert TokenInv(s, op.presented);
      assert LineageInv(s, op.presented, t) && LineageInv(s, op.presented, u);
    }
  }

  lemma StepKeepsInv(s: Server, op: Op)
    requires ServerInv(s) && Enabled(s, op)
    ensures ServerInv(Step(s, op).0)
  {
    forall t ensures TokenInv(Step(s, op).0, t) && ResetInv(Step(s, op).0, t) {
      StepKeepsTokenInv(s, op, t);
      StepKeepsResetInv(s, op, t);
    }
    forall t, u ensures LineageInv(Step(s, op).0, t, u) {
      StepKeepsLineageInv(s, op, t, u);
    }
  }

  lemma {:induction false} RunKeepsInv(s: Server, ops: seq<Op>)
    requires ServerInv(s) && CanRun(s, ops)
    ensures ServerInv(Run(s, ops))
    decreases |ops|
  {
    if ops != [] {
      StepKeepsInv(s, ops[0]);
      RunKeepsInv(Step(s, ops[0]).0, ops[1..]);
    }
  }

  /** In every run each refresh token is exchanged at most once and each reset token is accepted at most once. */
  lemma EachTokenUsedAtMostOnce(s: Server, ops: seq<Op>, t: Token)
    requires Initial(s) && CanRun(s, ops)
    ensures Run(s, ops).exchanged[t] <= 1
    ensures Run(s, ops).resetsUsed[t] <= 1
  {
    RunKeepsInv(s, ops);
    assert TokenInv(Run(s, ops), t) && ResetInv(Run(s, ops), t);
  }

  /** In every run the chain of rotations that starts at one login has at most one row that is not revoked. */
  lemma OneLiveRowPerLogin(s: Server, ops: seq<Op>, t: Token, u: Token)
    requires Initial(s) && CanRun(s, ops)
    requires Live(Run(s, ops).db, t) && Live(Run(s, ops).db, u)
    ensures t in Run(s, ops).origin && u in Run(s, ops).origin
    ensures Run(s, ops).origin[t].login == Run(s, ops).origin[u].login ==> t == u
  {
    RunKeepsInv(s, ops);
    assert TokenInv(Run(s, ops), t) && TokenInv(Run(s, ops), u) && LineageInv(Run(s, ops), t, u);
  }

  // ----- Wiping every session of one user -----

  /** The call `op` deletes every refresh token of `user`: a reuse hit, a confirmed reset or a password change. */
  ghost predicate Wipes(s: Server, op: Op, user: UserId)
    requires Enabled(s, op)
  {
    || (op.Rotate? && Step(s, op).1 == ReuseDetected(user))
    || (op.ConfirmReset? && Step(s, op).1 == ResetAccepted(user))
    || (op.SetPassword? && op.user == user)
  }

  // Issued at some time, and its row is gone for good.
  ghost predicate Dead(s: Server, t: Token) {
    t in s.origin && Digest(t) !in s.db.sessions
  }

  lemma DeadStaysDead(s: Server, op: Op, t: Token)
    requires Enabled(s, op) && Dead(s, t)
    ensures Dead(Step(s, op).0, t)
    ensures op.Rotate? && op.presented == t ==> Step(s, op).1 == InvalidToken
  {
  }

  lemma {:induction false} DeadIsRefused(s: Server, ops: seq<Op>, t: Token, k: nat)
    requires CanRun(s, ops) && Dead(s, t)
    requires k < |ops| && ops[k].Rotate? && ops[k].presented == t
    ensures Answer(s, ops, k) == InvalidToken
    decreases |ops|
  {
    DeadStaysDead(s, ops[0], t);
    if k > 0 {
      DeadIsRefused(Step(s, ops[0]).0, ops[1..], t, k - 1);
    }
  }

  /** After a wipe, no refresh token issued to that user before it is accepted in the rest of the run. */
  lemma WipedTokensAreNeverAccepted(s: Server, op: Op, later: seq<Op>, user: UserId, t: Token, k: nat)
    requires ServerInv(s) && Enabled(s, op) && Wipes(s, op, user)
    requires CanRun(Step(s, op).0, later)
    requires t in s.origin && s.origin[t].user == user
    requires k < |later| && later[k].Rotate? && later[k].presented == t
    ensures Answer(Step(s, op).0, later, k) == InvalidToken
  {
    assert TokenInv(s, t);
    DeadIsRefused(Step(s, op).0, later, t, k);
  }

  /** A wipe leaves the tokens of every other user exactly as they were. */
  lemma WipeSparesOtherUsers(s: Server, op: Op, user: UserId, t: Token)
    requires ServerInv(s) && Enabled(s, op) && Wipes(s, op, user)
    requires t in s.origin && s.origin[t].user != user
    ensures Digest(t) in Step(s, op).0.db.sessions <==> Digest(t) in s.db.sessions
    ensures Digest(t) in s.db.sessions ==> Step(s, op).0.db.sessions[Digest(t)] == s.db.sessions[Digest(t)]
  {
    assert TokenInv(s, t);
  }

  /**
   The branch that reports reuse is taken exactly for a stored token that was exchanged before or has
   run out of time, so a token presented once, but late, also ends every session of its user.
   */
  lemma ReuseReportedIff(s: Server, presented: Token, minted: Token)
    requires ServerInv(s) && minted !in s.origin
    ensures Step(s, Rotate(presented, minted)).1.ReuseDetected?
       <==> Digest(presented) in s.db.sessions
            && (presented in s.exchanged || s.db.sessions[Digest(presented)].expiresAt < s.now)
  {
    assert TokenInv(s, presented);
  }
  // ----- What a call answers, from the history alone -----

  /** The state in which call number `k` of a run is made. */
  ghost function StateAt(s: Server, ops: seq<Op>, k: nat): Server
    requires CanRun(s, ops) && k <= |ops|
    decreases |ops|
  {
    if k == 0 then s else StateAt(Step(s, ops[0]).0, ops[1..], k - 1)
  }

  lemma {:induction false} AnswerAt(s: Server, ops: seq<Op>, k: nat)
    requires CanRun(s, ops) && k < |ops|
    ensures Enabled(StateAt(s, ops, k), ops[k])
    ensures Step(StateAt(s, ops, k), ops[k]) == (StateAt(s, ops, k + 1), Answer(s, ops, k))
    decreases |ops|
  {
    if k > 0 {
      AnswerAt(Step(s, ops[0]).0, ops[1..], k - 1);
    }
  }

  /** The seconds that pass during the first `k` calls. */
  function Elapsed(ops: seq<Op>, k: nat): nat
    requires k <= |ops|
  {
    if k == 0 then 0 else (if ops[0].Tick? then ops[0].seconds else 0) + Elapsed(ops[1..], k - 1)
  }

  lemma {:induction false} TimePasses(s: Server, ops: seq<Op>, k: nat)
    requires CanRun(s, ops) && k <= |ops|
    ensures StateAt(s, ops, k).now == s.now + Elapsed(ops, k)
    decreases |ops|
  {
    if k > 0 {
      TimePasses(Step(s, ops[0]).0, ops[1..], k - 1);
    }
  }

  // The call `op`, answered `o`, hands the refresh token `t` to `user`.
  predicate Hands(op: Op, o: Outcome, t: Token, user: UserId) {
    op == Login(user, t) || (op.Rotate? && o == Rotated(user, t))
  }

  // It makes the refresh token `t` of `user` unknown: a logout, or any of the three wipes.
  predicate Ends(op: Op, o: Outcome, t: Token, user: UserId) {
    || op == Logout(t)
    || (op.Rotate? && o == ReuseDetected(user))
    || (op.ConfirmReset? && o == ResetAccepted(user))
    || (op.SetPassword? && op.user == user)
  }

  predicate Exchanges(op: Op, o: Outcome, t: Token) {
    op.Rotate? && op.presented == t && o.Rotated?
  }

  ghost predicate Ended(s: Server, ops: seq<Op>, k: nat, t: Token, user: UserId)
    requires CanRun(s, ops) && k <= |ops|
  {
    exists j :: 0 <= j < k && Ends(ops[j], Answer(s, ops, j), t, user)
  }

  ghost predicate Exchanged(s: Server, ops: seq<Op>, k: nat, t: Token)
    requires CanRun(s, ops) && k <= |ops|
  {
    exists j :: 0 <= j < k && Exchanges(ops[j], Answer(s, ops, j), t)
  }

  lemma EndedOneLater(s: Server, ops: seq<Op>, k: nat, t: Token, user: UserId)
    requires CanRun(s, ops) && 0 < k <= |ops|
    ensures Ended(s, ops, k, t, user)
       <==> Ends(ops[0], Step(s, ops[0]).1, t, user) || Ended(Step(s, ops[0]).0, ops[1..], k - 1, t, user)
  {
    var s', rest := Step(s, ops[0]).0, ops[1..];
    assert Answer(s, ops, 0) == Step(s, ops[0]).1;
    forall j | 0 <= j < k - 1 ensures rest[j] == ops[j + 1] && Answer(s', rest, j) == Answer(s, ops, j + 1) {
    }
    if j :| 0 <= j < k - 1 && Ends(rest[j], Answer(s', rest, j), t, user) {
      assert Ends(ops[j + 1], Answer(s, ops, j + 1), t, user);
    }
    if j :| 0 < j < k && Ends(ops[j], Answer(s, ops, j), t, user) {
      assert Ends(rest[j - 1], Answer(s', rest, j - 1), t, user);
    }
  }

  lemma ExchangedOneLater(s: Server, ops: seq<Op>, k: nat, t: Token)
    requires CanRun(s, ops) && 0 < k <= |ops|
    ensures Exchanged(s, ops, k, t)
       <==> Exchanges(ops[0], Step(s, ops[0]).1, t) || Exchanged(Step(s, ops[0]).0, ops[1..], k - 1, t)
  {
    var s', rest := Step(s, ops[0]).0, ops[1..];
    assert Answer(s, ops, 0) == Step(s, ops[0]).1;
    forall j | 0 <= j < k - 1 ensures rest[j] == ops[j + 1] && Answer(s', rest, j) == Answer(s, ops, j + 1) {
    }
    if j :| 0 <= j < k - 1 && Exchanges(rest[j], Answer(s', rest, j), t) {
      assert Exchanges(ops[j + 1], Answer(s, ops, j + 1), t);
    }
    if j :| 0 < j < k && Exchanges(ops[j], Answer(s, ops, j), t) {
      assert Exchanges(rest[j - 1], Answer(s', rest, j - 1), t);
    }
  }

  lemma {:induction false} DeadStays(s: Server, ops: seq<Op>, k: nat, t: Token)
    requires CanRun(s, ops) && k <= |ops| && Dead(s, t)
    ensures Dead(StateAt(s, ops, k), t)
    decreases |ops|
  {
    if k > 0 {
      DeadStaysDead(s, ops[0], t);
      DeadStays(Step(s, ops[0]).0, ops[1..], k - 1, t);
    }
  }

  lemma RowOneLater(s: Server, op: Op, t: Token)
    requires Enabled(s, op) && t in s.origin && Digest(t) in s.db.sessions
    ensures var (s', o), row := Step(s, op), s.db.sessions[Digest(t)];
      && t in s'.origin
      && (Ends(op, o, t, row.user) <==> Digest(t) !in s'.db.sessions)
      && (Digest(t) in s'.db.sessions ==>
            s'.db.sessions[Digest(t)] == row.(revoked := row.revoked || Exchanges(op, o, t)))
  {
  }

  /** The row of an issued token is what its history makes of it. */
  lemma {:induction false} RowFollowsHistory(s: Server, ops: seq<Op>, k: nat, t: Token)
    requires CanRun(s, ops) && k <= |ops| && t in s.origin && Digest(t) in s.db.sessions
    ensures var (s', row) := (StateAt(s, ops, k), s.db.sessions[Digest(t)]);
      && (Ended(s, ops, k, t, row.user) <==> Digest(t) !in s'.db.sessions)
      && (Digest(t) in s'.db.sessions ==>
            s'.db.sessions[Digest(t)] == row.(revoked := row.revoked || Exchanged(s, ops, k, t)))
    decreases |ops|
  {
    if k > 0 {
      var s', row := Step(s, ops[0]).0, s.db.sessions[Digest(t)];
      RowOneLater(s, ops[0], t);
      EndedOneLater(s, ops, k, t, row.user);
      ExchangedOneLater(s, ops, k, t);
      if Digest(t) in s'.db.sessions {
        RowFollowsHistory(s', ops[1..], k - 1, t);
      } else {
        DeadStays(s', ops[1..], k - 1, t);
      }
    }
  }

  predicate IsActive(s: Server, user: UserId) {
    user in s.db.users && s.db.users[user].active
  }

  /**
   What presenting an issued token answers, in any run: unknown once it was logged out or its user's sessions were
   wiped; reuse if it was exchanged before, or is presented more than thirty days after its issue; and otherwise, for
   an active user, a new token for the same user.
   */
  lemma AnswerFollowsHistory(s: Server, issue: Op, t: Token, user: UserId, later: seq<Op>, k: nat)
    requires ServerInv(s) && Enabled(s, issue) && Hands(issue, Step(s, issue).1, t, user)
    requires CanRun(Step(s, issue).0, later) && k < |later| && later[k].Rotate? && later[k].presented == t
    ensures var s0 := Step(s, issue).0;
      Answer(s0, later, k) ==
        if Ended(s0, later, k, t, user) then InvalidToken
        else if Exchanged(s0, later, k, t) || Elapsed(later, k) > 2592000 then ReuseDetected(user)
        else if !IsActive(StateAt(s0, later, k), user) then AccountInactive
        else Rotated(user, later[k].minted)
  {
    if issue.Rotate? {
      assert TokenInv(s, issue.presented);
    }
    var s0 := Step(s, issue).0;
    assert t in s0.origin && s0.db.sessions[Digest(t)] == RefreshRow(user, false, s.now + 2592000);
    RowFollowsHistory(s0, later, k, t);
    TimePasses(s0, later, k);
    AnswerAt(s0, later, k);
  }

  /** A token no call has issued is unknown. */
  lemma UnissuedIsUnknown(s: Server, presented: Token, minted: Token)
    requires ServerInv(s) && minted !in s.origin && presented !in s.origin
    ensures Step(s, Rotate(presented, minted)) == (s, InvalidToken)
  {
    assert TokenInv(s, presented);
  }

  // ----- Resets and accounts, from the history alone -----

  ghost predicate Accepted(s: Server, ops: seq<Op>, k: nat, t: Token)
    requires CanRun(s, ops) && k <= |ops|
  {
    exists j :: 0 <= j < k && ops[j].ConfirmReset? && ops[j].token == t && Answer(s, ops, j).ResetAccepted?
  }

  lemma AcceptedOneLater(s: Server, ops: seq<Op>, k: nat, t: Token)
    requires CanRun(s, ops) && 0 < k <= |ops|
    ensures Accepted(s, ops, k, t)
       <==> (ops[0].ConfirmReset? && ops[0].token == t && Step(s, ops[0]).1.ResetAccepted?)
            || Accepted(Step(s, ops[0]).0, ops[1..], k - 1, t)
  {
    var s', rest := Step(s, ops[0]).0, ops[1..];
    assert Answer(s, ops, 0) == Step(s, ops[0]).1;
    forall j | 0 <= j < k - 1 ensures rest[j] == ops[j + 1] && Answer(s', rest, j) == Answer(s, ops, j + 1) {
    }
    if j :| 0 <= j < k - 1 && rest[j].ConfirmReset? && rest[j].token == t && Answer(s', rest, j).ResetAccepted? {
      assert Answer(s, ops, j + 1).ResetAccepted?;
    }
    if j :| 0 < j < k && ops[j].ConfirmReset? && ops[j].token == t && Answer(s, ops, j).ResetAccepted? {
      assert Answer(s', rest, j - 1).ResetAccepted?;
    }
  }

  lemma ResetRowOneLater(s: Server, op: Op, t: Token)
    requires Enabled(s, op) && t in s.resetsSent
    ensures var ((s', o), d) := (Step(s, op), Digest(t));
      && t in s'.resetsSent && (d in s.db.resets <==> d in s'.db.resets)
      && (d in s.db.resets ==>
            s'.db.resets[d] == s.db.resets[d].(used := s.db.resets[d].used
                                                       || (op.ConfirmReset? && op.token == t && o.ResetAccepted?)))
  {
  }

  lemma {:induction false} ResetRowFollowsHistory(s: Server, ops: seq<Op>, k: nat, t: Token)
    requires CanRun(s, ops) && k <= |ops| && t in s.resetsSent
    ensures var (s', d) := (StateAt(s, ops, k), Digest(t));
      && t in s'.resetsSent && (d in s.db.resets <==> d in s'.db.resets)
      && (d in s.db.resets ==>
            s'.db.resets[d] == s.db.resets[d].(used := s.db.resets[d].used || Accepted(s, ops, k, t)))
    decreases |ops|
  {
    if k > 0 {
      AcceptedOneLater(s, ops, k, t);
      ResetRowOneLater(s, ops[0], t);
      hide Step, Answer, Enabled, Accepted;
      ResetRowFollowsHistory(Step(s, ops[0]).0, ops[1..], k - 1, t);
    }
  }

  /**
   What presenting a requested reset token answers, in any run: it is accepted, for the user of the address, if it was
   not accepted before and an hour has not passed; for an unknown address it never is.
   */
  lemma ResetFollowsHistory(s: Server, email: string, t: Token, later: seq<Op>, k: nat)
    requires ServerInv(s) && Enabled(s, RequestReset(email, t))
    requires CanRun(Step(s, RequestReset(email, t)).0, later) && k < |later| && later[k].ConfirmReset? && later[k].token == t
    ensures var s0 := Step(s, RequestReset(email, t)).0;
      Answer(s0, later, k) ==
        if email !in s.db.byEmail || Accepted(s0, later, k, t) || Elapsed(later, k) > 3600 then ResetRefused
        else if s.db.byEmail[email] !in StateAt(s0, later, k).db.users then ServerError
        else ResetAccepted(s.db.byEmail[email])
  {
    var s0 := Step(s, RequestReset(email, t)).0;
    assert ResetInv(s, t);
    ResetRowFollowsHistory(s0, later, k, t);
    TimePasses(s0, later, k);
    AnswerAt(s0, later, k);
  }

  /** What a call makes of the account of `user`, by its answer. */
  function AccountAfter(a: Account, op: Op, o: Outcome, user: UserId): Account {
    if op.SetPassword? && op.user == user then Account(Some(op.hashed), a.active)
    else if op.ConfirmReset? && o == ResetAccepted(user) then Account(Some(op.hashed), a.active)
    else if op.SetActive? && op.user == user then Account(a.password, op.active)
    else a
  }

  ghost function AccountFrom(a: Account, s: Server, ops: seq<Op>, k: nat, user: UserId): Account
    requires CanRun(s, ops) && k <= |ops|
  {
    if k == 0 then a
    else AccountAfter(AccountFrom(a, s, ops, k - 1, user), ops[k - 1], Answer(s, ops, k - 1), user)
  }
  lemma AccountOneLater(s: Server, op: Op, user: UserId)
    requires Enabled(s, op) && user in s.db.users
    ensures var (s', o) := Step(s, op);
      user in s'.db.users && s'.db.users[user] == AccountAfter(s.db.users[user], op, o, user)
  {
  }

  /** In any run an account has the password that was set last and is as active as it was last made. */
  lemma {:induction false} AccountFollowsHistory(s: Server, ops: seq<Op>, k: nat, user: UserId)
    requires CanRun(s, ops) && k <= |ops| && user in s.db.users
    ensures var s' := StateAt(s, ops, k);
      user in s'.db.users && s'.db.users[user] == AccountFrom(s.db.users[user], s, ops, k, user)
    decreases k
  {
    if k > 0 {
      AccountFollowsHistory(s, ops, k - 1, user);
      AnswerAt(s, ops, k - 1);
      AccountOneLater(StateAt(s, ops, k - 1), ops[k - 1], user);
      hide Step, Answer, StateAt, CanRun, AccountAfter, Enabled;
      assert AccountFrom(s.db.users[user], s, ops, k, user)
          == AccountAfter(AccountFrom(s.db.users[user], s, ops, k - 1, user), ops[k - 1], Answer(s, ops, k - 1), user);
    }
  }
}
