/**
 Accounts: signing in through an identity provider, and registering.

 Each request runs as one transaction. Lower-casing is any function on strings, and the random
 suffixes of a request are a sequence of draws, so the claims hold for all of them.
 */
module OAuthLogin {
  import opened Wrappers
  import opened PyText

  datatype Provider = GitHub | Google
  /** A user; its identifier is its position in the table. */
  datatype User = User(username: string, email: string, active: bool)
  datatype Account = Account(user: nat, provider: Provider, accountId: string)
  datatype Store = Store(users: seq<User>, accounts: seq<Account>)

  datatype Outcome =
    | LoggedIn(user: nat, isNew: bool)
    | Registered(id: nat)
    | UnknownProvider
    | Disabled
    | AlreadyRegistered
    | TooLong        // a value is wider than its column
    | StillChoosing  // every name tried so far is taken
    | RowError       // a query for one row found several, or none where one must be

  // The widths of the columns.
  const USERNAME_WIDTH: nat := 39
  const EMAIL_WIDTH: nat := 255
  const ACCOUNT_ID_WIDTH: nat := 255

  function ParseProvider(lower: string -> string, provider: string): Option<Provider> {
    if lower(provider) == "github" then Some(GitHub)
    else if lower(provider) == "google" then Some(Google)
    else None
  }

  // ----- Queries -----

  /** The users linked to an identity. */
  function LinkedUsers(accounts: seq<Account>, provider: Provider, accountId: string): (r: seq<nat>)
    ensures forall u: nat :: u in r <==> Account(u, provider, accountId) in accounts
  {
    if accounts == [] then []
    else
      var last := accounts[|accounts| - 1];
      var before := LinkedUsers(accounts[..|accounts| - 1], provider, accountId);
      assert accounts == accounts[..|accounts| - 1] + [last];
      if last.provider == provider && last.accountId == accountId then before + [last.user] else before
  }

  /** The users that have the given name or the given address. */
  function Matching(users: seq<User>, username: Option<string>, email: string): (r: seq<nat>)
    ensures forall u: nat :: u in r <==> u < |users| && (Some(users[u].username) == username || users[u].email == email)
  {
    if users == [] then []
    else
      var n := |users| - 1;
      var before := Matching(users[..n], username, email);
      if Some(users[n].username) == username || users[n].email == email then before + [n] else before
  }

  predicate Taken(users: seq<User>, username: string) {
    exists u :: u in users && u.username == username
  }

  // ----- Choosing a username -----

  predicate IsAlphanumeric(c: char) {
    ('a' <= c <= 'z') || ('0' <= c <= '9')
  }

  function Alphanumeric(s: string): string {
    if s == "" then ""
    else if IsAlphanumeric(s[0]) then [s[0]] + Alphanumeric(s[1..])
    else Alphanumeric(s[1..])
  }

  function BaseUsername(lower: string -> string, email: string): string {
    var base := Alphanumeric(lower(if email != "" then Split(email, "@")[0] else "user"));
    if base == "" then "oauthuser" else base
  }

  /** The first free one of the candidate and the base with each drawn suffix. */
  function FreeUsername(users: seq<User>, base: string, candidate: string, draws: seq<nat>): Option<string>
    decreases |draws|
  {
    if !Taken(users, candidate) then Some(candidate)
    else if draws == [] then None
    else FreeUsername(users, base, base + Decimal(draws[0]), draws[1..])
  }

  // ----- The requests -----

  function Login(s: Store, lower: string -> string, provider: string, accountId: string, email: string, draws: seq<nat>)
    : (Store, Outcome)
  {
    match ParseProvider(lower, provider)
    case None => (s, UnknownProvider)
    case Some(p) =>
      var linked := LinkedUsers(s.accounts, p, accountId);
      if |linked| > 1 then (s, RowError)
      else if |linked| == 1 then
        if linked[0] >= |s.users| then (s, RowError)
        else if !s.users[linked[0]].active then (s, Disabled)
        else (s, LoggedIn(linked[0], false))
      else
        var known := Matching(s.users, None, email);
        if |known| > 1 then (s, RowError)
        else if |known| == 1 then
          if |accountId| > ACCOUNT_ID_WIDTH then (s, TooLong)
          else (s.(accounts := s.accounts + [Account(known[0], p, accountId)]), LoggedIn(known[0], false))
        else
          var base := BaseUsername(lower, email);
          match FreeUsername(s.users, base, base, draws)
          case None => (s, StillChoosing)
          case Some(username) =>
            if |username| > USERNAME_WIDTH || |email| > EMAIL_WIDTH || |accountId| > ACCOUNT_ID_WIDTH then (s, TooLong)
            else
              (Store(s.users + [User(username, email, true)], s.accounts + [Account(|s.users|, p, accountId)]),
               LoggedIn(|s.users|, true))
  }

  function Register(s: Store, username: string, email: string): (Store, Outcome) {
    var existing := Matching(s.users, Some(username), email);
    if |existing| > 1 then (s, RowError)
    else if |existing| == 1 then (s, AlreadyRegistered)
    else if |username| > USERNAME_WIDTH || |email| > EMAIL_WIDTH then (s, TooLong)
    else (s.(users := s.users + [User(username, email, true)]), Registered(|s.users|))
  }

  /** An operator disables or enables a user. */
  function SetActive(s: Store, user: nat, active: bool): Store {
    if user < |s.users| then s.(users := s.users[user := s.users[user].(active := active)]) else s
  }

  class AccountService {
    var users: seq<User>
    var accounts: seq<Account>

    ghost function Stored(): Store
      reads this
    {
      Store(users, accounts)
    }

    method ChooseUsername(base: string, draws: seq<nat>) returns (username: Option<string>)
      ensures username == FreeUsername(users, base, base, draws)
    {
      var candidate := base;
      var used := 0;
      assert draws[0..] == draws;
      while true
        invariant used <= |draws|
        invariant FreeUsername(users, base, base, draws) == FreeUsername(users, base, candidate, draws[used..])
        decreases |draws| - used
      {
        if !exists u :: u in users && u.username == candidate {
          return Some(candidate);
        }
        if used == |draws| {
          return None;
        }
        assert draws[used..][1..] == draws[used + 1..];
        candidate := base + Decimal(draws[used]);
        used := used + 1;
      }
    }

    method HandleOauthLogin(lower: string -> string, provider: string, accountId: string, email: string, draws: seq<nat>)
      returns (outcome: Outcome)
      modifies this
      ensures (Stored(), outcome) == Login(old(Stored()), lower, provider, accountId, email, draws)
    {
      var p := ParseProvider(lower, provider);
      if p.None? {
        return UnknownProvider;
      }
      var linked := LinkedUsers(accounts, p.value, accountId);
      if |linked| > 1 {
        return RowError;
      }
      if |linked| == 1 {
        if linked[0] >= |users| {
          return RowError;
        }
        if !users[linked[0]].active {
          return Disabled;
        }
        return LoggedIn(linked[0], false);
      }
      var known := Matching(users, None, email);
      if |known| > 1 {
        return RowError;
      }
      var user, isNew := |users|, known == [];
      if isNew {
        var username := ChooseUsername(BaseUsername(lower, email), draws);
        if username.None? {
          return StillChoosing;
        }
        if |username.value| > USERNAME_WIDTH || |email| > EMAIL_WIDTH || |accountId| > ACCOUNT_ID_WIDTH {
          return TooLong;
        }
        users := users + [User(username.value, email, true)];
      } else {
        user := known[0];
        if |accountId| > ACCOUNT_ID_WIDTH {
          return TooLong;
        }
      }
      accounts := accounts + [Account(user, p.value, accountId)];
      return LoggedIn(user, isNew);
    }

    method RegisterUser(username: string, email: string) returns (outcome: Outcome)
      modifies this
      ensures (Stored(), outcome) == Register(old(Stored()), username, email)
    {
      var existing := Matching(users, Some(username), email);
      if |existing| > 1 {
        return RowError;
      }
      if |existing| == 1 {
        return AlreadyRegistered;
      }
      if |username| > USERNAME_WIDTH || |email| > EMAIL_WIDTH {
        return TooLong;
      }
      users := users + [User(username, email, true)];
      return Registered(|users| - 1);
    }
  }

  // ----- Runs -----

  datatype Request =
    | OAuth(provider: string, accountId: string, email: string, draws: seq<nat>)
    | SignUp(username: string, email: string)
    | Switch(user: nat, active: bool)

  function Next(s: Store, lower: string -> string, r: Request): Store {
    match r
    case OAuth(provider, accountId, email, draws) => Login(s, lower, provider, accountId, email, draws).0
    case SignUp(username, email) => Register(s, username, email).0
    case Switch(user, active) => SetActive(s, user, active)
  }

  function Run(s: Store, lower: string -> string, requests: seq<Request>): Store
    decreases |requests|
  {
    if requests == [] then s else Run(Next(s, lower, requests[0]), lower, requests[1..])
  }

  // No two users share a name or an address, no two accounts share an identity, accounts belong to
  // users, and names fit their column.
  ghost predicate Inv(s: Store) {
    && (forall i, j :: 0 <= i < j < |s.users| ==> s.users[i].username != s.users[j].username)
    && (forall i, j :: 0 <= i < j < |s.users| ==> s.users[i].email != s.users[j].email)
    && (forall i, j :: 0 <= i < j < |s.accounts| ==>
          s.accounts[i].provider != s.accounts[j].provider || s.accounts[i].accountId != s.accounts[j].accountId)
    && (forall i :: 0 <= i < |s.accounts| ==> s.accounts[i].user < |s.users|)
    && (forall i :: 0 <= i < |s.users| ==> |s.users[i].username| <= USERNAME_WIDTH)
  }

  // The rows of `s` are still in `s'`: the same accounts, and the same users up to being active.
  ghost predicate Grows(s: Store, s': Store) {
    && s.accounts <= s'.accounts
    && |s.users| <= |s'.users|
    && forall i :: 0 <= i < |s.users| ==> s'.users[i].username == s.users[i].username && s'.users[i].email == s.users[i].email
  }

  lemma {:induction false} FreeIsFree(users: seq<User>, base: string, candidate: string, draws: seq<nat>)
    ensures var name := FreeUsername(users, base, candidate, draws);
      name.Some? ==> !Taken(users, name.value)
    ensures var name := FreeUsername(users, base, candidate, draws);
      name.Some? ==> name.value == candidate || exists d :: d in draws && name.value == base + Decimal(d)
    decreases |draws|
  {
    if Taken(users, candidate) && draws != [] {
      assert draws[0] in draws && forall d :: d in draws[1..] ==> d in draws;
      FreeIsFree(users, base, base + Decimal(draws[0]), draws[1..]);
    }
  }

  lemma NoneMatches(users: seq<User>, username: Option<string>, email: string)
    requires Matching(users, username, email) == []
    ensures forall i :: 0 <= i < |users| ==> Some(users[i].username) != username && users[i].email != email
  {
    forall i | 0 <= i < |users| ensures Some(users[i].username) != username && users[i].email != email {
      assert i !in Matching(users, username, email);
    }
  }

  lemma NotLinked(accounts: seq<Account>, p: Provider, accountId: string)
    requires LinkedUsers(accounts, p, accountId) == []
    ensures forall i :: 0 <= i < |accounts| ==> accounts[i].provider != p || accounts[i].accountId != accountId
  {
    forall i | 0 <= i < |accounts| ensures accounts[i].provider != p || accounts[i].accountId != accountId {
      assert accounts[i].user !in LinkedUsers(accounts, p, accountId);
      assert accounts[i] == Account(accounts[i].user, accounts[i].provider, accounts[i].accountId);
    }
  }

  lemma LinkKeepsInv(s: Store, user: nat, p: Provider, accountId: string)
    requires Inv(s) && user < |s.users| && LinkedUsers(s.accounts, p, accountId) == []
    ensures Inv(s.(accounts := s.accounts + [Account(user, p, accountId)]))
  {
    NotLinked(s.accounts, p, accountId);
  }

  lemma NewUserKeepsInv(s: Store, username: string, email: string)
    requires Inv(s) && !Taken(s.users, username) && |username| <= USERNAME_WIDTH && Matching(s.users, None, email) == []
    ensures Inv(s.(users := s.users + [User(username, email, true)]))
  {
    NoneMatches(s.users, None, email);
    forall i | 0 <= i < |s.users| ensures s.users[i].username != username {
      assert s.users[i] in s.users;
    }
  }

  lemma LoginKeepsInv(s: Store, lower: string -> string, provider: string, accountId: string, email: string, draws: seq<nat>)
    requires Inv(s)
    ensures var s' := Login(s, lower, provider, accountId, email, draws).0; Inv(s') && Grows(s, s')
  {
    var s' := Login(s, lower, provider, accountId, email, draws).0;
    if s' != s {
      var p := ParseProvider(lower, provider).value;
      var known := Matching(s.users, None, email);
      if known == [] {
        var base := BaseUsername(lower, email);
        FreeIsFree(s.users, base, base, draws);
        var username := FreeUsername(s.users, base, base, draws).value;
        NewUserKeepsInv(s, username, email);
        LinkKeepsInv(s.(users := s.users + [User(username, email, true)]), |s.users|, p, accountId);
      } else {
        assert known[0] in known;
        LinkKeepsInv(s, known[0], p, accountId);
      }
    }
  }

  lemma RegisterKeepsInv(s: Store, username: string, email: string)
    requires Inv(s)
    ensures var s' := Register(s, username, email).0; Inv(s') && Grows(s, s')
  {
    if Matching(s.users, Some(username), email) == [] {
      NoneMatches(s.users, Some(username), email);
    }
  }

  lemma SetActiveKeepsInv(s: Store, user: nat, active: bool)
    requires Inv(s)
    ensures var s' := SetActive(s, user, active); Inv(s') && Grows(s, s')
  {
  }

  lemma NextKeepsInv(s: Store, lower: string -> string, r: Request)
    requires Inv(s)
    ensures Inv(Next(s, lower, r)) && Grows(s, Next(s, lower, r))
  {
    hide Login, Register, SetActive;
    match r
    case OAuth(provider, accountId, email, draws) => LoginKeepsInv(s, lower, provider, accountId, email, draws);
    case SignUp(username, email) => RegisterKeepsInv(s, username, email);
    case Switch(user, active) => SetActiveKeepsInv(s, user, active);
  }

  /**
   In every run names and addresses stay distinct and there is at most one account per identity,
   which no constraint of the database enforces; and no row is lost.
   */
  lemma {:induction false} RunKeepsInv(s: Store, lower: string -> string, requests: seq<Request>)
    requires Inv(s)
    ensures Inv(Run(s, lower, requests)) && Grows(s, Run(s, lower, requests))
    decreases |requests|
  {
    if requests != [] {
      NextKeepsInv(s, lower, requests[0]);
      RunKeepsInv(Next(s, lower, requests[0]), lower, requests[1..]);
    }
  }

  lemma {:induction false} OneLinkedUser(accounts: seq<Account>, p: Provider, accountId: string)
    requires forall i, j :: 0 <= i < j < |accounts| ==>
      accounts[i].provider != accounts[j].provider || accounts[i].accountId != accounts[j].accountId
    ensures |LinkedUsers(accounts, p, accountId)| <= 1
    decreases |accounts|
  {
    if accounts != [] {
      var n := |accounts| - 1;
      OneLinkedUser(accounts[..n], p, accountId);
      var before := LinkedUsers(accounts[..n], p, accountId);
      assert before != [] ==> before[0] in before;
      if accounts[n].provider == p && accounts[n].accountId == accountId {
        assert forall u: nat :: Account(u, p, accountId) !in accounts[..n];
      }
    }
  }

  lemma {:induction false} MatchingOnce(users: seq<User>, username: Option<string>, email: string)
    ensures forall i, j :: 0 <= i < j < |Matching(users, username, email)| ==>
      Matching(users, username, email)[i] < Matching(users, username, email)[j]
    decreases |users|
  {
    if users != [] {
      var before := Matching(users[..|users| - 1], username, email);
      MatchingOnce(users[..|users| - 1], username, email);
      forall i | 0 <= i < |before| ensures before[i] < |users| - 1 {
        assert before[i] in before;
      }
    }
  }

  /** Signing in never finds several rows, or none, where it expects one. */
  lemma LoginReadsRows(s: Store, lower: string -> string, provider: string, accountId: string, email: string, draws: seq<nat>)
    requires Inv(s)
    ensures !Login(s, lower, provider, accountId, email, draws).1.RowError?
  {
    var p := ParseProvider(lower, provider);
    if p.Some? {
      var linked, known := LinkedUsers(s.accounts, p.value, accountId), Matching(s.users, None, email);
      OneLinkedUser(s.accounts, p.value, accountId);
      if |linked| == 1 {
        assert linked[0] in linked;
      }
      MatchingOnce(s.users, None, email);
      if |known| > 1 {
        assert known[0] in known && known[1] in known;
      }
    }
  }

  /**
   Registering answers with a server error, not a conflict, if and only if the name belongs to one
   user and the address to another.
   */
  lemma RegisterReadsTwoRowsIff(s: Store, username: string, email: string)
    requires Inv(s)
    ensures Register(s, username, email).1.RowError?
       <==> exists i, j :: 0 <= i < |s.users| && 0 <= j < |s.users| && i != j
                           && s.users[i].username == username && s.users[j].email == email
  {
    var rows := Matching(s.users, Some(username), email);
    MatchingOnce(s.users, Some(username), email);
    if |rows| > 1 {
      var a, b := rows[0], rows[1];
      assert a in rows && b in rows;
      if s.users[a].username == username {
        assert s.users[b].email == email;
      } else {
        assert s.users[b].username == username && s.users[a].email == email;
      }
    }
    if i, j :| 0 <= i < |s.users| && 0 <= j < |s.users| && i != j
               && s.users[i].username == username && s.users[j].email == email {
      assert i in rows && j in rows;
    }
  }

  // ----- Signing in again -----

  lemma LinkedSignsIn(s: Store, lower: string -> string, provider: string, row: Account, email: string, draws: seq<nat>)
    requires Inv(s) && row in s.accounts && ParseProvider(lower, provider) == Some(row.provider)
    ensures row.user < |s.users|
    ensures Login(s, lower, provider, row.accountId, email, draws)
         == (s, if s.users[row.user].active then LoggedIn(row.user, false) else Disabled)
  {
    OneLinkedUser(s.accounts, row.provider, row.accountId);
    assert row.user in LinkedUsers(s.accounts, row.provider, row.accountId);
  }

  /**
   Once an identity has signed in, every later sign-in with it changes nothing: it returns the same
   user, not new, if that user is active, and is refused otherwise.
   */
  lemma SignInAgain(s: Store, lower: string -> string, first: Request, between: seq<Request>, email: string, draws: seq<nat>)
    requires Inv(s) && first.OAuth?
    requires Login(s, lower, first.provider, first.accountId, first.email, first.draws).1.LoggedIn?
    ensures var user := Login(s, lower, first.provider, first.accountId, first.email, first.draws).1.user;
      var later := Run(Next(s, lower, first), lower, between);
      user < |later.users|
      && Login(later, lower, first.provider, first.accountId, email, draws)
         == (later, if later.users[user].active then LoggedIn(user, false) else Disabled)
  {
    hide Login;
    var user := Login(s, lower, first.provider, first.accountId, first.email, first.draws).1.user;
    LoginLinks(s, lower, first);
    NextKeepsInv(s, lower, first);
    var row := Account(user, ParseProvider(lower, first.provider).value, first.accountId);
    var linked := Next(s, lower, first);
    RunKeepsInv(linked, lower, between);
    var later := Run(linked, lower, between);
    var k :| 0 <= k < |linked.accounts| && linked.accounts[k] == row;
    assert later.accounts[k] == row;
    LinkedSignsIn(later, lower, first.provider, row, email, draws);
  }

  lemma LoginLinks(s: Store, lower: string -> string, first: Request)
    requires first.OAuth?
    requires Login(s, lower, first.provider, first.accountId, first.email, first.draws).1.LoggedIn?
    ensures ParseProvider(lower, first.provider).Some?
    ensures var user := Login(s, lower, first.provider, first.accountId, first.email, first.draws).1.user;
      Account(user, ParseProvider(lower, first.provider).value, first.accountId) in Next(s, lower, first).accounts
  {
    var p := ParseProvider(lower, first.provider).value;
    var linked := LinkedUsers(s.accounts, p, first.accountId);
    if |linked| == 1 {
      assert linked[0] in linked;
    }
  }

  // The identity has an account already.
  ghost predicate IsLinked(s: Store, p: Provider, accountId: string) {
    exists a :: a in s.accounts && a.provider == p && a.accountId == accountId
  }

  // The sign-in succeeds for a user that is disabled.
  ghost predicate LetsDisabledIn(s: Store, lower: string -> string, r: Request)
    requires r.OAuth?
  {
    var (s', outcome) := Login(s, lower, r.provider, r.accountId, r.email, r.draws);
    outcome.LoggedIn? && outcome.user < |s'.users| && !s'.users[outcome.user].active
  }

  lemma NoLinkNoRow(s: Store, p: Provider, accountId: string)
    ensures LinkedUsers(s.accounts, p, accountId) == [] || IsLinked(s, p, accountId)
  {
    var linked := LinkedUsers(s.accounts, p, accountId);
    assert linked == [] || linked[0] in linked;
  }

  /**
   A disabled user is let in if and only if a first sign-in with a new identity finds the user by
   its address: only the lookup of a linked account checks that the user is active.
   */
  lemma DisabledUserGetsInIff(s: Store, lower: string -> string, r: Request)
    requires Inv(s) && r.OAuth? && ParseProvider(lower, r.provider).Some?
    ensures LetsDisabledIn(s, lower, r)
       <==> (!IsLinked(s, ParseProvider(lower, r.provider).value, r.accountId)
             && |r.accountId| <= ACCOUNT_ID_WIDTH
             && exists u :: u in s.users && u.email == r.email && !u.active)
  {
    var p := ParseProvider(lower, r.provider).value;
    var linked, known := LinkedUsers(s.accounts, p, r.accountId), Matching(s.users, None, r.email);
    LoginReadsRows(s, lower, r.provider, r.accountId, r.email, r.draws);
    if IsLinked(s, p, r.accountId) {
      var a :| a in s.accounts && a.provider == p && a.accountId == r.accountId;
      assert a == Account(a.user, p, r.accountId);
      assert a.user in linked;
    } else {
      NoLinkNoRow(s, p, r.accountId);
      assert |known| > 0 ==> known[0] in known;
      if u :| u in s.users && u.email == r.email && !u.active {
        var i :| 0 <= i < |s.users| && s.users[i] == u;
        assert i in known;
      }
      if known != [] && LetsDisabledIn(s, lower, r) {
        assert s.users[known[0]] in s.users;
      }
    }
  }

  lemma UnknownAddress(users: seq<User>, email: string)
    ensures Matching(users, None, email) == [] || exists u :: u in users && u.email == email
  {
    var known := Matching(users, None, email);
    if known != [] {
      assert known[0] in known;
      assert users[known[0]] in users;
    }
  }

  /**
   A new user whose address gives a name wider than the column never gets in: no one can hold such a
   name, so it is always found free, and refused.
   */
  lemma LongNameNeverGetsIn(s: Store, lower: string -> string, r: Request)
    requires Inv(s) && r.OAuth? && ParseProvider(lower, r.provider).Some?
    requires |BaseUsername(lower, r.email)| > USERNAME_WIDTH
    requires !IsLinked(s, ParseProvider(lower, r.provider).value, r.accountId) && forall u :: u in s.users ==> u.email != r.email
    ensures Login(s, lower, r.provider, r.accountId, r.email, r.draws) == (s, TooLong)
  {
    var base := BaseUsername(lower, r.email);
    NoLinkNoRow(s, ParseProvider(lower, r.provider).value, r.accountId);
    UnknownAddress(s.users, r.email);
    assert !Taken(s.users, base);
  }

  // The suffixes the code draws.
  predicate Drawn(draws: seq<nat>) {
    forall d :: d in draws ==> 100 <= d <= 9999
  }

  // Every name the code can try is taken.
  ghost predicate Exhausted(users: seq<User>, base: string) {
    Taken(users, base) && forall d: nat :: 100 <= d <= 9999 ==> Taken(users, base + Decimal(d))
  }

  lemma {:induction false} ExhaustedHasNoName(users: seq<User>, base: string, candidate: string, draws: seq<nat>)
    requires Exhausted(users, base) && Taken(users, candidate) && Drawn(draws)
    ensures FreeUsername(users, base, candidate, draws) == None
    decreases |draws|
  {
    if draws != [] {
      assert draws[0] in draws && forall d :: d in draws[1..] ==> d in draws;
      ExhaustedHasNoName(users, base, base + Decimal(draws[0]), draws[1..]);
    }
  }

  lemma SuffixWidth(d: nat)
    requires 100 <= d <= 9999
    ensures 3 <= |Decimal(d)| <= 4 && (d >= 1000 ==> |Decimal(d)| == 4)
  {
    assert |Decimal(d / 100 / 10)| == 1 && |Decimal(d / 10 / 10)| <= 2;
    assert Decimal(d) == Decimal(d / 10) + [DigitChar(d % 10)];
    assert Decimal(d / 10) == Decimal(d / 10 / 10) + [DigitChar(d / 10 % 10)];
  }

  lemma NameFits(users: seq<User>, base: string, draws: seq<nat>)
    requires Drawn(draws) && |base| <= USERNAME_WIDTH && (Taken(users, base) ==> |base| <= USERNAME_WIDTH - 4)
    ensures var name := FreeUsername(users, base, base, draws); name.Some? ==> |name.value| <= USERNAME_WIDTH
  {
    FreeIsFree(users, base, base, draws);
    var name := FreeUsername(users, base, base, draws);
    if name.Some? && name.value != base {
      var d :| d in draws && name.value == base + Decimal(d);
      SuffixWidth(d);
    }
  }

  lemma OneDraw(users: seq<User>, base: string, d: nat)
    requires Taken(users, base) && !Taken(users, base + Decimal(d))
    ensures FreeUsername(users, base, base, [d]) == Some(base + Decimal(d))
  {
    assert [d][1..] == [];
    assert FreeUsername(users, base, base + Decimal(d), []) == Some(base + Decimal(d));
  }

  // An identity and an address the store does not know.
  ghost predicate Newcomer(s: Store, lower: string -> string, provider: string, accountId: string, email: string) {
    && ParseProvider(lower, provider).Some?
    && !IsLinked(s, ParseProvider(lower, provider).value, accountId)
    && forall u :: u in s.users ==> u.email != email
  }

  lemma NewcomerOutcome(s: Store, lower: string -> string, provider: string, accountId: string, email: string, draws: seq<nat>)
    requires Newcomer(s, lower, provider, accountId, email)
    ensures var base := BaseUsername(lower, email);
      var name := FreeUsername(s.users, base, base, draws);
      Login(s, lower, provider, accountId, email, draws).1.TooLong?
      <==> name.Some? && (|name.value| > USERNAME_WIDTH || |email| > EMAIL_WIDTH || |accountId| > ACCOUNT_ID_WIDTH)
  {
    NoLinkNoRow(s, ParseProvider(lower, provider).value, accountId);
    UnknownAddress(s.users, email);
  }

  // Whatever is drawn, the sign-in does not fail for a value too wide for its column.
  ghost predicate NeverTooLong(s: Store, lower: string -> string, provider: string, accountId: string, email: string) {
    forall draws: seq<nat> :: Drawn(draws) ==> !Login(s, lower, provider, accountId, email, draws).1.TooLong?
  }

  lemma SomeDrawIsTooLong(s: Store, lower: string -> string, provider: string, accountId: string, email: string)
    returns (draws: seq<nat>)
    requires Inv(s) && Newcomer(s, lower, provider, accountId, email)
    requires var base := BaseUsername(lower, email);
      !Exhausted(s.users, base)
      && (|email| > EMAIL_WIDTH || |accountId| > ACCOUNT_ID_WIDTH || |base| > USERNAME_WIDTH
          || (Taken(s.users, base) && |base| > USERNAME_WIDTH - 4))
    ensures Drawn(draws) && Login(s, lower, provider, accountId, email, draws).1.TooLong?
  {
    var base := BaseUsername(lower, email);
    if !Taken(s.users, base) {
      draws := [];
    } else if |base| > USERNAME_WIDTH - 4 {
      draws := [1000];
      SuffixWidth(1000);
      assert !Taken(s.users, base + Decimal(1000));
      OneDraw(s.users, base, 1000);
    } else {
      var d: nat :| 100 <= d <= 9999 && !Taken(s.users, base + Decimal(d));
      draws := [d];
      OneDraw(s.users, base, d);
    }
    NewcomerOutcome(s, lower, provider, accountId, email, draws);
  }

  /**
   A newcomer is never refused for a value too wide if and only if address and identity fit their
   columns, and the base name does: alone while it is free, and with four more characters once it is
   taken.  The one exception is a name all of whose suffixed forms are taken, which fails otherwise.
   */
  lemma NeverTooLongIff(s: Store, lower: string -> string, provider: string, accountId: string, email: string)
    requires Inv(s) && Newcomer(s, lower, provider, accountId, email)
    ensures var base := BaseUsername(lower, email);
      NeverTooLong(s, lower, provider, accountId, email)
      <==> Exhausted(s.users, base)
           || (|email| <= EMAIL_WIDTH && |accountId| <= ACCOUNT_ID_WIDTH && |base| <= USERNAME_WIDTH
               && (Taken(s.users, base) ==> |base| <= USERNAME_WIDTH - 4))
  {
    hide Login;
    var base := BaseUsername(lower, email);
    if Exhausted(s.users, base)
       || (|email| <= EMAIL_WIDTH && |accountId| <= ACCOUNT_ID_WIDTH && |base| <= USERNAME_WIDTH
           && (Taken(s.users, base) ==> |base| <= USERNAME_WIDTH - 4)) {
      forall draws: seq<nat> | Drawn(draws)
        ensures !Login(s, lower, provider, accountId, email, draws).1.TooLong?
      {
        NewcomerOutcome(s, lower, provider, accountId, email, draws);
        if Exhausted(s.users, base) {
          ExhaustedHasNoName(s.users, base, base, draws);
        } else {
          NameFits(s.users, base, draws);
        }
      }
    } else {
      var draws := SomeDrawIsTooLong(s, lower, provider, accountId, email);
    }
  }
  // ----- Which identity leads to which user -----

  // The provider goes by this name.
  predicate GoesBy(p: Provider, name: string) {
    (p.GitHub? && name == "github") || (p.Google? && name == "google")
  }

  // The identity belongs to the user number `user`.
  ghost predicate Links(s: Store, name: string, accountId: string, user: nat) {
    exists a :: a in s.accounts && GoesBy(a.provider, name) && a.accountId == accountId && a.user == user
  }

  // The account row of a first sign-in is the last one.
  ghost predicate AddsLink(s: Store, s': Store, name: string, accountId: string, user: nat) {
    && |s'.accounts| == |s.accounts| + 1 && s.accounts <= s'.accounts
    && var a := s'.accounts[|s.accounts|];
       GoesBy(a.provider, name) && a.accountId == accountId && a.user == user
  }

  // The request leaves the store alone and is answered `o`.
  predicate Refuses(s: Store, reply: (Store, Outcome), o: Outcome) {
    reply == (s, o)
  }

  // Number `i` of the names tried is the first that is free.
  ghost predicate IsFirstFree(users: seq<User>, base: string, draws: seq<nat>, i: nat)
    requires i <= |draws|
  {
    !Taken(users, Candidate(base, draws, i)) && forall j :: 0 <= j < i ==> Taken(users, Candidate(base, draws, j))
  }

  function Candidate(base: string, draws: seq<nat>, i: nat): string
    requires i <= |draws|
  {
    if i == 0 then base else base + Decimal(draws[i - 1])
  }

  lemma {:induction false} FirstFreeFrom(users: seq<User>, base: string, draws: seq<nat>, from: nat)
    requires from <= |draws|
    ensures var name := FreeUsername(users, base, Candidate(base, draws, from), draws[from..]);
      if name.None? then forall i :: from <= i <= |draws| ==> Taken(users, Candidate(base, draws, i))
      else exists i: nat :: from <= i <= |draws| && name.value == Candidate(base, draws, i) && !Taken(users, name.value)
                            && forall j :: from <= j < i ==> Taken(users, Candidate(base, draws, j))
    decreases |draws| - from
  {
    if Taken(users, Candidate(base, draws, from)) && from < |draws| {
      assert draws[from..][1..] == draws[from + 1..] && draws[from..][0] == draws[from];
      FirstFreeFrom(users, base, draws, from + 1);
    }
  }

  /** The name chosen is the first free one of the base and the base with each drawn number; there is none if all are taken. */
  lemma ChosenNameIsFirstFree(users: seq<User>, base: string, draws: seq<nat>)
    ensures var name := FreeUsername(users, base, base, draws);
      if name.None? then forall i :: 0 <= i <= |draws| ==> Taken(users, Candidate(base, draws, i))
      else exists i: nat :: i <= |draws| && name.value == Candidate(base, draws, i) && IsFirstFree(users, base, draws, i)
  {
    FirstFreeFrom(users, base, draws, 0);
    assert draws[0..] == draws;
  }

  // What is answered if the address is unknown too: a user with the first free name, if one is free and all values fit.
  ghost predicate MakesUser(s: Store, reply: (Store, Outcome), name: string, accountId: string, email: string,
                            base: string, draws: seq<nat>) {
    if forall i :: 0 <= i <= |draws| ==> Taken(s.users, Candidate(base, draws, i)) then Refuses(s, reply, StillChoosing)
    else
      exists i: nat :: i <= |draws| && IsFirstFree(s.users, base, draws, i)
        && var username := Candidate(base, draws, i);
           if |username| > 39 || |email| > 255 || |accountId| > 255 then Refuses(s, reply, TooLong)
           else
             && reply.1 == LoggedIn(|s.users|, true)
             && reply.0.users == s.users + [User(username, email, true)]
             && AddsLink(s, reply.0, name, accountId, |s.users|)
  }

  // What is answered to an identity without a user: the owner of the address is linked, or a new user made.
  ghost predicate FirstSignIn(s: Store, reply: (Store, Outcome), name: string, accountId: string, email: string,
                              base: string, draws: seq<nat>) {
    var (s', o) := reply;
    if exists i :: 0 <= i < |s.users| && s.users[i].email == email then
      if |accountId| > 255 then Refuses(s, reply, TooLong)
      else
        o.LoggedIn? && !o.isNew && o.user < |s.users| && s.users[o.user].email == email
        && s'.users == s.users && AddsLink(s, s', name, accountId, o.user)
    else MakesUser(s, reply, name, accountId, email, base, draws)
  }

  /** What a sign-in does: it goes by the provider's name and the identity there, and by the address only then. */
  lemma SignInGoesByIdentity(s: Store, lower: string -> string, provider: string, accountId: string, email: string,
                             draws: seq<nat>)
    requires Inv(s)
    ensures var reply, name := Login(s, lower, provider, accountId, email, draws), lower(provider);
      if name !in {"github", "google"} then Refuses(s, reply, UnknownProvider)
      else if exists u: nat :: Links(s, name, accountId, u) then
        exists u: nat :: Links(s, name, accountId, u) && u < |s.users|
          && Refuses(s, reply, if s.users[u].active then LoggedIn(u, false) else Disabled)
      else FirstSignIn(s, reply, name, accountId, email, BaseUsername(lower, email), draws)
  {
    var name := lower(provider);
    if name in {"github", "google"} {
      var p := ParseProvider(lower, provider).value;
      assert forall q: Provider :: GoesBy(q, name) <==> q == p;
      if u :| Links(s, name, accountId, u) {
        var a :| a in s.accounts && GoesBy(a.provider, name) && a.accountId == accountId && a.user == u;
        LinkedSignsIn(s, lower, provider, a, email, draws);
        assert Links(s, name, accountId, a.user);
      } else {
        FirstSignInOutcome(s, lower, provider, accountId, email, draws);
      }
    }
  }

  lemma NewUserOutcome(s: Store, lower: string -> string, provider: string, accountId: string, email: string, draws: seq<nat>)
    requires ParseProvider(lower, provider).Some?
    requires LinkedUsers(s.accounts, ParseProvider(lower, provider).value, accountId) == [] && Matching(s.users, None, email) == []
    ensures MakesUser(s, Login(s, lower, provider, accountId, email, draws), lower(provider), accountId, email,
                      BaseUsername(lower, email), draws)
  {
    var base := BaseUsername(lower, email);
    ChosenNameIsFirstFree(s.users, base, draws);
    hide BaseUsername, FreeUsername, LinkedUsers, Matching, Candidate;
    var name := FreeUsername(s.users, base, base, draws);
    if name.Some? {
      var i: nat :| i <= |draws| && name.value == Candidate(base, draws, i) && IsFirstFree(s.users, base, draws, i);
      assert !forall j :: 0 <= j <= |draws| ==> Taken(s.users, Candidate(base, draws, j));
    }
  }

  lemma FirstSignInOutcome(s: Store, lower: string -> string, provider: string, accountId: string, email: string,
                           draws: seq<nat>)
    requires Inv(s) && ParseProvider(lower, provider).Some?
    requires forall u: nat :: !Links(s, lower(provider), accountId, u)
    ensures FirstSignIn(s, Login(s, lower, provider, accountId, email, draws), lower(provider), accountId, email,
                        BaseUsername(lower, email), draws)
  {
    var p := ParseProvider(lower, provider).value;
    var linked, known := LinkedUsers(s.accounts, p, accountId), Matching(s.users, None, email);
    NoLinkNoRow(s, p, accountId);
    forall a | a in s.accounts ensures a.provider != p || a.accountId != accountId {
      assert !Links(s, lower(provider), accountId, a.user);
    }
    LoginReadsRows(s, lower, provider, accountId, email, draws);
    if i :| 0 <= i < |s.users| && s.users[i].email == email {
      assert i in known && known[0] in known;
    } else {
      UnknownAddress(s.users, email);
      NewUserOutcome(s, lower, provider, accountId, email, draws);
      hide Login;
    }
  }

  // ----- The same over whole runs -----

  function Reply(s: Store, lower: string -> string, r: Request): Outcome {
    match r
    case OAuth(provider, accountId, email, draws) => Login(s, lower, provider, accountId, email, draws).1
    case SignUp(username, email) => Register(s, username, email).1
    case Switch(user, _) => Registered(user)
  }

  /** The answer to request number `k` of a run. */
  function ReplyAt(s: Store, lower: string -> string, requests: seq<Request>, k: nat): Outcome
    requires k < |requests|
    decreases k
  {
    if k == 0 then Reply(s, lower, requests[0]) else ReplyAt(Next(s, lower, requests[0]), lower, requests[1..], k - 1)
  }

  // Request `r`, answered `o`, signs the identity in as `user`.
  predicate SignsIn(lower: string -> string, r: Request, o: Outcome, name: string, accountId: string, user: nat) {
    r.OAuth? && lower(r.provider) == name && r.accountId == accountId && o.LoggedIn? && o.user == user
  }

  ghost predicate SignedInBefore(s: Store, lower: string -> string, requests: seq<Request>, k: nat, name: string,
                                 accountId: string, user: nat)
    requires k <= |requests|
  {
    exists j :: 0 <= j < k && SignsIn(lower, requests[j], ReplyAt(s, lower, requests, j), name, accountId, user)
  }

  lemma SignedInOneLater(s: Store, lower: string -> string, requests: seq<Request>, k: nat, name: string,
                         accountId: string, user: nat)
    requires 0 < k <= |requests|
    ensures SignedInBefore(s, lower, requests, k, name, accountId, user)
       <==> SignsIn(lower, requests[0], Reply(s, lower, requests[0]), name, accountId, user)
            || SignedInBefore(Next(s, lower, requests[0]), lower, requests[1..], k - 1, name, accountId, user)
  {
    var s', rest := Next(s, lower, requests[0]), requests[1..];
    hide Reply, Next;
    forall j | 0 <= j < k - 1
      ensures rest[j] == requests[j + 1] && ReplyAt(s', lower, rest, j) == ReplyAt(s, lower, requests, j + 1)
    {
    }
    if j :| 0 <= j < k - 1 && SignsIn(lower, rest[j], ReplyAt(s', lower, rest, j), name, accountId, user) {
      assert SignsIn(lower, requests[j + 1], ReplyAt(s, lower, requests, j + 1), name, accountId, user);
    }
    if j :| 0 < j < k && SignsIn(lower, requests[j], ReplyAt(s, lower, requests, j), name, accountId, user) {
      assert SignsIn(lower, rest[j - 1], ReplyAt(s', lower, rest, j - 1), name, accountId, user);
    }
  }

  lemma LinkAdded(s: Store, s': Store, name: string, accountId: string, user: nat, name': string, accountId': string, user': nat)
    requires AddsLink(s, s', name, accountId, user)
    ensures Links(s', name', accountId', user')
       <==> Links(s, name', accountId', user') || (name' == name && accountId' == accountId && user' == user)
  {
    var a := s'.accounts[|s.accounts|];
    assert s'.accounts == s.accounts + [a];
    if Links(s', name', accountId', user') {
      var b :| b in s'.accounts && GoesBy(b.provider, name') && b.accountId == accountId' && b.user == user';
      assert b in s.accounts || b == a;
    }
    if Links(s, name', accountId', user') {
      var b :| b in s.accounts && GoesBy(b.provider, name') && b.accountId == accountId' && b.user == user';
      assert b in s'.accounts;
    }
    assert a in s'.accounts;
  }

  lemma FirstSignInLinks(s: Store, reply: (Store, Outcome), name: string, accountId: string, email: string,
                         base: string, draws: seq<nat>)
    requires FirstSignIn(s, reply, name, accountId, email, base, draws)
    ensures if reply.1.LoggedIn? then AddsLink(s, reply.0, name, accountId, reply.1.user) else reply.0 == s
  {
    hide Candidate, Taken, IsFirstFree, AddsLink;
  }

  lemma LinkOneLater(s: Store, lower: string -> string, r: Request, name: string, accountId: string, user: nat)
    requires Inv(s)
    ensures Links(Next(s, lower, r), name, accountId, user)
       <==> Links(s, name, accountId, user) || SignsIn(lower, r, Reply(s, lower, r), name, accountId, user)
  {
    if r.OAuth? {
      SignInGoesByIdentity(s, lower, r.provider, r.accountId, r.email, r.draws);
      var reply := Login(s, lower, r.provider, r.accountId, r.email, r.draws);
      hide Login, Links, FirstSignIn, Inv, AddsLink;
      if FirstSignIn(s, reply, lower(r.provider), r.accountId, r.email, BaseUsername(lower, r.email), r.draws) {
        FirstSignInLinks(s, reply, lower(r.provider), r.accountId, r.email, BaseUsername(lower, r.email), r.draws);
        if reply.1.LoggedIn? {
          LinkAdded(s, reply.0, lower(r.provider), r.accountId, reply.1.user, name, accountId, user);
        }
      }
    }
  }

  /** In any run an identity belongs to a user exactly if it did before or has signed in as that user since. */
  lemma {:induction false} LinksFollowHistory(s: Store, lower: string -> string, requests: seq<Request>, k: nat,
                                              name: string, accountId: string, user: nat)
    requires Inv(s) && k <= |requests|
    ensures Links(Run(s, lower, requests[..k]), name, accountId, user)
       <==> Links(s, name, accountId, user) || SignedInBefore(s, lower, requests, k, name, accountId, user)
    decreases k
  {
    if k == 0 {
      assert requests[..0] == [];
    } else {
      var s', rest := Next(s, lower, requests[0]), requests[1..];
      NextKeepsInv(s, lower, requests[0]);
      LinkOneLater(s, lower, requests[0], name, accountId, user);
      SignedInOneLater(s, lower, requests, k, name, accountId, user);
      LinksFollowHistory(s', lower, rest, k - 1, name, accountId, user);
      hide Next, Links, SignedInBefore, SignsIn;
      assert requests[..k][1..] == rest[..k - 1];
    }
  }
  lemma {:induction false} ReplyInState(s: Store, lower: string -> string, requests: seq<Request>, k: nat)
    requires k < |requests|
    ensures ReplyAt(s, lower, requests, k) == Reply(Run(s, lower, requests[..k]), lower, requests[k])
    decreases k
  {
    if k == 0 {
      assert requests[..0] == [];
    } else {
      ReplyInState(Next(s, lower, requests[0]), lower, requests[1..], k - 1);
      hide Next, Reply;
      assert requests[..k][1..] == requests[1..][..k - 1];
    }
  }

  /**
   In any run that starts without accounts a sign-in with a known provider returns the very user that the same name
   and identity signed in as before; if there was none, it is a first sign-in.
   */
  lemma SignInFollowsHistory(s: Store, lower: string -> string, requests: seq<Request>, k: nat)
    requires Inv(s) && s.accounts == [] && k < |requests| && requests[k].OAuth?
    requires lower(requests[k].provider) in {"github", "google"}
    ensures var (r, now) := (requests[k], Run(s, lower, requests[..k]));
      var name := lower(r.provider);
      if exists u: nat :: SignedInBefore(s, lower, requests, k, name, r.accountId, u) then
        exists u: nat :: SignedInBefore(s, lower, requests, k, name, r.accountId, u) && u < |now.users|
          && ReplyAt(s, lower, requests, k) == if now.users[u].active then LoggedIn(u, false) else Disabled
      else
        FirstSignIn(now, Login(now, lower, r.provider, r.accountId, r.email, r.draws), name, r.accountId, r.email,
                    BaseUsername(lower, r.email), r.draws)
  {
    var r, now := requests[k], Run(s, lower, requests[..k]);
    RunKeepsInv(s, lower, requests[..k]);
    ReplyInState(s, lower, requests, k);
    SignInGoesByIdentity(now, lower, r.provider, r.accountId, r.email, r.draws);
    hide Login, Run, FirstSignIn, Inv;
    forall u: nat
      ensures Links(now, lower(r.provider), r.accountId, u)
         <==> SignedInBefore(s, lower, requests, k, lower(r.provider), r.accountId, u)
    {
      LinksFollowHistory(s, lower, requests, k, lower(r.provider), r.accountId, u);
    }
    hide Links, SignedInBefore;
  }

  // ----- Names and rows in plain terms -----

  // `kept` is what is left of `s` when all but lower-case letters and digits are struck out.
  ghost predicate KeepsAlphanumeric(s: string, kept: string, at: seq<nat>) {
    && |kept| == |at|
    && (forall i, j :: 0 <= i < j < |at| ==> at[i] < at[j])
    && (forall j :: 0 <= j < |at| ==> at[j] < |s| && kept[j] == s[at[j]])
    && forall i: nat :: i in at <==> i < |s| && ('a' <= s[i] <= 'z' || '0' <= s[i] <= '9')
  }

  lemma {:induction false} AlphanumericKeeps(s: string) returns (at: seq<nat>)
    ensures KeepsAlphanumeric(s, Alphanumeric(s), at)
    decreases |s|
  {
    if s == "" {
      at := [];
    } else {
      var last := |s| - 1;
      at := AlphanumericKeeps(s[..last]);
      AlphanumericSnoc(s[..last], s[last]);
      assert s == s[..last] + [s[last]];
      assert forall j :: 0 <= j < |at| ==> at[j] in at;
      if IsAlphanumeric(s[last]) {
        at := at + [last];
      }
    }
  }

  lemma {:induction false} AlphanumericSnoc(s: string, c: char)
    ensures Alphanumeric(s + [c]) == Alphanumeric(s) + (if IsAlphanumeric(c) then [c] else [])
    decreases |s|
  {
    if s == "" {
      assert (s + [c])[1..] == "";
    } else {
      assert (s + [c])[1..] == s[1..] + [c];
      AlphanumericSnoc(s[1..], c);
    }
  }

  /** The base name: what is left of the address before its first "@", or of "user" if there is no address. */
  lemma BaseNameOf(lower: string -> string, local: string, host: Option<string>) returns (kept: string, at: seq<nat>)
    requires '@' !in local
    ensures var email := local + (if host.Some? then "@" + host.value else "");
      && KeepsAlphanumeric(lower(if email != "" then local else "user"), kept, at)
      && BaseUsername(lower, email) == if kept == "" then "oauthuser" else kept
  {
    var email := local + (if host.Some? then "@" + host.value else "");
    var text := lower(if email != "" then local else "user");
    kept := Alphanumeric(text);
    at := AlphanumericKeeps(text);
    forall i | 0 <= i < |local| ensures !OccursAt(email, "@", i) {
      assert email[i..i + 1][0] == email[i] == local[i] && local[i] in local;
    }
    if host.Some? {
      assert email[|local|..|local| + 1] == "@";
      SplitAtFirst(email, "@", |local|);
      assert email[..|local|] == local;
    } else {
      assert email == local;
      assert !OccursAt(email, "@", |local|);
      SplitWithout(email, "@");
    }
  }

  /** Registering adds a user exactly if name and address are free and fit their columns. */
  lemma RegisteringAddsIff(s: Store, username: string, email: string)
    ensures var (s', o) := Register(s, username, email);
      if (forall u :: u in s.users ==> u.username != username && u.email != email) && |username| <= 39 && |email| <= 255 then
        o == Registered(|s.users|) && s' == Store(s.users + [User(username, email, true)], s.accounts)
      else s' == s && !o.Registered?
  {
    var rows := Matching(s.users, Some(username), email);
    if rows == [] {
      NoneMatches(s.users, Some(username), email);
    } else {
      assert rows[0] in rows && s.users[rows[0]] in s.users;
    }
  }
}
