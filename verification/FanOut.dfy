/**
 Real-time fan-out: every process keeps a local map from user to open sockets and hears the
 same broadcast channel.

 `ConnectionManager` is one process's map.  `Net` is the whole system; a delivery is a series
 of steps, because each send awaits and connects and disconnects may run in between.
 */
module FanOut {
  import opened Wrappers

  type User = string
  type Socket = nat
  type Process = nat
  type Buckets = map<User, set<Socket>>

  datatype Message = Message(user: User, body: string)

  // ----- The local map -----

  function Bucket(conns: Buckets, user: User): set<Socket> {
    if user in conns then conns[user] else {}
  }

  function Joined(conns: Buckets, user: User, ws: Socket): Buckets {
    conns[user := Bucket(conns, user) + {ws}]
  }

  /** An emptied bucket is dropped from the map. */
  function Left(conns: Buckets, user: User, ws: Socket): Buckets {
    if user !in conns then conns
    else if conns[user] - {ws} == {} then conns - {user}
    else conns[user := conns[user] - {ws}]
  }

  /** Sockets found dead are discarded, but even an emptied bucket stays in the map. */
  function Bury(conns: Buckets, user: User, dead: set<Socket>): Buckets {
    if user in conns then conns[user := conns[user] - dead] else conns
  }

  // The maps agree on every other user.
  predicate SameElsewhere(conns: Buckets, conns': Buckets, user: User) {
    conns - {user} == conns' - {user}
  }

  class ConnectionManager {
    var connections: Buckets

    constructor ()
      ensures connections == map[]
    {
      connections := map[];
    }

    method Connect(user: User, ws: Socket)
      modifies this
      ensures connections == Joined(old(connections), user, ws)
      ensures user in connections && connections[user] == Bucket(old(connections), user) + {ws}
      ensures SameElsewhere(old(connections), connections, user)
    {
      if user !in connections {
        connections := connections[user := {}];
      }
      connections := connections[user := connections[user] + {ws}];
    }

    method Disconnect(user: User, ws: Socket)
      modifies this
      ensures connections == Left(old(connections), user, ws)
      ensures Bucket(connections, user) == Bucket(old(connections), user) - {ws}
      ensures user in connections <==> user in old(connections) && old(connections)[user] - {ws} != {}
      ensures SameElsewhere(old(connections), connections, user)
    {
      if user in connections {
        connections := connections[user := connections[user] - {ws}];
        if connections[user] == {} {
          connections := connections - {user};
        }
      }
    }

    /** A delivery nothing interrupts; sending to a socket in `broken` raises. */
    method DeliverLocal(user: User, broken: set<Socket>) returns (reached: set<Socket>)
      modifies this
      ensures reached == Bucket(old(connections), user) - broken
      ensures connections == Bury(old(connections), user, broken)
      ensures user in connections <==> user in old(connections)
      ensures user in connections ==> connections[user] == old(connections)[user] - broken
      ensures SameElsewhere(old(connections), connections, user)
    {
      reached := {};
      if user !in connections || connections[user] == {} {
        return;
      }
      var remaining, dead := connections[user], {};
      while remaining != {}
        invariant reached + dead + remaining == connections[user]
        invariant dead <= broken && reached !! broken
        decreases remaining
      {
        var ws :| ws in remaining;
        if ws in broken {
          dead := dead + {ws};
        } else {
          reached := reached + {ws};
        }
        remaining := remaining - {ws};
      }
      var buried := {};
      assert connections[user] - {} == connections[user];
      while buried != dead
        invariant buried <= dead
        invariant connections == Bury(old(connections), user, buried)
        decreases dead - buried
      {
        assert dead - buried != {};
        var ws :| ws in dead - buried;
        assert old(connections)[user] - buried - {ws} == old(connections)[user] - (buried + {ws});
        connections := connections[user := connections[user] - {ws}];
        buried := buried + {ws};
      }
      assert old(connections)[user] - dead == old(connections)[user] - broken;
    }
  }

  // ----- The system -----

  /**
   A delivery under way iterates over the bucket it started with.  `attached` is whether that
   bucket is still the one in the map; `awaiting` is the socket a send is under way to.
   */
  datatype Task =
    | Idle
    | Sending(todo: set<Socket>, attached: bool, visited: set<Socket>, dead: set<Socket>, awaiting: Option<Socket>)

  // `cursor` counts the messages taken off the channel and done with.
  datatype Proc = Proc(conns: Buckets, cursor: nat, task: Task)

  // Where a socket was opened, and how far its process was in the channel then.
  datatype Home = Home(process: Process, user: User, joined: nat)

  datatype Net = Net(
    published: seq<Message>,
    procs: map<Process, Proc>,
    home: map<Socket, Home>,
    open: set<Socket>,                 // sockets whose route has not run its disconnect
    logs: map<Socket, seq<nat>>,       // what each socket received, by place in the channel
    missed: set<(Socket, nat)>)        // sends that raised or that an aborted delivery skipped

  datatype Event =
    | Start(p: Process)
    | Publish(m: Message)
    | Connect(p: Process, user: User, ws: Socket)
    | Disconnect(ws: Socket)
    | Take(p: Process)
    | Pick(p: Process, ws: Socket)
    | Sent(p: Process, ok: bool)
    | Finish(p: Process)
    | Abort(p: Process)

  function Target(n: Net, p: Process): User
    requires p in n.procs && n.procs[p].cursor < |n.published|
  {
    n.published[n.procs[p].cursor].user
  }

  ghost predicate Busy(n: Net, p: Process) {
    p in n.procs && n.procs[p].task.Sending? && n.procs[p].cursor < |n.published|
  }

  // The sockets a delivery under way would find in the map now.
  function Current(n: Net, p: Process): set<Socket>
    requires p in n.procs && n.procs[p].cursor < |n.published|
  {
    Bucket(n.procs[p].conns, Target(n, p))
  }

  /** The iterator notices a bucket that was dropped or whose size changed. */
  ghost predicate Disturbed(n: Net, p: Process)
    requires Busy(n, p)
  {
    !n.procs[p].task.attached || |Current(n, p)| != |n.procs[p].task.todo|
  }

  ghost predicate Possible(n: Net, e: Event) {
    match e
    case Start(p) => p !in n.procs
    case Publish(_) => true
    case Connect(p, _, ws) => p in n.procs && ws !in n.home
    case Disconnect(ws) => ws in n.open && ws in n.home && n.home[ws].process in n.procs
    case Take(p) => p in n.procs && n.procs[p].task.Idle? && n.procs[p].cursor < |n.published|
    case Pick(p, ws) =>
      Busy(n, p) && n.procs[p].task.awaiting.None? && !Disturbed(n, p) && ws in Current(n, p) - n.procs[p].task.visited
    case Sent(p, _) => Busy(n, p) && n.procs[p].task.awaiting.Some? && n.procs[p].task.awaiting.value in n.logs
    case Finish(p) =>
      Busy(n, p) && n.procs[p].task.awaiting.None? && !Disturbed(n, p)
      && n.procs[p].task.todo * Current(n, p) <= n.procs[p].task.visited
    case Abort(p) => Busy(n, p) && n.procs[p].task.awaiting.None? && Disturbed(n, p)
  }

  // The delivery at `p` is over; sockets still in the map that it did not visit miss the message.
  ghost function Done(n: Net, p: Process, conns: Buckets): Net
    requires Busy(n, p)
  {
    var q := n.procs[p];
    n.(procs := n.procs[p := Proc(conns, q.cursor + 1, Idle)],
       missed := n.missed + set ws | ws in Current(n, p) - q.task.visited :: (ws, q.cursor))
  }

  ghost function Next(n: Net, e: Event): Net
    requires Possible(n, e)
  {
    match e
    case Start(p) => n.(procs := n.procs[p := Proc(map[], |n.published|, Idle)])
    case Publish(m) => n.(published := n.published + [m])
    case Connect(p, user, ws) =>
      var q := n.procs[p];
      n.(procs := n.procs[p := q.(conns := Joined(q.conns, user, ws))],
         home := n.home[ws := Home(p, user, q.cursor)], open := n.open + {ws}, logs := n.logs[ws := []])
    case Disconnect(ws) =>
      var p, user := n.home[ws].process, n.home[ws].user;
      var q := n.procs[p];
      var conns := Left(q.conns, user, ws);
      var task := if Busy(n, p) && user == Target(n, p) && user in q.conns && user !in conns
                  then q.task.(attached := false) else q.task;
      n.(procs := n.procs[p := q.(conns := conns, task := task)], open := n.open - {ws})
    case Take(p) =>
      var q := n.procs[p];
      if Current(n, p) == {} then
        n.(procs := n.procs[p := q.(cursor := q.cursor + 1)])
      else
        n.(procs := n.procs[p := q.(task := Sending(Current(n, p), true, {}, {}, None))])
    case Pick(p, ws) =>
      var t := n.procs[p].task;
      n.(procs := n.procs[p := n.procs[p].(task := t.(visited := t.visited + {ws}, awaiting := Some(ws)))])
    case Sent(p, ok) =>
      var t := n.procs[p].task;
      var ws, k := t.awaiting.value, n.procs[p].cursor;
      if ok then
        n.(procs := n.procs[p := n.procs[p].(task := t.(awaiting := None))], logs := n.logs[ws := n.logs[ws] + [k]])
      else
        n.(procs := n.procs[p := n.procs[p].(task := t.(awaiting := None, dead := t.dead + {ws}))],
           missed := n.missed + {(ws, k)})
    case Finish(p) => Done(n, p, Bury(n.procs[p].conns, Target(n, p), n.procs[p].task.dead))
    case Abort(p) => Done(n, p, n.procs[p].conns)
  }

  ghost predicate CanRun(n: Net, es: seq<Event>)
    decreases |es|
  {
    es == [] || (Possible(n, es[0]) && CanRun(Next(n, es[0]), es[1..]))
  }

  ghost function Run(n: Net, es: seq<Event>): Net
    requires CanRun(n, es)
    decreases |es|
  {
    if es == [] then n else Run(Next(n, es[0]), es[1..])
  }

  const SILENCE := Net([], map[], map[], {}, map[], {})

  // ----- What every step keeps -----

  predicate Increasing(s: seq<nat>) {
    forall i, j :: 0 <= i < j < |s| ==> s[i] < s[j]
  }

  // Sends to `ws` that the delivery under way at its process has completed.
  ghost predicate SentNow(q: Proc, ws: Socket) {
    q.task.Sending? && ws in q.task.visited && q.task.awaiting != Some(ws)
  }

  /** A socket received messages of its own user only, in channel order, and none twice. */
  ghost predicate LogInv(n: Net, ws: Socket) {
    ws in n.home ==>
      var h := n.home[ws];
      && h.process in n.procs && ws in n.logs
      && h.joined <= n.procs[h.process].cursor
      && Increasing(n.logs[ws])
      && forall k :: k in n.logs[ws] ==>
           h.joined <= k < |n.published| && n.published[k].user == h.user
           && (k < n.procs[h.process].cursor || (k == n.procs[h.process].cursor && SentNow(n.procs[h.process], ws)))
  }

  /** A socket in the map received every message it did not miss. */
  ghost predicate CompleteInv(n: Net, ws: Socket) {
    ws in n.home && n.home[ws].process in n.procs && ws in n.logs
    && ws in Bucket(n.procs[n.home[ws].process].conns, n.home[ws].user) ==>
      var h, q := n.home[ws], n.procs[n.home[ws].process];
      && (forall k {:trigger n.published[k]} :: h.joined <= k < q.cursor && k < |n.published| && n.published[k].user == h.user ==>
            k in n.logs[ws] || (ws, k) in n.missed)
      && (SentNow(q, ws) ==> q.cursor in n.logs[ws] || (ws, q.cursor) in n.missed)
  }

  // `ws` was opened at `p` for `user`.
  predicate HomeIs(n: Net, ws: Socket, p: Process, user: User) {
    ws in n.home && n.home[ws].process == p && n.home[ws].user == user
  }

  /** The map holds open sockets only, each under its own user. */
  ghost predicate MembersInv(n: Net, p: Process) {
    p in n.procs ==>
      forall u, ws :: u in n.procs[p].conns && ws in n.procs[p].conns[u] ==> ws in n.open && HomeIs(n, ws, p, u)
  }

  /** A user is a key of the map only while some route of theirs is open. */
  ghost predicate KeyInv(n: Net, p: Process, u: User) {
    p in n.procs && u in n.procs[p].conns ==> exists ws :: ws in n.open && HomeIs(n, ws, p, u)
  }

  ghost predicate TaskInv(n: Net, p: Process) {
    p in n.procs ==>
      var q := n.procs[p];
      && q.cursor <= |n.published|
      && (q.task.Sending? ==>
            q.cursor < |n.published|
            && (q.task.awaiting.Some? ==> q.task.awaiting.value in q.task.visited)
            && forall ws :: ws in q.task.visited ==> HomeIs(n, ws, p, Target(n, p)))
  }

  ghost predicate NetInv(n: Net) {
    && (forall p :: MembersInv(n, p))
    && (forall p, u :: KeyInv(n, p, u))
    && (forall p :: TaskInv(n, p))
    && (forall ws :: LogInv(n, ws))
    && (forall ws :: CompleteInv(n, ws))
    && (forall ws :: ws in n.open ==> ws in n.home)
  }

  lemma StepKeepsMembersInv(n: Net, e: Event, p: Process)
    requires NetInv(n) && Possible(n, e)
    ensures MembersInv(Next(n, e), p)
  {
    var n' := Next(n, e);
    assert MembersInv(n, p);
    forall u, ws | p in n'.procs && u in n'.procs[p].conns && ws in n'.procs[p].conns[u]
      ensures ws in n'.open && HomeIs(n', ws, p, u)
    {
      if !(e.Connect? && ws == e.ws) {
        assert u in n.procs[p].conns && ws in n.procs[p].conns[u];
        assert ws in n.open && HomeIs(n, ws, p, u);
      }
    }
  }

  lemma StepKeepsKeyInv(n: Net, e: Event, p: Process, u: User)
    requires NetInv(n) && Possible(n, e)
    ensures KeyInv(Next(n, e), p, u)
  {
    var n' := Next(n, e);
    assert KeyInv(n, p, u) && MembersInv(n, p);
    if p in n.procs && u in n'.procs[p].conns {
      if e.Connect? && p == e.p && u == e.user {
        assert e.ws in n'.open && HomeIs(n', e.ws, p, u);
      } else {
        var ws :| ws in n.open && HomeIs(n, ws, p, u);
        if e.Disconnect? && ws == e.ws {
          var other :| other in n'.procs[p].conns[u];
          assert other in n'.open && HomeIs(n', other, p, u);
        } else {
          assert ws in n'.open && HomeIs(n', ws, p, u);
        }
      }
    }
  }

  lemma StepKeepsTaskInv(n: Net, e: Event, p: Process)
    requires NetInv(n) && Possible(n, e)
    ensures TaskInv(Next(n, e), p)
  {
    var n' := Next(n, e);
    assert TaskInv(n, p) && MembersInv(n, p);
    if p in n.procs && n'.procs[p].task.Sending? {
      assert e.Take? || n.procs[p].task.Sending?;
      forall ws | ws in n'.procs[p].task.visited ensures HomeIs(n', ws, p, Target(n', p)) {
        assert ws in n.procs[p].task.visited || ws in n.procs[p].conns[Target(n, p)];
        assert HomeIs(n, ws, p, Target(n, p));
      }
    }
  }

  lemma SentKeepsLogInv(n: Net, p: Process, ok: bool, ws: Socket)
    requires NetInv(n) && Possible(n, Sent(p, ok))
    ensures LogInv(Next(n, Sent(p, ok)), ws)
  {
    assert LogInv(n, ws) && TaskInv(n, p);
    if ok && ws == n.procs[p].task.awaiting.value {
      assert forall i :: 0 <= i < |n.logs[ws]| ==> n.logs[ws][i] in n.logs[ws];
    }
  }

  lemma StepKeepsLogInv(n: Net, e: Event, ws: Socket)
    requires NetInv(n) && Possible(n, e)
    ensures LogInv(Next(n, e), ws)
  {
    assert LogInv(n, ws);
    if ws in n.home {
      assert TaskInv(n, n.home[ws].process);
    }
    match e
    case Sent(p, ok) => SentKeepsLogInv(n, p, ok, ws);
    case _ =>
  }

  lemma SentKeepsCompleteInv(n: Net, p: Process, ok: bool, ws: Socket)
    requires NetInv(n) && Possible(n, Sent(p, ok))
    ensures CompleteInv(Next(n, Sent(p, ok)), ws)
  {
    assert CompleteInv(n, ws) && TaskInv(n, p);
    if ok {
      var k := n.procs[p].cursor;
      var to := n.procs[p].task.awaiting.value;
      assert Next(n, Sent(p, ok)).logs[to][|n.logs[to]|] == k;
    }
  }

  lemma ConnectKeepsCompleteInv(n: Net, p: Process, user: User, joining: Socket, ws: Socket)
    requires NetInv(n) && Possible(n, Connect(p, user, joining))
    ensures CompleteInv(Next(n, Connect(p, user, joining)), ws)
  {
    assert CompleteInv(n, ws) && TaskInv(n, p);
  }

  lemma DoneKeepsCompleteInv(n: Net, e: Event, ws: Socket)
    requires NetInv(n) && Possible(n, e) && (e.Finish? || e.Abort?)
    ensures CompleteInv(Next(n, e), ws)
  {
    assert CompleteInv(n, ws) && LogInv(n, ws) && TaskInv(n, e.p);
    assert MembersInv(n, e.p);
  }

  lemma DisconnectKeepsCompleteInv(n: Net, gone: Socket, ws: Socket)
    requires NetInv(n) && Possible(n, Disconnect(gone))
    ensures CompleteInv(Next(n, Disconnect(gone)), ws)
  {
    assert CompleteInv(n, ws);
  }

  lemma StepKeepsCompleteInv(n: Net, e: Event, ws: Socket)
    requires NetInv(n) && Possible(n, e)
    ensures CompleteInv(Next(n, e), ws)
  {
    match e
    case Connect(p, user, joining) => ConnectKeepsCompleteInv(n, p, user, joining, ws);
    case Disconnect(gone) => DisconnectKeepsCompleteInv(n, gone, ws);
    case Sent(p, ok) => SentKeepsCompleteInv(n, p, ok, ws);
    case Finish(_) => DoneKeepsCompleteInv(n, e, ws);
    case Abort(_) => DoneKeepsCompleteInv(n, e, ws);
    case _ =>
      assert CompleteInv(n, ws) && LogInv(n, ws);
      if ws in n.home {
        assert TaskInv(n, n.home[ws].process) && MembersInv(n, n.home[ws].process);
      }
  }

  lemma StepKeepsInv(n: Net, e: Event)
    requires NetInv(n) && Possible(n, e)
    ensures NetInv(Next(n, e))
  {
    var n' := Next(n, e);
    forall p, u ensures KeyInv(n', p, u) {
      StepKeepsKeyInv(n, e, p, u);
    }
    forall p ensures MembersInv(n', p) && TaskInv(n', p) {
      StepKeepsMembersInv(n, e, p);
      StepKeepsTaskInv(n, e, p);
    }
    forall ws ensures LogInv(n', ws) && CompleteInv(n', ws) {
      StepKeepsLogInv(n, e, ws);
      StepKeepsCompleteInv(n, e, ws);
    }
  }

  lemma {:induction false} RunKeepsInv(n: Net, es: seq<Event>)
    requires NetInv(n) && CanRun(n, es)
    ensures NetInv(Run(n, es))
    decreases |es|
  {
    if es != [] {
      StepKeepsInv(n, es[0]);
      RunKeepsInv(Next(n, es[0]), es[1..]);
    }
  }

  // ----- The guarantees -----

  /**
   In every run, whatever interrupts deliveries, what a socket received is a duplicate-free
   subsequence of the channel holding only messages to its own user, published after it was opened.
   */
  lemma ReceivesOwnMessagesInOrder(es: seq<Event>, ws: Socket)
    requires CanRun(SILENCE, es) && ws in Run(SILENCE, es).home
    ensures var n := Run(SILENCE, es);
      && ws in n.logs && Increasing(n.logs[ws])
      && forall k :: k in n.logs[ws] ==>
           n.home[ws].joined <= k < |n.published| && n.published[k].user == n.home[ws].user
  {
    RunKeepsInv(SILENCE, es);
    assert LogInv(Run(SILENCE, es), ws);
  }

  /** In every run, once every route has run its disconnect no process holds any bucket, empty or not. */
  lemma NothingLeaks(es: seq<Event>, p: Process)
    requires CanRun(SILENCE, es) && Run(SILENCE, es).open == {} && p in Run(SILENCE, es).procs
    ensures Run(SILENCE, es).procs[p].conns == map[]
  {
    RunKeepsInv(SILENCE, es);
    var n := Run(SILENCE, es);
    forall u ensures u !in n.procs[p].conns {
      assert KeyInv(n, p, u);
    }
  }

  // The places of the messages to `user` in the channel from `lo` up to `hi`.
  function Addressed(published: seq<Message>, user: User, lo: nat, hi: nat): (s: seq<nat>)
    requires hi <= |published|
    ensures Increasing(s)
    ensures forall k :: k in s <==> lo <= k < hi && published[k].user == user
  {
    if hi <= lo then []
    else
      var before := Addressed(published, user, lo, hi - 1);
      assert forall i :: 0 <= i < |before| ==> before[i] in before;
      if published[hi - 1].user == user then before + [hi - 1] else before
  }

  lemma LastIsLargest(s: seq<nat>)
    requires s != [] && Increasing(s)
    ensures var rest, last := s[..|s| - 1], s[|s| - 1];
      s == rest + [last] && Increasing(rest) && last in s && forall k :: k in rest <==> k in s && k < last
  {
    var rest, last := s[..|s| - 1], s[|s| - 1];
    forall k ensures k in rest <==> k in s && k < last {
      if k in s && k < last {
        var i :| 0 <= i < |s| && s[i] == k;
        assert rest[i] == k;
      }
    }
  }

  lemma {:induction false} IncreasingIsDetermined(s: seq<nat>, t: seq<nat>)
    requires Increasing(s) && Increasing(t)
    requires forall k :: k in s <==> k in t
    ensures s == t
    decreases |s|
  {
    assert s != [] ==> s[0] in s;
    assert t != [] ==> t[0] in t;
    if s != [] && t != [] {
      LastIsLargest(s);
      LastIsLargest(t);
      var s', t' := s[..|s| - 1], t[..|t| - 1];
      IncreasingIsDetermined(s', t');
    }
  }

  /**
   No connect or disconnect of its own user falls into a delivery to that user at the process of `ws`, and
   sends to `ws` never raise.
   */
  ghost predicate Calm(n: Net, e: Event, ws: Socket)
    requires Possible(n, e)
  {
    match e
    case Connect(p, user, joining) =>
      (joining == ws || HomeIs(n, ws, p, user)) && Busy(n, p) ==> user != Target(n, p)
    case Disconnect(gone) =>
      var p, user := n.home[gone].process, n.home[gone].user;
      gone != ws && HomeIs(n, ws, p, user) && Busy(n, p) ==> user != Target(n, p)
    case Sent(p, ok) => n.procs[p].task.awaiting == Some(ws) ==> ok
    case _ => true
  }

  ghost predicate CalmRun(n: Net, es: seq<Event>, ws: Socket)
    decreases |es|
  {
    es == [] || (Possible(n, es[0]) && Calm(n, es[0], ws) && CalmRun(Next(n, es[0]), es[1..], ws))
  }

  // A delivery under way to the user of `ws` finds the map as it was, and has not taken `ws` for dead.
  ghost predicate Undisturbed(n: Net, p: Process, ws: Socket) {
    Busy(n, p) && HomeIs(n, ws, p, Target(n, p)) ==>
      n.procs[p].task.attached && n.procs[p].task.todo == Current(n, p) && ws !in n.procs[p].task.dead
  }

  ghost predicate HealthyInv(n: Net, ws: Socket) {
    && (ws in n.open || ws !in n.home ==> forall k: nat :: (ws, k) !in n.missed)
    && (ws in n.open ==>
          && ws in n.home && n.home[ws].process in n.procs
          && ws in Bucket(n.procs[n.home[ws].process].conns, n.home[ws].user)
          && Undisturbed(n, n.home[ws].process, ws))
  }

  lemma CalmStepMissesNothing(n: Net, e: Event, ws: Socket, k: nat)
    requires NetInv(n) && HealthyInv(n, ws) && Possible(n, e) && Calm(n, e, ws)
    requires ws in Next(n, e).open || ws !in Next(n, e).home
    ensures (ws, k) !in Next(n, e).missed
  {
    assert (ws, k) !in n.missed;
    if e.Sent? || e.Finish? || e.Abort? {
      assert MembersInv(n, e.p) && TaskInv(n, e.p);
    }
  }

  lemma CalmStepIsUndisturbed(n: Net, e: Event, ws: Socket)
    requires NetInv(n) && HealthyInv(n, ws) && Possible(n, e) && Calm(n, e, ws)
    requires ws in Next(n, e).open && ws in n.open
    ensures Undisturbed(Next(n, e), n.home[ws].process, ws)
  {
    var p := n.home[ws].process;
    assert TaskInv(n, p);
    assert Busy(Next(n, e), p) && !e.Take? ==> Busy(n, p);
  }

  lemma CalmStepKeepsHealthy(n: Net, e: Event, ws: Socket)
    requires NetInv(n) && HealthyInv(n, ws) && Possible(n, e) && Calm(n, e, ws)
    ensures HealthyInv(Next(n, e), ws)
  {
    var n' := Next(n, e);
    if ws in n'.open || ws !in n'.home {
      forall k: nat ensures (ws, k) !in n'.missed {
        CalmStepMissesNothing(n, e, ws, k);
      }
    }
    if ws in n'.open && ws in n.open {
      CalmStepIsUndisturbed(n, e, ws);
    } else if ws in n'.open {
      assert TaskInv(n, n'.home[ws].process);
    }
  }

  lemma {:induction false} CalmRunKeepsHealthy(n: Net, es: seq<Event>, ws: Socket)
    requires NetInv(n) && HealthyInv(n, ws) && CanRun(n, es) && CalmRun(n, es, ws)
    ensures HealthyInv(Run(n, es), ws)
    decreases |es|
  {
    if es != [] {
      StepKeepsInv(n, es[0]);
      CalmStepKeepsHealthy(n, es[0], ws);
      CalmRunKeepsHealthy(Next(n, es[0]), es[1..], ws);
    }
  }

  /**
   When nothing interrupts the deliveries to its user at its process, a healthy socket still open has received
   exactly the messages to its user that its process took off the channel since it was opened, each once and
   in order.
   */
  lemma HealthySocketReceivesEverything(es: seq<Event>, ws: Socket)
    requires CanRun(SILENCE, es) && CalmRun(SILENCE, es, ws) && ws in Run(SILENCE, es).open
    ensures var n := Run(SILENCE, es);
      && ws in n.home && n.home[ws].process in n.procs && ws in n.logs
      && var q := n.procs[n.home[ws].process];
      && q.cursor <= |n.published|
      && (q.task.Idle? ==> n.logs[ws] == Addressed(n.published, n.home[ws].user, n.home[ws].joined, q.cursor))
  {
    RunKeepsInv(SILENCE, es);
    CalmRunKeepsHealthy(SILENCE, es, ws);
    var n := Run(SILENCE, es);
    assert LogInv(n, ws) && CompleteInv(n, ws) && TaskInv(n, n.home[ws].process);
    var q := n.procs[n.home[ws].process];
    if q.task.Idle? {
      IncreasingIsDetermined(n.logs[ws], Addressed(n.published, n.home[ws].user, n.home[ws].joined, q.cursor));
    }
  }
  // ----- Broken sockets -----

  ghost predicate InMap(n: Net, p: Process, ws: Socket) {
    p in n.procs && exists u :: u in n.procs[p].conns && ws in n.procs[p].conns[u]
  }

  // The delivery under way at `p` found `ws` broken.
  ghost predicate FoundBroken(n: Net, p: Process, ws: Socket) {
    Busy(n, p) && ws in n.procs[p].task.dead && ws in n.procs[p].task.visited
  }

  // `ws` was opened at `p`, and no delivery there can find it.
  ghost predicate Dropped(n: Net, p: Process, ws: Socket) {
    && ws in n.home && n.home[ws].process == p && ws in n.logs && p in n.procs
    && !InMap(n, p, ws) && (n.procs[p].task.Sending? ==> ws !in n.procs[p].task.visited)
  }

  predicate EndsDelivery(e: Event, p: Process) {
    e == Finish(p) || e == Abort(p)
  }

  lemma {:induction false} StaysFoundBroken(n: Net, es: seq<Event>, p: Process, ws: Socket)
    requires NetInv(n) && CanRun(n, es) && FoundBroken(n, p, ws) && forall e :: e in es ==> !EndsDelivery(e, p)
    ensures NetInv(Run(n, es)) && FoundBroken(Run(n, es), p, ws)
    decreases |es|
  {
    if es != [] {
      assert es[0] in es;
      StepKeepsInv(n, es[0]);
      StaysFoundBroken(Next(n, es[0]), es[1..], p, ws);
    }
  }

  lemma StepKeepsDropped(n: Net, e: Event, p: Process, ws: Socket)
    requires NetInv(n) && Possible(n, e) && Dropped(n, p, ws)
    ensures Dropped(Next(n, e), p, ws) && Next(n, e).logs[ws] == n.logs[ws]
  {
    if e.Sent? {
      assert TaskInv(n, e.p);
    }
    var n' := Next(n, e);
    forall u | u in n'.procs[p].conns ensures ws !in n'.procs[p].conns[u] {
      assert u in n.procs[p].conns ==> ws !in n.procs[p].conns[u];
    }
  }

  lemma {:induction false} StaysDropped(n: Net, es: seq<Event>, p: Process, ws: Socket)
    requires NetInv(n) && CanRun(n, es) && Dropped(n, p, ws)
    ensures Dropped(Run(n, es), p, ws) && Run(n, es).logs[ws] == n.logs[ws]
    decreases |es|
  {
    if es != [] {
      StepKeepsInv(n, es[0]);
      StepKeepsDropped(n, es[0], p, ws);
      StaysDropped(Next(n, es[0]), es[1..], p, ws);
    }
  }

  lemma FinishDrops(n: Net, p: Process, ws: Socket)
    requires NetInv(n) && Possible(n, Finish(p)) && FoundBroken(n, p, ws)
    ensures Dropped(Next(n, Finish(p)), p, ws)
  {
    assert TaskInv(n, p) && MembersInv(n, p) && LogInv(n, ws);
    var n' := Next(n, Finish(p));
    forall u | u in n'.procs[p].conns ensures ws !in n'.procs[p].conns[u] {
      assert u in n.procs[p].conns && HomeIs(n, ws, p, Target(n, p));
    }
  }

  /**
   A socket whose send raised is out of the map once that delivery is finished, and is sent nothing more in
   the rest of the run.
   */
  lemma BrokenIsDropped(n: Net, p: Process, ws: Socket, es: seq<Event>, later: seq<Event>)
    requires NetInv(n) && Possible(n, Sent(p, false)) && n.procs[p].task.awaiting == Some(ws)
    requires CanRun(Next(n, Sent(p, false)), es) && forall e :: e in es ==> !EndsDelivery(e, p)
    requires Possible(Run(Next(n, Sent(p, false)), es), Finish(p))
    requires CanRun(Next(Run(Next(n, Sent(p, false)), es), Finish(p)), later)
    ensures var after := Next(Run(Next(n, Sent(p, false)), es), Finish(p));
      var end := Run(after, later);
      && !InMap(after, p, ws) && !InMap(end, p, ws)
      && ws in after.logs && ws in end.logs && end.logs[ws] == after.logs[ws]
  {
    assert TaskInv(n, p);
    StepKeepsInv(n, Sent(p, false));
    StaysFoundBroken(Next(n, Sent(p, false)), es, p, ws);
    var before := Run(Next(n, Sent(p, false)), es);
    StepKeepsInv(before, Finish(p));
    FinishDrops(before, p, ws);
    StaysDropped(Next(before, Finish(p)), later, p, ws);
  }

  /**
   The end of a delivery takes the sockets it found broken out of the map, and only those, if it finishes; a delivery
   that is interrupted leaves them all there.
   */
  lemma BrokenIsDroppedIff(n: Net, e: Event, p: Process, ws: Socket)
    requires NetInv(n) && Possible(n, e) && EndsDelivery(e, p) && InMap(n, p, ws)
    ensures !InMap(Next(n, e), p, ws)
       <==> e.Finish? && HomeIs(n, ws, p, Target(n, p)) && ws in n.procs[p].task.dead
  {
    assert MembersInv(n, p);
    var u :| u in n.procs[p].conns && ws in n.procs[p].conns[u];
    assert HomeIs(n, ws, p, u);
    var n' := Next(n, e);
    assert u in n'.procs[p].conns;
    if u != Target(n, p) || ws !in n.procs[p].task.dead || e.Abort? {
      assert ws in n'.procs[p].conns[u];
    }
  }
  // ----- Progress -----

  // What is published in a run, in order.
  function Messages(es: seq<Event>): seq<Message> {
    if es == [] then [] else (if es[0].Publish? then [es[0].m] else []) + Messages(es[1..])
  }

  /** The channel holds what was published, in order, and loses nothing. */
  lemma {:induction false} ChannelHoldsEverything(n: Net, es: seq<Event>)
    requires CanRun(n, es)
    ensures Run(n, es).published == n.published + Messages(es)
    decreases |es|
  {
    if es != [] {
      ChannelHoldsEverything(Next(n, es[0]), es[1..]);
    }
  }

  // Between messages, the next one there is still to come.
  ghost predicate HasNext(n: Net, p: Process) {
    p in n.procs && n.procs[p].cursor < |n.published|
  }

  // Process `p` is done with one message more than in `n`.
  ghost predicate DoneWithOne(n: Net, n': Net, p: Process)
    requires p in n.procs
  {
    p in n'.procs && n'.procs[p].task.Idle? && n'.procs[p].cursor == n.procs[p].cursor + 1
  }

  lemma OneEvent(n: Net, e: Event)
    requires Possible(n, e)
    ensures CanRun(n, [e]) && Run(n, [e]) == Next(n, e)
  {
    assert [e][1..] == [];
  }

  lemma EventThen(n: Net, e: Event, es: seq<Event>)
    requires Possible(n, e) && CanRun(Next(n, e), es)
    ensures CanRun(n, [e] + es) && Run(n, [e] + es) == Run(Next(n, e), es)
  {
    assert ([e] + es)[1..] == es;
  }

  // How much of the delivery at `p` is still to do.
  ghost function ToDo(n: Net, p: Process): nat
    requires Busy(n, p)
  {
    2 * |Current(n, p) - n.procs[p].task.visited| + if n.procs[p].task.awaiting.Some? then 1 else 0
  }

  lemma PickIsProgress(n: Net, p: Process, ws: Socket)
    requires Possible(n, Pick(p, ws))
    ensures Busy(Next(n, Pick(p, ws)), p) && ToDo(Next(n, Pick(p, ws)), p) < ToDo(n, p)
  {
    var left := Current(n, p) - n.procs[p].task.visited;
    var left' := Current(n, p) - (n.procs[p].task.visited + {ws});
    assert left' < left;
    Smaller(left', left);
  }

  /** A send that returns or raises is over, and the delivery goes on. */
  lemma SentIsProgress(n: Net, p: Process, ok: bool)
    requires NetInv(n) && Busy(n, p) && n.procs[p].task.awaiting.Some?
    ensures Possible(n, Sent(p, ok))
    ensures var n' := Next(n, Sent(p, ok));
      && Busy(n', p) && n'.procs[p].cursor == n.procs[p].cursor
      && n'.procs[p].task.awaiting.None? && ToDo(n', p) < ToDo(n, p)
  {
    assert TaskInv(n, p) && LogInv(n, n.procs[p].task.awaiting.value);
  }

  lemma DeliveryEnds(n: Net, p: Process) returns (e: Event)
    requires NetInv(n) && Busy(n, p) && n.procs[p].task.awaiting.None?
    requires Disturbed(n, p) || Current(n, p) <= n.procs[p].task.visited
    ensures EndsDelivery(e, p) && Possible(n, e) && DoneWithOne(n, Next(n, e), p)
  {
    e := if Disturbed(n, p) then Abort(p) else Finish(p);
  }

  lemma OwnStep(n: Net, p: Process, works: Socket -> bool) returns (e: Event)
    requires NetInv(n) && Busy(n, p)
    ensures Possible(n, e) && AsSocketsWork(n, e, p, works)
    ensures if EndsDelivery(e, p) then DoneWithOne(n, Next(n, e), p)
            else Busy(Next(n, e), p) && Next(n, e).procs[p].cursor == n.procs[p].cursor && ToDo(Next(n, e), p) < ToDo(n, p)
  {
    var t := n.procs[p].task;
    if t.awaiting.Some? {
      e := Sent(p, works(t.awaiting.value));
      SentIsProgress(n, p, e.ok);
    } else if ws :| !Disturbed(n, p) && ws in Current(n, p) - t.visited {
      e := Pick(p, ws);
      PickIsProgress(n, p, ws);
    } else {
      assert forall ws :: ws in Current(n, p) ==> Disturbed(n, p) || ws in t.visited || ws in Current(n, p) - t.visited;
      e := DeliveryEnds(n, p);
      hide Next;
    }
  }

  // A step of `p` itself; a send returns or raises as the socket works or not.
  ghost predicate AsSocketsWork(n: Net, e: Event, p: Process, works: Socket -> bool)
    requires Possible(n, e)
  {
    match e
    case Take(q) => q == p
    case Pick(q, _) => q == p
    case Sent(q, ok) => q == p && ok == works(n.procs[q].task.awaiting.value)
    case Finish(q) => q == p
    case Abort(q) => q == p
    case _ => false
  }

  ghost predicate OwnRun(n: Net, es: seq<Event>, p: Process, works: Socket -> bool)
    decreases |es|
  {
    es == [] || (Possible(n, es[0]) && AsSocketsWork(n, es[0], p, works) && OwnRun(Next(n, es[0]), es[1..], p, works))
  }

  lemma OwnThen(n: Net, e: Event, es: seq<Event>, p: Process, works: Socket -> bool)
    requires Possible(n, e) && AsSocketsWork(n, e, p, works) && OwnRun(Next(n, e), es, p, works)
    ensures OwnRun(n, [e] + es, p, works)
  {
    assert ([e] + es)[1..] == es;
  }

  /**
   No delivery is ever stuck: whatever its state, and whichever sockets work, the process can get done with it by
   steps of its own.
   */
  lemma {:induction false} DeliveryCanEnd(n: Net, p: Process, works: Socket -> bool) returns (es: seq<Event>)
    requires NetInv(n) && Busy(n, p)
    ensures CanRun(n, es) && OwnRun(n, es, p, works) && DoneWithOne(n, Run(n, es), p)
    decreases ToDo(n, p)
  {
    var e := OwnStep(n, p, works);
    hide Next, Possible, NetInv, ToDo, Busy, AsSocketsWork;
    es := [];
    if EndsDelivery(e, p) {
      OneEvent(n, e);
    } else {
      StepKeepsInv(n, e);
      es := DeliveryCanEnd(Next(n, e), p, works);
      EventThen(n, e, es);
    }
    OwnThen(n, e, es, p, works);
    es := [e] + es;
    assert [e] + [] == [e];
  }

  lemma Smaller(a: set<Socket>, b: set<Socket>)
    requires a < b
    ensures |a| < |b|
  {
    var x :| x in b && x !in a;
    assert a <= b - {x};
    SubsetIsNoLarger(a, b - {x});
  }

  lemma {:induction false} SubsetIsNoLarger(a: set<Socket>, b: set<Socket>)
    requires a <= b
    ensures |a| <= |b|
    decreases a
  {
    if x :| x in a {
      SubsetIsNoLarger(a - {x}, b - {x});
    }
  }

  /** The next message in the channel can always be dealt with; a user without sockets is passed over at once. */
  lemma NextMessageCanBeHandled(n: Net, p: Process, works: Socket -> bool) returns (es: seq<Event>)
    requires NetInv(n) && HasNext(n, p)
    ensures CanRun(n, es) && OwnRun(n, es, p, works) && DoneWithOne(n, Run(n, es), p)
    ensures n.procs[p].task.Idle? && Current(n, p) == {} ==> es == [Take(p)]
  {
    if n.procs[p].task.Idle? {
      StepKeepsInv(n, Take(p));
      OneEvent(n, Take(p));
      var more: seq<Event> := [];
      if Current(n, p) != {} {
        more := DeliveryCanEnd(Next(n, Take(p)), p, works);
        EventThen(n, Take(p), more);
      }
      OwnThen(n, Take(p), more, p, works);
      es := [Take(p)] + more;
      assert [Take(p)] + [] == [Take(p)];
    } else {
      es := DeliveryCanEnd(n, p, works);
    }
  }

  // ----- What disturbs a delivery -----

  // A socket leaves, and nothing else is in the bucket that `p` delivers to.
  ghost predicate Empties(n: Net, e: Event, p: Process)
    requires Possible(n, e)
  {
    e.Disconnect? && Busy(n, p) && HomeIs(n, e.ws, p, Target(n, p))
    && Target(n, p) in n.procs[p].conns && n.procs[p].conns[Target(n, p)] <= {e.ws}
  }

  ghost predicate Emptied(n: Net, es: seq<Event>, p: Process)
    requires CanRun(n, es)
    decreases |es|
  {
    es != [] && (Empties(n, es[0], p) || Emptied(Next(n, es[0]), es[1..], p))
  }

  lemma StepRemembers(n: Net, e: Event, p: Process)
    requires NetInv(n) && Possible(n, e) && Busy(n, p) && !EndsDelivery(e, p)
    ensures var n' := Next(n, e);
      && Busy(n', p) && Target(n', p) == Target(n, p) && n'.procs[p].task.todo == n.procs[p].task.todo
      && (n'.procs[p].task.attached <==> n.procs[p].task.attached && !Empties(n, e, p))
  {
    assert TaskInv(n, p) && MembersInv(n, p);
  }

  lemma {:induction false} DeliveryRemembers(n: Net, es: seq<Event>, p: Process)
    requires NetInv(n) && CanRun(n, es) && Busy(n, p) && forall e :: e in es ==> !EndsDelivery(e, p)
    ensures var n' := Run(n, es);
      && Busy(n', p) && Target(n', p) == Target(n, p) && n'.procs[p].task.todo == n.procs[p].task.todo
      && (n'.procs[p].task.attached <==> n.procs[p].task.attached && !Emptied(n, es, p))
    decreases |es|
  {
    if es != [] {
      assert es[0] in es;
      StepRemembers(n, es[0], p);
      StepKeepsInv(n, es[0]);
      hide Next, Possible, NetInv, Empties;
      DeliveryRemembers(Next(n, es[0]), es[1..], p);
    }
  }

  /**
   What interrupts a delivery: the user's bucket has another size than when it began, or was emptied and dropped in
   the meantime.
   */
  lemma DisturbedIff(n: Net, es: seq<Event>, p: Process)
    requires NetInv(n) && Possible(n, Take(p)) && Current(n, p) != {}
    requires CanRun(Next(n, Take(p)), es) && forall e :: e in es ==> !EndsDelivery(e, p)
    ensures var n' := Run(Next(n, Take(p)), es);
      && Busy(n', p)
      && (Disturbed(n', p) <==>
            Emptied(Next(n, Take(p)), es, p) || |Bucket(n'.procs[p].conns, Target(n, p))| != |Current(n, p)|)
  {
    StepKeepsInv(n, Take(p));
    DeliveryRemembers(Next(n, Take(p)), es, p);
  }
}
