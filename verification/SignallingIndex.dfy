/**
 * The signalling server's table of connections and its index of connections by user.
 * Sockets are left out: sending to a client is visiting its connection id. Times are milliseconds.
 */
module SignallingIndex {
  import opened Runs

  const STALE_AFTER: int := 60000

  datatype Client = Client(userId: string, deviceId: string, lastPing: int)

  datatype Tables = Tables(clients: map<string, Client>, userClients: map<string, set<string>>)
  {
    /** The connections the index lists for a user. */
    function Listed(user: string): set<string> {
      if user in userClients then userClients[user] else {}
    }

    /** The index lists exactly each user's connections, and no user without one. */
    ghost predicate Indexed() {
      && (forall user, c :: c in Listed(user) <==> c in clients && clients[c].userId == user)
      && (forall user <- userClients :: userClients[user] != {})
    }
  }

  // ---- What the handlers do ----

  function Joined(t: Tables, c: string, client: Client): Tables {
    Tables(t.clients[c := client], t.userClients[client.userId := t.Listed(client.userId) + {c}])
  }

  function Disconnected(t: Tables, c: string): Tables {
    if c !in t.clients then t
    else
      var user := t.clients[c].userId;
      var rest := t.Listed(user) - {c};
      Tables(t.clients - {c},
             if user !in t.userClients then t.userClients
             else if rest == {} then t.userClients - {user} else t.userClients[user := rest])
  }

  function Ponged(t: Tables, c: string, now: int): Tables {
    if c in t.clients then t.(clients := t.clients[c := t.clients[c].(lastPing := now)]) else t
  }

  /** The connections of a list visited one after the other, and the stale ones disconnected. */
  function Swept(t: Tables, order: seq<string>, now: int): Tables {
    if order == [] then t
    else
      var before := Swept(t, order[..|order| - 1], now);
      var c := order[|order| - 1];
      if Stale(before, c, now) then Disconnected(before, c) else before
  }

  predicate Stale(t: Tables, c: string, now: int) {
    c in t.clients && now - t.clients[c].lastPing > STALE_AFTER
  }

  class Server {
    var clients: map<string, Client>
    var userClients: map<string, set<string>>

    constructor ()
      ensures State() == Tables(map[], map[])
    {
      clients, userClients := map[], map[];
    }

    function State(): Tables reads this { Tables(clients, userClients) }

    /** The tail of handleJoin, after authentication and membership are settled. */
    method Join(c: string, client: Client)
      modifies this
      ensures State() == Joined(old(State()), c, client)
      ensures clients == old(clients)[c := client]
    {
      clients := clients[c := client];
      var user := client.userId;
      if user !in userClients { userClients := userClients[user := {}]; }
      userClients := userClients[user := userClients[user] + {c}];
    }

    method Pong(c: string, now: int)
      modifies this
      ensures State() == Ponged(old(State()), c, now)
      ensures userClients == old(userClients) && clients.Keys == old(clients).Keys
      ensures forall d <- clients ::
        clients[d] == if d == c then old(clients)[d].(lastPing := now) else old(clients)[d]
    {
      if c in clients { clients := clients[c := clients[c].(lastPing := now)]; }
    }

    /** handleDisconnect. */
    method Disconnect(c: string)
      modifies this
      ensures State() == Disconnected(old(State()), c)
      ensures clients == old(clients) - {c}
    {
      if c !in clients { return; }
      var user := clients[c].userId;
      clients := clients - {c};
      if user in userClients {
        userClients := userClients[user := userClients[user] - {c}];
        if userClients[user] == {} { userClients := userClients - {user}; }
      }
    }

    /** cleanupStaleClients: connections are visited in some order and the stale ones disconnected. */
    method Cleanup(now: int) returns (ghost order: seq<string>)
      modifies this
      ensures old(State()).Indexed() ==> State().Indexed()
      ensures clients == map c | c in old(clients) && now - old(clients)[c].lastPing <= 60000 :: old(clients)[c]
      ensures (forall c :: c in order <==> c in old(clients)) && State() == Swept(old(State()), order, now)
    {
      ghost var before := State();
      var todo := clients.Keys;
      order := [];
      while todo != {}
        invariant todo <= before.clients.Keys
        invariant clients == map c | c in before.clients && (c in todo || !Stale(before, c, now)) :: before.clients[c]
        invariant before.Indexed() ==> State().Indexed()
        invariant (forall c :: c in order <==> c in before.clients.Keys - todo) && State() == Swept(before, order, now)
      {
        var c :| c in todo;
        todo := todo - {c};
        assert order == (order + [c])[..|order|];
        order := order + [c];
        if now - clients[c].lastPing > STALE_AFTER {
          ghost var was := State();
          if before.Indexed() { DisconnectIndexed(was, c); }
          Disconnect(c);
        }
      }
    }

    /** broadcastToUser: the connections sent to, in the order of the set's iteration. */
    method Broadcast(user: string) returns (visited: seq<string>)
      ensures forall i, j :: 0 <= i < j < |visited| ==> visited[i] != visited[j]
      ensures forall c :: c in visited <==> c in State().Listed(user) && c in clients
      ensures State().Indexed() ==> forall c :: c in visited <==> c in clients && clients[c].userId == user
    {
      visited := [];
      if user !in userClients { return; }
      var todo := userClients[user];
      while todo != {}
        invariant todo <= userClients[user]
        invariant forall c :: c in visited <==> c in userClients[user] - todo && c in clients
        invariant forall i, j :: 0 <= i < j < |visited| ==> visited[i] != visited[j]
      {
        var c :| c in todo;
        todo := todo - {c};
        if c in clients { visited := visited + [c]; }
      }
    }
  }

  // ---- What keeps the index right ----

  /** A join keeps the index right precisely when the connection is new or stays with its user. */
  lemma JoinIndexedIff(t: Tables, c: string, client: Client)
    requires t.Indexed()
    ensures Joined(t, c, client).Indexed() <==> c !in t.clients || t.clients[c].userId == client.userId
  {
    var t' := Joined(t, c, client);
    if c in t.clients && t.clients[c].userId != client.userId {
      var was := t.clients[c].userId;
      assert c in t.Listed(was);
      assert c in t'.Listed(was) && t'.clients[c].userId != was;
    } else {
      forall user, d ensures d in t'.Listed(user) <==> d in t'.clients && t'.clients[d].userId == user {
        assert d in t.Listed(user) <==> d in t.clients && t.clients[d].userId == user;
      }
    }
  }

  lemma DisconnectIndexed(t: Tables, c: string)
    requires t.Indexed()
    ensures Disconnected(t, c).Indexed()
  {
    var t' := Disconnected(t, c);
    if c in t.clients {
      assert c in t.Listed(t.clients[c].userId);
      forall user, d ensures d in t'.Listed(user) <==> d in t'.clients && t'.clients[d].userId == user {
        assert d in t.Listed(user) <==> d in t.clients && t.clients[d].userId == user;
      }
    }
  }

  lemma PongIndexed(t: Tables, c: string, now: int)
    requires t.Indexed()
    ensures Ponged(t, c, now).Indexed()
  {
    var t' := Ponged(t, c, now);
    forall user, d ensures d in t'.Listed(user) <==> d in t'.clients && t'.clients[d].userId == user {
      assert d in t.Listed(user) <==> d in t.clients && t.clients[d].userId == user;
    }
  }

  /** Joining again as someone else leaves the connection listed for both users, even after it is gone. */
  lemma RejoinAsAnotherUser(device: string)
    ensures var t := Joined(Joined(Tables(map[], map[]), "c", Client("u", device, 0)), "c", Client("v", device, 0));
      && !t.Indexed() && "c" in t.Listed("u") && "c" in t.Listed("v")
      && Disconnected(t, "c").clients == map[] && "c" in Disconnected(t, "c").Listed("u")
  {
    assert "u" != "v" by { assert "u"[0] != "v"[0]; }
    var t1 := Joined(Tables(map[], map[]), "c", Client("u", device, 0));
    var t := Joined(t1, "c", Client("v", device, 0));
    assert t1.Listed("u") == {"c"} && t.Listed("u") == {"c"};
    assert t.clients["c"].userId == "v" && "c" in t.Listed("v");
  }

  // ---- Over whole runs ----

  datatype Step =
    | Join(c: string, client: Client)
    | Leave(c: string)
    | Pong(c: string, now: int)
    | Cleanup(order: seq<string>, now: int)

  /** The tables, the user each connection has ever joined as, and when each was last heard. */
  datatype World = World(tables: Tables, joinedAs: map<string, string>, heard: map<string, int>)

  predicate Enabled(w: World, step: Step) {
    step.Join? && step.c in w.joinedAs ==> w.joinedAs[step.c] == step.client.userId
  }

  function Next(w: World, step: Step): World {
    match step
    case Join(c, client) =>
      World(Joined(w.tables, c, client), w.joinedAs[c := client.userId], w.heard[c := client.lastPing])
    case Leave(c) => w.(tables := Disconnected(w.tables, c))
    case Pong(c, now) => w.(tables := Ponged(w.tables, c, now), heard := w.heard[c := now])
    case Cleanup(order, now) => w.(tables := Swept(w.tables, order, now))
  }

  const SIGNALLING: Machine<World, Step> := Machine((w, step) => Enabled(w, step), (w, step) => Next(w, step))

  const EMPTY := World(Tables(map[], map[]), map[], map[])

  ghost predicate Sound(w: World) {
    && w.tables.Indexed()
    && (forall c <- w.tables.clients :: c in w.joinedAs && w.joinedAs[c] == w.tables.clients[c].userId)
    && (forall c <- w.tables.clients :: c in w.heard && w.heard[c] == w.tables.clients[c].lastPing)
  }

  /** A sweep keeps the index right and takes away the stale ones among those it visits. */
  lemma {:induction false} SweptIs(t: Tables, order: seq<string>, now: int)
    ensures Swept(t, order, now).clients == map c | c in t.clients && !(c in order && Stale(t, c, now)) :: t.clients[c]
    ensures t.Indexed() ==> Swept(t, order, now).Indexed()
  {
    hide Tables.Indexed;
    if order != [] {
      var front, last := order[..|order| - 1], order[|order| - 1];
      SweptIs(t, front, now);
      assert order == front + [last];
      assert forall c :: c in order <==> c in front || c == last;
      if t.Indexed() { DisconnectIndexed(Swept(t, front, now), last); }
    }
  }

  lemma StepSound(w: World, step: Step)
    requires Sound(w) && Enabled(w, step)
    ensures Sound(Next(w, step))
  {
    hide Tables.Indexed;
    match step
    case Join(c, client) => JoinIndexedIff(w.tables, c, client);
    case Leave(c) => DisconnectIndexed(w.tables, c);
    case Pong(c, now) => PongIndexed(w.tables, c, now);
    case Cleanup(order, now) => SweptIs(w.tables, order, now);
  }

  lemma RunSound(steps: seq<Step>, w: World)
    requires Run(SIGNALLING, EMPTY, steps, w)
    ensures Sound(w)
  {
    hide Sound;
    var inv := (v: World) => Sound(v);
    forall v, step | inv(v) && SIGNALLING.enabled(v, step) ensures inv(SIGNALLING.next(v, step)) {
      StepSound(v, step);
    }
    assert Sound(EMPTY) by { EmptySound(); }
    RunKeeps(SIGNALLING, inv, EMPTY, steps, w);
  }

  /** While no connection changes its user, the index is right after every step. */
  lemma IndexIsRight(steps: seq<Step>, w: World)
    requires Run(SIGNALLING, EMPTY, steps, w)
    ensures w.tables.Indexed()
  {
    hide Sound;
    RunSound(steps, w);
    SoundIsIndexed(w);
  }

  /** A cleanup keeps a connection exactly if it joined or ponged within the last 60 seconds, in whatever order it
      visits them; and it then leaves the index right. */
  lemma CleanupKeepsIff(steps: seq<Step>, w: World, order: seq<string>, now: int, c: string)
    requires Run(SIGNALLING, EMPTY, steps, w) && c in w.tables.clients && forall d <- w.tables.clients :: d in order
    ensures var w' := Next(w, Cleanup(order, now));
      && c in w.heard && (c in w'.tables.clients <==> now - w.heard[c] <= 60000)
      && (c in w'.tables.clients ==> w'.tables.clients[c] == w.tables.clients[c])
      && w'.tables.Indexed()
  {
    RunSound(steps, w);
    SweptIs(w.tables, order, now);
  }

  lemma EmptySound() ensures Sound(EMPTY) {}

  lemma SoundIsIndexed(w: World)
    requires Sound(w)
    ensures w.tables.Indexed()
  {}
}
