/** The server: its players, the systems that look after them, and the index of subscriptions. */
module ServerObject {
  import opened Components
  import opened Options
  import opened Players
  import opened Subscribers
  import opened Subscriptions
  import opened Views

  /** A new connection: where the player's data say that it is, and its first view. */
  datatype Connection = Connection(chunk: Chunk, view: View)

  lemma {:induction false} HasFree(clients: set<ClientId>) returns (client: ClientId)
    ensures client !in clients && forall c :: c in clients ==> c < client
    decreases |clients|
  {
    if clients == {} {
      client := 0;
    } else {
      var c :| c in clients;
      var rest := HasFree(clients - {c});
      client := if c < rest then rest else c + 1;
      forall d | d in clients ensures d < client {
        if d != c { assert d in clients - {c}; }
      }
    }
  }

  /** The two halves of a view update. */
  function WithNewView(p: Player): Player {
    if p.chunk != p.view.center then p.(view := View(p.chunk, p.view.distance)) else p
  }

  function WithEvent(p: Player, events: map<Entity, ViewUpdate>, e: Entity): Player {
    if e in events then p.(update := Some(events[e]), inListOfMoves := true) else p
  }

  /** Entities are numbered as they are spawned. */
  ghost predicate Below(players: Roster, next: Entity) {
    forall e :: e in players ==> e < next
  }

  ghost predicate Numbered(arrivals: Roster, next: Entity, n: nat) {
    forall e :: e in arrivals <==> next <= e < next + n
  }

  lemma FewerAreBelow(players: Roster, more: Roster, next: Entity)
    requires players.Keys <= more.Keys && Below(more, next)
    ensures Below(players, next)
  {
  }

  /** Players that have been spawned for the first `n` connections, the first of them as entity `next`. */
  ghost predicate Arrived(arrivals: Roster, next: Entity, connections: seq<Connection>, n: nat, taken: set<ClientId>)
    requires n <= |connections|
  {
    && Numbered(arrivals, next, n) && Distinct(arrivals)
    && (forall e :: e in arrivals ==>
          && Spawned(arrivals[e]) && arrivals[e].client !in taken
          && arrivals[e].chunk == connections[e - next].chunk && arrivals[e].view == connections[e - next].view)
  }

  lemma OneMoreArrives(arrivals: Roster, next: Entity, connections: seq<Connection>, n: nat, taken: set<ClientId>,
                       p: Player)
    requires n < |connections| && Arrived(arrivals, next, connections, n, taken)
    requires Spawned(p) && p.client !in taken + ClientsOf(arrivals)
    requires p.chunk == connections[n].chunk && p.view == connections[n].view
    ensures Arrived(arrivals[next + n := p], next, connections, n + 1, taken)
    ensures ClientsOf(arrivals[next + n := p]) == ClientsOf(arrivals) + {p.client}
  {
    var more := arrivals[next + n := p];
    assert forall e :: e in arrivals ==> arrivals[e].client in ClientsOf(arrivals) && more[e] == arrivals[e];
    forall c | c in ClientsOf(arrivals) + {p.client} ensures c in ClientsOf(more) {
      if c == p.client {
        assert more[next + n].client == c;
      } else {
        var e :| e in arrivals && arrivals[e].client == c;
        assert more[e].client == c;
      }
    }
  }

  /** The server when that many connections have been dealt with. */
  ghost predicate Polled(was: Roster, taken: set<ClientId>, first: Entity, connections: seq<Connection>, n: nat,
                         arrivals: Roster, players: Roster, clients: set<ClientId>)
  {
    && n <= |connections| && Arrived(arrivals, first, connections, n, taken)
    && players == was + arrivals && clients == taken + ClientsOf(arrivals)
  }

  lemma NonePolled(was: Roster, taken: set<ClientId>, first: Entity, connections: seq<Connection>)
    ensures Polled(was, taken, first, connections, 0, map[], was, taken)
  {
    assert was == was + map[];
  }

  lemma OneMorePolled(was: Roster, taken: set<ClientId>, first: Entity, connections: seq<Connection>, n: nat,
                      arrivals: Roster, players: Roster, clients: set<ClientId>, p: Player)
    requires Polled(was, taken, first, connections, n, arrivals, players, clients)
    requires n < |connections| && Spawned(p) && p.client !in clients
    requires p.chunk == connections[n].chunk && p.view == connections[n].view
    ensures Polled(was, taken, first, connections, n + 1,
                   arrivals[first + n := p], players[first + n := p], clients + {p.client})
  {
    OneMoreArrives(arrivals, first, connections, n, taken, p);
    assert players[first + n := p] == was + arrivals[first + n := p];
  }

  lemma ArrivedBelow(was: Roster, taken: set<ClientId>, first: Entity, connections: seq<Connection>, n: nat,
                     arrivals: Roster)
    requires Below(was, first) && n <= |connections| && Arrived(arrivals, first, connections, n, taken)
    ensures Below(was + arrivals, first + n)
  {
  }

  /** Players of which all but some have been looked at, and the clients that are left. */
  ghost predicate MarkedBut(players: Roster, clients: set<ClientId>, todo: set<Entity>, gone: set<ClientId>,
                            now: Roster, left: set<ClientId>)
  {
    && now.Keys == players.Keys && todo <= players.Keys && left <= clients
    && (forall e :: e in players ==> now[e] == players[e].(leaving := e !in todo && players[e].client in gone))
    && (forall e :: e in players ==> (players[e].client in left <==> e in todo || players[e].client !in gone))
    && (forall c :: c in clients && c !in ClientsOf(players) ==> c in left)
  }

  lemma OneMoreMarked(players: Roster, clients: set<ClientId>, todo: set<Entity>, gone: set<ClientId>,
                      now: Roster, left: set<ClientId>, e: Entity)
    requires Distinct(players) && ClientsOf(players) <= clients && e in todo
    requires MarkedBut(players, clients, todo, gone, now, left)
    ensures var client := now[e].client;
      && client in left
      && (client in gone ==>
            MarkedBut(players, clients, todo - {e}, gone, now[e := now[e].(leaving := true)], left - {client}))
      && (client !in gone ==> MarkedBut(players, clients, todo - {e}, gone, now, left))
  {
    assert players[e].client in ClientsOf(players);
  }

  lemma AllMarked(players: Roster, clients: set<ClientId>, gone: set<ClientId>, now: Roster, left: set<ClientId>)
    requires ClientsOf(players) <= clients && MarkedBut(players, clients, {}, gone, now, left)
    ensures now == Marked(players, gone) && left == clients - (ClientsOf(players) * gone)
  {
  }

  /** The lives of those players are over that leave and have been looked at. */
  ghost predicate EndsBut(past: map<ClientId, seq<Life>>, lives: map<Entity, Life>, mid: Roster, todo: set<Entity>,
                          past': map<ClientId, seq<Life>>)
  {
    && (forall e :: e in mid && e !in todo && mid[e].leaving && e in lives ==>
          PastOf(past', mid[e].client) == PastOf(past, mid[e].client) + [Longer(lives[e], mid[e].chunk)])
    && (forall client :: (forall e :: e in mid && e !in todo && mid[e].leaving ==> mid[e].client != client) ==>
          PastOf(past', client) == PastOf(past, client))
  }

  /** Despawning of those that leave and have been looked at. */
  function RemainingBut(players: Roster, todo: set<Entity>): Roster {
    map e | e in players && (e in todo || !players[e].leaving) :: players[e]
  }

  lemma OneLessRemains(players: Roster, todo: set<Entity>, e: Entity)
    requires e in todo && e in players
    ensures RemainingBut(players, todo - {e})
         == if players[e].leaving then RemainingBut(players, todo) - {e} else RemainingBut(players, todo)
  {
  }

  lemma OneMoreEnds(past: map<ClientId, seq<Life>>, lives: map<Entity, Life>, mid: Roster, todo: set<Entity>,
                    past': map<ClientId, seq<Life>>, e: Entity)
    requires DistinctTouched(mid) && e in todo && e in mid && (mid[e].leaving ==> e in lives)
    requires EndsBut(past, lives, mid, todo, past')
    ensures EndsBut(past, lives, mid, todo - {e},
                    if mid[e].leaving
                    then past'[mid[e].client := PastOf(past', mid[e].client) + [Longer(lives[e], mid[e].chunk)]]
                    else past')
  {
    if mid[e].leaving {
      forall f | f in mid && f !in todo && mid[f].leaving ensures mid[f].client != mid[e].client {
        assert Touches(mid[e]) && Touches(mid[f]);
      }
    }
  }

  lemma IsStep(s: State, i: Inputs, mid: State, t: State)
    requires Admits(s, i) && mid.players == AtSubscribe(s.players, i)
    requires mid.clients == s.clients + ClientsOf(i.arrivals)
    requires Subscribes(s.index, mid.players, mid.index) && t.index == mid.index
    requires t.players == Marked(Remaining(mid.players), i.gone)
    requires t.clients == mid.clients - (ClientsOf(Remaining(mid.players)) * i.gone)
    requires t.lives == LivesAfter(s.lives, mid.players) && Ends(s.past, s.lives, mid.players, t.past)
    ensures Step(s, i, t)
  {
  }

  class Server {
    var players: Roster
    var next: Entity
    var clients: set<ClientId>
    const subscriptions: ChunkSubscriptions
    ghost var lives: map<Entity, Life>
    ghost var past: map<ClientId, seq<Life>>

    ghost function Now(): State
      reads this, subscriptions
    {
      State(players, clients, subscriptions.chunks, lives, past)
    }

    ghost predicate Valid()
      reads this, subscriptions
    {
      && Inv(Now()) && NoEmptyLists(subscriptions.chunks)
      && Below(players, next)
    }

    constructor ()
      ensures Valid() && Now() == EMPTY && fresh(subscriptions)
    {
      players, next, clients, lives, past := map[], 0, {}, map[], map[];
      subscriptions := new ChunkSubscriptions();
      new;
      EmptyHasInv();
    }

    /** Removes the old events of the system that updates views. */
    method RemoveOldMoves()
      modifies this`players
      ensures players == Each(old(players), BeforeUpdateViews)
    {
      ghost var was := players;
      var todo := players.Keys;
      while todo != {}
        invariant players.Keys == was.Keys && todo <= players.Keys
        invariant forall e :: e in players ==>
          players[e] == if e in todo then was[e] else BeforeUpdateViews(was[e])
        decreases |todo|
      {
        var e :| e in todo;
        if players[e].inListOfMoves {
          players := players[e := players[e].(update := None, inListOfMoves := false)];
        }
        todo := todo - {e};
      }
    }

    /** And those of the system that updates views of joining players. */
    method RemoveOldJoins()
      modifies this`players
      ensures players == Each(old(players), BeforeUpdateOnJoin)
    {
      ghost var was := players;
      var todo := players.Keys;
      while todo != {}
        invariant players.Keys == was.Keys && todo <= players.Keys
        invariant forall e :: e in players ==>
          players[e] == if e in todo then was[e] else BeforeUpdateOnJoin(was[e])
        decreases |todo|
      {
        var e :| e in todo;
        if players[e].inListOfJoins {
          players := players[e := players[e].(update := None, inListOfJoins := false)];
        }
        todo := todo - {e};
      }
    }

    method InsertViewUpdates(events: map<Entity, ViewUpdate>)
      requires events.Keys <= players.Keys
      modifies this`players
      ensures players.Keys == old(players).Keys
      ensures forall e :: e in players ==> players[e] == WithEvent(old(players)[e], events, e)
    {
      ghost var was := players;
      var todo := events.Keys;
      while todo != {}
        invariant players.Keys == was.Keys && todo <= events.Keys
        invariant forall e :: e in players ==>
          players[e] == if e in todo then was[e] else WithEvent(was[e], events, e)
        decreases |todo|
      {
        var e :| e in todo;
        var p := players[e];
        players := players[e := p.(update := Some(events[e]), inListOfMoves := true)];
        todo := todo - {e};
      }
    }

    /** Collects the players that have changed chunks, updating their views, and then inserts the
      * events.
      */
    method UpdatePlayerViews()
      modifies this`players
      ensures players == Each(old(players), UpdateView)
    {
      ghost var was := players;
      var events: map<Entity, ViewUpdate> := map[];
      var todo := players.Keys;
      while todo != {}
        invariant players.Keys == was.Keys && todo <= players.Keys && events.Keys <= players.Keys - todo
        invariant forall e :: e in players ==>
          players[e] == if e in todo then was[e] else WithNewView(was[e])
        invariant forall e :: e in players && e !in todo ==>
          UpdateView(was[e]) == WithEvent(WithNewView(was[e]), events, e)
        decreases |todo|
      {
        var e :| e in todo;
        var p := players[e];
        if p.chunk != p.view.center {
          var newView := View(p.chunk, p.view.distance);
          events := events[e := ViewUpdate(p.view, newView)];
          players := players[e := p.(view := newView)];
        }
        todo := todo - {e};
      }
      InsertViewUpdates(events);
    }

    /** Players that join see their whole view. */
    method UpdateViewOnJoin()
      modifies this`players
      ensures players == Each(old(players), UpdateOnJoin)
    {
      ghost var was := players;
      var todo := players.Keys;
      while todo != {}
        invariant players.Keys == was.Keys && todo <= players.Keys
        invariant forall e :: e in players ==>
          players[e] == if e in todo then was[e] else UpdateOnJoin(was[e])
        decreases |todo|
      {
        var e :| e in todo;
        var p := players[e];
        if p.joining {
          players := players[e := p.(update := Some(ViewUpdate(EMPTY_VIEW, p.view)), inListOfJoins := true)];
        }
        todo := todo - {e};
      }
    }

    method RemoveOldJoinEvents()
      modifies this`players
      ensures players == Each(old(players), BeforePoll)
    {
      ghost var was := players;
      var todo := players.Keys;
      while todo != {}
        invariant players.Keys == was.Keys && todo <= players.Keys
        invariant forall e :: e in players ==>
          players[e] == if e in todo then was[e] else BeforePoll(was[e])
        decreases |todo|
      {
        var e :| e in todo;
        players := players[e := players[e].(joining := false)];
        todo := todo - {e};
      }
    }

    /** Any number that is not in use will do. */
    method InsertClient() returns (client: ClientId)
      modifies this`clients
      ensures client !in old(clients) && clients == old(clients) + {client}
    {
      ghost var free := HasFree(clients);
      assert free !in clients;
      client :| client !in clients;
      clients := clients + {client};
    }

    method AcceptNewPlayer(connection: Connection) returns (p: Player)
      modifies this`players, this`next, this`clients
      ensures players == old(players)[old(next) := p] && next == old(next) + 1
      ensures p.client !in old(clients) && clients == old(clients) + {p.client}
      ensures Spawned(p) && p.chunk == connection.chunk && p.view == connection.view
    {
      var client := InsertClient();
      p := Player(client, connection.chunk, connection.view, None, true, false, false, false);
      players := players[next := p];
      next := next + 1;
    }

    /** Spawns a player for each of the new connections. */
    method PollNewPlayers(connections: seq<Connection>) returns (ghost arrivals: Roster)
      requires Below(players, next)
      modifies this`players, this`next, this`clients
      ensures Arrived(arrivals, old(next), connections, |connections|, old(clients))
      ensures players == old(players) + arrivals && next == old(next) + |connections|
      ensures Below(players, next)
      ensures clients == old(clients) + ClientsOf(arrivals)
    {
      ghost var was, first, taken := players, next, clients;
      arrivals := map[];
      NonePolled(was, taken, first, connections);
      for k := 0 to |connections|
        invariant Polled(was, taken, first, connections, k, arrivals, players, clients) && next == first + k
      {
        ghost var before, used := players, clients;
        var p := AcceptNewPlayer(connections[k]);
        OneMorePolled(was, taken, first, connections, k, arrivals, before, used, p);
        arrivals := arrivals[first + k := p];
      }
      ArrivedBelow(was, taken, first, connections, |connections|, arrivals);
    }

    /** Movement packets. */
    method HandlePackets(chunks: map<Entity, Chunk>)
      modifies this`players
      ensures players == Handled(old(players), chunks)
    {
      ghost var was := players;
      var todo := players.Keys;
      while todo != {}
        invariant players.Keys == was.Keys && todo <= players.Keys
        invariant forall e :: e in players ==>
          players[e] == if e in todo then was[e] else WithPackets(was[e], chunks, e)
        decreases |todo|
      {
        var e :| e in todo;
        var p := players[e];
        if e in chunks {
          players := players[e := p.(chunk := chunks[e])];
        }
        todo := todo - {e};
      }
    }

    /** Brings the index up to date: the players are found in some order. */
    method UpdateChunkSubscriptions()
      requires NoEmptyLists(subscriptions.chunks) && DistinctTouched(players)
      modifies subscriptions
      ensures NoEmptyLists(subscriptions.chunks)
      ensures Subscribes(old(subscriptions.chunks), players, subscriptions.chunks)
    {
      var updates, leaving := [], [];
      ghost var order: seq<Entity> := [];
      var todo := players.Keys;
      while todo != {}
        invariant todo <= players.Keys && forall e :: e in order <==> e in players && e !in todo
        invariant forall j, k :: 0 <= j < k < |order| ==> order[j] != order[k]
        invariant updates == UpdatesOf(Along(players, order)) && leaving == LeavingOf(Along(players, order))
        decreases |todo|
      {
        var e :| e in todo;
        var p := players[e];
        ghost var longer := order + [e];
        assert Along(players, longer)[..|order|] == Along(players, order);
        if p.update.Some? { updates := updates + [(p.update.value, p.client)]; }
        if p.leaving { leaving := leaving + [(p.client, p.view)]; }
        order := longer;
        todo := todo - {e};
      }
      ghost var before := subscriptions.chunks;
      subscriptions.UpdateChunkSubscriptions(updates, leaving);
      AllAreSubscribed(players, order, before, subscriptions.chunks);
    }

    /** Despawns the players that have been leaving for a tick: their lives are over. */
    method DespawnOld()
      requires DistinctTouched(players) && forall e :: e in players && players[e].leaving ==> e in lives
      modifies this`players, this`lives, this`past
      ensures players.Keys <= old(players).Keys
      ensures players == Remaining(old(players)) && lives == LivesAfter(old(lives), old(players))
      ensures Ends(old(past), old(lives), old(players), past)
    {
      ghost var was, pastWas, livesWas := players, past, lives;
      var todo := players.Keys;
      while todo != {}
        invariant todo <= was.Keys && players == RemainingBut(was, todo)
        invariant EndsBut(pastWas, livesWas, was, todo, past)
        decreases |todo|
      {
        var e :| e in todo;
        var p := players[e];
        OneMoreEnds(pastWas, livesWas, was, todo, past, e);
        OneLessRemains(was, todo, e);
        if p.leaving {
          players := players - {e};
          past := past[p.client := PastOf(past, p.client) + [Longer(livesWas[e], p.chunk)]];
        }
        todo := todo - {e};
      }
      lives := LivesAfter(livesWas, was);
    }

    /** Marks the players whose clients are gone. No client is looked for in vain. */
    method RemoveDisconnectedClients(gone: set<ClientId>)
      requires Distinct(players) && ClientsOf(players) <= clients
      requires forall e :: e in players ==> !players[e].leaving
      modifies this`players, this`clients
      ensures players.Keys == old(players).Keys
      ensures players == Marked(old(players), gone) && clients == old(clients) - (ClientsOf(old(players)) * gone)
    {
      ghost var was, known := players, clients;
      var todo := players.Keys;
      while todo != {}
        invariant MarkedBut(was, known, todo, gone, players, clients)
        decreases |todo|
      {
        var e :| e in todo;
        OneMoreMarked(was, known, todo, gone, players, clients, e);
        var client := players[e].client;
        assert client in clients;
        if client in gone {
          clients := clients - {client};
          players := players[e := players[e].(leaving := true)];
        }
        todo := todo - {e};
      }
      AllMarked(was, known, gone, players, clients);
    }

    /** The systems up to the one that polls for new players, with what is removed before it. */
    method UpdateViews()
      modifies this`players
      ensures players == Each(old(players), UntilPoll)
    {
      RemoveOldMoves();
      UpdatePlayerViews();
      RemoveOldJoins();
      UpdateViewOnJoin();
      RemoveOldJoinEvents();
    }

    /** The other systems that have to do with players. */
    method ServePlayers(connections: seq<Connection>, chunks: map<Entity, Chunk>, ghost gone: set<ClientId>,
                        ghost before: State)
      returns (ghost inputs: Inputs)
      requires Inv(before) && NoEmptyLists(subscriptions.chunks) && Below(players, next)
      requires Now() == before.(players := Each(before.players, UntilPoll))
      modifies this`players, this`next, this`clients, subscriptions
      ensures inputs.chunks == chunks && inputs.gone == gone && Admits(before, inputs)
      ensures Numbered(inputs.arrivals, old(next), |connections|)
      ensures players == AtSubscribe(before.players, inputs) && next == old(next) + |connections|
      ensures Below(players, next)
      ensures clients == before.clients + ClientsOf(inputs.arrivals)
      ensures NoEmptyLists(subscriptions.chunks)
      ensures Subscribes(before.index, AtSubscribe(before.players, inputs), subscriptions.chunks)
    {
      ghost var arrivals := PollNewPlayers(connections);
      inputs := Inputs(chunks, arrivals, gone);
      HandlePackets(chunks);
      TouchedAreDistinct(before, inputs);
      UpdateChunkSubscriptions();
    }

    /** The system that looks after players whose clients are gone, with what is removed before it. */
    method PlayersLeave(gone: set<ClientId>)
      requires DistinctTouched(players) && forall e :: e in players && players[e].leaving ==> e in lives
      requires Distinct(Remaining(players)) && ClientsOf(Remaining(players)) <= clients
      modifies this`players, this`clients, this`lives, this`past
      ensures players.Keys <= old(players).Keys
      ensures players == Marked(Remaining(old(players)), gone)
      ensures clients == old(clients) - (ClientsOf(Remaining(old(players))) * gone)
      ensures lives == LivesAfter(old(lives), old(players)) && Ends(old(past), old(lives), old(players), past)
    {
      DespawnOld();
      RemoveDisconnectedClients(gone);
    }

    /** One tick: the systems in the order in which they run, each after its old events are removed. */
    method Tick(connections: seq<Connection>, chunks: map<Entity, Chunk>, gone: set<ClientId>)
      returns (ghost inputs: Inputs)
      requires Valid()
      modifies this, subscriptions
      ensures Valid() && Step(old(Now()), inputs, Now())
      ensures inputs.chunks == chunks && inputs.gone == gone
      ensures Numbered(inputs.arrivals, old(next), |connections|)
    {
      ghost var before := Now();
      UpdateViews();
      inputs := ServePlayers(connections, chunks, gone, before);
      ghost var mid := Now();
      TouchedAreDistinct(before, inputs);
      RemainingAreKnown(before, inputs);
      LeavingAreOld(before, inputs);
      PlayersLeave(gone);
      FewerAreBelow(players, mid.players, next);
      IsStep(before, inputs, mid, Now());
      StepKeepsInv(before, inputs, Now());
    }
  }
}
