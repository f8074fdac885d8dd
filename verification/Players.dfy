/** All players of a server together: how they come and go, tick by tick, and what that does to the
  * subscriptions of their clients. Numbers of clients are used again.
  */
module Players {
  import opened Components
  import opened Subscribers
  import opened Views

  type Entity = nat
  type Roster = map<Entity, Player>
  type Index = map<Chunk, seq<ClientId>>

  /** How often a client is in a chunk's list. */
  function Count(index: Index, c: Chunk, client: ClientId): nat {
    if c in index then multiset(index[c])[client] else 0
  }

  function CountsOf(index: Index, client: ClientId): Counts {
    (c: Chunk) => Count(index, c, client)
  }

  // ----- one tick of the players -----

  function Each(players: Roster, f: Player -> Player): (r: Roster)
    ensures r.Keys == players.Keys
  {
    map e | e in players :: f(players[e])
  }

  /** What happens in a tick: where packets move players, the players that are spawned, and the
    * clients whose connections turn out to be gone.
    */
  datatype Inputs = Inputs(chunks: map<Entity, Chunk>, arrivals: Roster, gone: set<ClientId>)

  function WithPackets(p: Player, chunks: map<Entity, Chunk>, e: Entity): Player {
    HandlePackets(p, if e in chunks then chunks[e] else p.chunk)
  }

  function Handled(players: Roster, chunks: map<Entity, Chunk>): (r: Roster)
    ensures r.Keys == players.Keys
  {
    map e | e in players :: WithPackets(players[e], chunks, e)
  }

  /** The players when the subscription system runs. */
  function AtSubscribe(players: Roster, i: Inputs): Roster {
    Handled(Each(players, UntilPoll) + i.arrivals, i.chunks)
  }

  /** Leaving players are despawned before the last of the systems runs, which marks those whose
    * clients are gone.
    */
  function Remaining(players: Roster): Roster {
    map e | e in players && !players[e].leaving :: players[e]
  }

  function Marked(players: Roster, gone: set<ClientId>): Roster {
    map e | e in players :: players[e].(leaving := players[e].client in gone)
  }

  function AtEnd(players: Roster, i: Inputs): Roster {
    Marked(Remaining(AtSubscribe(players, i)), i.gone)
  }

  function ClientsOf(players: Roster): set<ClientId> { set e | e in players :: players[e].client }

  // ----- the server and its ticks -----

  /** The players, the numbers of clients that are in use, and the index. The rest is history: the
    * lives of the players that are there, and of the earlier holders of each number.
    */
  datatype State = State(players: Roster, clients: set<ClientId>, index: Index,
                         lives: map<Entity, Life>, past: map<ClientId, seq<Life>>)

  const EMPTY := State(map[], {}, map[], map[], map[])

  function PastOf(past: map<ClientId, seq<Life>>, client: ClientId): seq<Life> {
    if client in past then past[client] else []
  }

  ghost predicate Distinct(players: Roster) {
    forall e, f :: e in players && f in players && players[e].client == players[f].client ==> e == f
  }

  /** New players get numbers of clients that are not in use. */
  ghost predicate Admits(s: State, i: Inputs) {
    && i.arrivals.Keys !! s.players.Keys && Distinct(i.arrivals)
    && (forall e :: e in i.arrivals ==> Spawned(i.arrivals[e]) && i.arrivals[e].client !in s.clients)
  }

  /** The subscription system has something to do for a player. */
  predicate Touches(p: Player) { p.update.Some? || p.leaving }

  ghost predicate Touched(players: Roster, client: ClientId) {
    exists e :: e in players && Touches(players[e]) && players[e].client == client
  }

  ghost predicate DistinctTouched(players: Roster) {
    forall e, f | e in players && f in players && Touches(players[e]) && Touches(players[f]) ::
      players[e].client == players[f].client ==> e == f
  }

  /** What the subscription system does to the index. */
  ghost predicate Subscribes(before: Index, players: Roster, after: Index) {
    && (forall e, c :: e in players && Touches(players[e]) ==>
          Count(after, c, players[e].client) == Subscribed(Count(before, c, players[e].client), c, players[e]))
    && (forall client, c :: !Touched(players, client) ==> Count(after, c, client) == Count(before, c, client))
  }

  function Longer(life: Life, chunk: Chunk): Life { life.(moves := life.moves + [chunk]) }

  /** The lives of the players that are left, and of those that are new. */
  function LivesAfter(lives: map<Entity, Life>, mid: Roster): map<Entity, Life> {
    map e | e in mid && !mid[e].leaving ::
      if e in lives then Longer(lives[e], mid[e].chunk) else Life(mid[e], [])
  }

  /** The lives of those that leave are over. */
  ghost predicate Ends(past: map<ClientId, seq<Life>>, lives: map<Entity, Life>, mid: Roster,
                       past': map<ClientId, seq<Life>>)
  {
    && (forall e :: e in mid && mid[e].leaving && e in lives ==>
          PastOf(past', mid[e].client) == PastOf(past, mid[e].client) + [Longer(lives[e], mid[e].chunk)])
    && (forall client :: (forall e :: e in mid && mid[e].leaving ==> mid[e].client != client) ==>
          PastOf(past', client) == PastOf(past, client))
  }

  /** One tick. */
  ghost predicate Step(s: State, i: Inputs, t: State) {
    var mid := AtSubscribe(s.players, i);
    && Admits(s, i)
    && t.players == AtEnd(s.players, i)
    && t.clients == s.clients + ClientsOf(i.arrivals) - (ClientsOf(Remaining(mid)) * i.gone)
    && Subscribes(s.index, mid, t.index)
    && t.lives == LivesAfter(s.lives, mid)
    && Ends(s.past, s.lives, mid, t.past)
  }

  // ----- what holds between ticks -----

  ghost predicate InUse(players: Roster, client: ClientId) {
    exists e :: e in players && !players[e].leaving && players[e].client == client
  }

  /** The player is what its life has made of it. */
  ghost predicate Lives(p: Player, life: Life) {
    Spawned(life.born) && life.born.client == p.client && p == After(life.born, life.moves).(leaving := p.leaving)
  }

  /** The lists of a client are what its player's life has made of what earlier holders of its number
    * have left.
    */
  ghost predicate Accounted(index: Index, past: map<ClientId, seq<Life>>, client: ClientId, life: Life) {
    forall c :: Count(index, c, client) == CountsFrom(Residue(PastOf(past, client)), life.born, life.moves)(c)
  }

  ghost predicate Vacated(index: Index, past: map<ClientId, seq<Life>>, client: ClientId) {
    forall c :: Count(index, c, client) == Residue(PastOf(past, client))(c)
  }

  /** No two players have the same client, and the clients that are in use are those of the players
    * that are not leaving.
    */
  ghost predicate Populated(s: State) {
    && s.lives.Keys == s.players.Keys
    && Distinct(s.players)
    && (forall client :: client in s.clients <==> InUse(s.players, client))
    && (forall e :: e in s.players ==> Lives(s.players[e], s.lives[e]))
  }

  ghost predicate Inv(s: State) {
    && Populated(s)
    && (forall e :: e in s.players ==> Accounted(s.index, s.past, s.players[e].client, s.lives[e]))
    && (forall client :: client !in ClientsOf(s.players) ==> Vacated(s.index, s.past, client))
    && (forall client :: Past(PastOf(s.past, client)))
  }

  // ----- a tick keeps it -----

  lemma TickOfLife(p: Player, life: Life, chunk: Chunk)
    requires Lives(p, life)
    ensures var q := UntilSubscribe(p, chunk);
      && Lives(q, Longer(life, chunk)) && q.client == p.client && q.leaving == p.leaving
      && q == UntilSubscribe(After(life.born, life.moves).(leaving := p.leaving), chunk)
  {
    var before, next := After(life.born, life.moves), life.moves + [chunk];
    assert next[..|next| - 1] == life.moves && next[|next| - 1] == chunk;
    assert After(life.born, next) == UntilSubscribe(before, chunk);
    NotLeaving(life.born, next);
    if p.leaving {
      LeavingTick(before, chunk);
    } else {
      NotLeaving(life.born, life.moves);
      assert p == before;
    }
  }

  lemma TickOfPlayer(players: Roster, i: Inputs, e: Entity)
    requires e in players && e !in i.arrivals
    ensures e in AtSubscribe(players, i)
    ensures AtSubscribe(players, i)[e] == UntilSubscribe(players[e], AtSubscribe(players, i)[e].chunk)
  {
  }

  /** A player that was there before the tick, when the subscription system runs. */
  lemma OldPlayer(s: State, i: Inputs, e: Entity)
    requires Inv(s) && Admits(s, i) && e in s.players
    ensures var q, life := AtSubscribe(s.players, i)[e], s.lives[e];
      && q.client == s.players[e].client && q.leaving == s.players[e].leaving
      && Lives(q, Longer(life, q.chunk))
      && q == UntilSubscribe(After(life.born, life.moves).(leaving := q.leaving), q.chunk)
  {
    TickOfPlayer(s.players, i, e);
    TickOfLife(s.players[e], s.lives[e], AtSubscribe(s.players, i)[e].chunk);
  }

  /** A player that has been spawned in this tick. */
  lemma NewPlayer(s: State, i: Inputs, e: Entity)
    requires Admits(s, i) && e in i.arrivals
    ensures var q := AtSubscribe(s.players, i)[e];
      Spawned(q) && q.client == i.arrivals[e].client && !Touches(q) && Lives(q, Life(q, []))
  {
  }

  /** The subscription system touches old players only, whose clients are distinct, although a new
    * player may have the same client as one that is leaving.
    */
  lemma TouchedAreDistinct(s: State, i: Inputs)
    requires Inv(s) && Admits(s, i)
    ensures DistinctTouched(AtSubscribe(s.players, i))
  {
    var mid := AtSubscribe(s.players, i);
    forall e, f | e in mid && f in mid && Touches(mid[e]) && Touches(mid[f]) && mid[e].client == mid[f].client
      ensures e == f
    {
      TouchedIsOld(s, i, e);
      TouchedIsOld(s, i, f);
    }
  }

  lemma TouchedIsOld(s: State, i: Inputs, e: Entity)
    requires Inv(s) && Admits(s, i)
    requires e in AtSubscribe(s.players, i) && Touches(AtSubscribe(s.players, i)[e])
    ensures e in s.players && AtSubscribe(s.players, i)[e].client == s.players[e].client
  {
    if e in i.arrivals { NewPlayer(s, i, e); } else { OldPlayer(s, i, e); }
  }

  lemma LeavingAreOld(s: State, i: Inputs)
    requires Inv(s) && Admits(s, i)
    ensures var mid := AtSubscribe(s.players, i); forall e :: e in mid && mid[e].leaving ==> e in s.lives
  {
    var mid := AtSubscribe(s.players, i);
    forall e | e in mid && mid[e].leaving ensures e in s.lives { TouchedIsOld(s, i, e); }
  }

  lemma OldCounts(s: State, i: Inputs, t: State, e: Entity, c: Chunk)
    requires Inv(s) && Step(s, i, t) && e in s.players
    ensures var q := AtSubscribe(s.players, i)[e];
      Count(t.index, c, q.client) == Subscribed(Count(s.index, c, q.client), c, q)
  {
    var mid := AtSubscribe(s.players, i);
    OldPlayer(s, i, e);
    if !Touches(mid[e]) && Touched(mid, mid[e].client) {
      var f :| f in mid && Touches(mid[f]) && mid[f].client == mid[e].client;
      TouchedIsOld(s, i, f);
    }
  }

  /** What the subscription system makes of the lists of a client. */
  lemma LifeIsAccounted(counts: Counts, life: Life, q: Player, c: Chunk)
    requires Spawned(life.born)
    requires q == UntilSubscribe(After(life.born, life.moves).(leaving := q.leaving), q.chunk)
    requires Lives(q, Longer(life, q.chunk))
    ensures var after := Longer(life, q.chunk);
      Subscribe(CountsFrom(counts, life.born, life.moves), q)(c)
        == if q.leaving then LeftBehind(counts, after)(c) else CountsFrom(counts, after.born, after.moves)(c)
  {
    if q.leaving {
      LeftBehindIs(counts, life.born, life.moves, q.chunk, c);
    } else {
      var next := life.moves + [q.chunk];
      assert next[..|next| - 1] == life.moves;
      NotLeaving(life.born, next);
      assert q == After(life.born, next);
    }
  }

  /** What the tick makes of the subscriptions of a player that was there before. */
  lemma OldIsAccounted(s: State, i: Inputs, t: State, e: Entity, c: Chunk)
    requires Inv(s) && Step(s, i, t) && e in s.players
    ensures var p, before := s.players[e], Residue(PastOf(s.past, s.players[e].client));
      var life := Longer(s.lives[e], AtSubscribe(s.players, i)[e].chunk);
      Count(t.index, c, p.client)
        == if p.leaving then LeftBehind(before, life)(c) else CountsFrom(before, life.born, life.moves)(c)
  {
    var client, q, life := s.players[e].client, AtSubscribe(s.players, i)[e], s.lives[e];
    OldPlayer(s, i, e);
    OldCounts(s, i, t, e, c);
    assert Accounted(s.index, s.past, client, life);
    LifeIsAccounted(Residue(PastOf(s.past, client)), life, q, c);
  }

  /** As long as a player stays, its number's earlier holders are the same. */
  lemma PastStays(s: State, i: Inputs, t: State, client: ClientId)
    requires Inv(s) && Step(s, i, t)
    requires forall e :: e in s.players && s.players[e].leaving ==> s.players[e].client != client
    ensures PastOf(t.past, client) == PastOf(s.past, client)
  {
    var mid := AtSubscribe(s.players, i);
    forall e | e in mid && mid[e].leaving ensures mid[e].client != client {
      TouchedIsOld(s, i, e);
      OldPlayer(s, i, e);
    }
  }

  lemma OneMore(before: seq<Life>, after: seq<Life>, life: Life)
    requires Past(before) && Spawned(life.born) && life.moves != [] && after == before + [life]
    ensures Past(after)
  {
  }

  lemma PastGrows(s: State, i: Inputs, t: State, e: Entity)
    requires Inv(s) && Step(s, i, t) && e in s.players && s.players[e].leaving
    ensures var client, life := s.players[e].client, Longer(s.lives[e], AtSubscribe(s.players, i)[e].chunk);
      && Past(PastOf(t.past, client)) && PastOf(t.past, client) == PastOf(s.past, client) + [life]
      && Residue(PastOf(t.past, client)) == LeftBehind(Residue(PastOf(s.past, client)), life)
  {
    OldPlayer(s, i, e);
    var before, after := PastOf(s.past, s.players[e].client), PastOf(t.past, s.players[e].client);
    assert after[..|after| - 1] == before;
    assert Past(before);
    OneMore(before, after, after[|before|]);
  }

  /** If no player stays that has a number, what is in the lists is what its holders have left. */
  lemma NumberIsVacated(s: State, i: Inputs, t: State, client: ClientId)
    requires Inv(s) && Step(s, i, t) && client !in s.clients
    ensures Vacated(t.index, t.past, client)
  {
    var mid := AtSubscribe(s.players, i);
    if e :| e in s.players && s.players[e].client == client {
      assert s.players[e].leaving;
      PastGrows(s, i, t, e);
      forall c ensures Count(t.index, c, client) == Residue(PastOf(t.past, client))(c) {
        OldIsAccounted(s, i, t, e, c);
      }
    } else {
      PastStays(s, i, t, client);
      assert !Touched(mid, client) by {
        if e :| e in mid && Touches(mid[e]) && mid[e].client == client { TouchedIsOld(s, i, e); }
      }
      assert Vacated(s.index, s.past, client);
    }
  }

  lemma PastIsKept(s: State, i: Inputs, t: State, client: ClientId)
    requires Inv(s) && Step(s, i, t)
    ensures Past(PastOf(t.past, client))
  {
    if e :| e in s.players && s.players[e].leaving && s.players[e].client == client {
      PastGrows(s, i, t, e);
    } else {
      PastStays(s, i, t, client);
      assert Past(PastOf(s.past, client));
    }
  }

  lemma KeysStay(s: State, i: Inputs, t: State)
    requires Step(s, i, t)
    ensures t.lives.Keys == t.players.Keys
  {
    var mid := AtSubscribe(s.players, i);
    assert t.lives.Keys == Remaining(mid).Keys;
  }

  /** A player that is there after the tick: it was there before and was not leaving, or is new. */
  lemma WhoIsThere(s: State, i: Inputs, t: State, e: Entity)
    requires Inv(s) && Step(s, i, t) && e in t.players
    ensures e in s.players ==>
      && !s.players[e].leaving && t.players[e].client == s.players[e].client && t.players[e].client in s.clients
      && t.lives[e] == Longer(s.lives[e], AtSubscribe(s.players, i)[e].chunk)
    ensures e !in s.players ==>
      && e in i.arrivals && t.players[e].client == i.arrivals[e].client && t.players[e].client !in s.clients
      && t.lives[e] == Life(AtSubscribe(s.players, i)[e], [])
    ensures Lives(t.players[e], t.lives[e])
  {
    if e in s.players {
      OldPlayer(s, i, e);
      assert InUse(s.players, s.players[e].client);
    } else {
      NewPlayer(s, i, e);
    }
  }

  lemma StaysDistinct(s: State, i: Inputs, t: State)
    requires Inv(s) && Step(s, i, t)
    ensures Distinct(t.players)
  {
    forall e, f | e in t.players && f in t.players && t.players[e].client == t.players[f].client ensures e == f {
      WhoIsThere(s, i, t, e);
      WhoIsThere(s, i, t, f);
    }
  }

  /** A client that is in use, or taken into use, has a player after the tick. */
  lemma HolderStays(s: State, i: Inputs, t: State, client: ClientId) returns (e: Entity)
    requires Inv(s) && Step(s, i, t) && client in s.clients + ClientsOf(i.arrivals)
    ensures e in t.players && t.players[e].client == client && t.players[e].leaving == (client in i.gone)
    ensures client in ClientsOf(Remaining(AtSubscribe(s.players, i)))
  {
    var mid := AtSubscribe(s.players, i);
    if client in s.clients {
      assert InUse(s.players, client);
      e :| e in s.players && !s.players[e].leaving && s.players[e].client == client;
      OldPlayer(s, i, e);
    } else {
      e :| e in i.arrivals && i.arrivals[e].client == client;
      NewPlayer(s, i, e);
    }
    assert e in mid && !mid[e].leaving && mid[e].client == client;
    assert e in Remaining(mid);
  }

  /** So that the client of every player that is not leaving is found. */
  lemma ClientsAreFound(s: State, i: Inputs, t: State, client: ClientId)
    requires Inv(s) && Step(s, i, t)
    ensures client in t.clients <==> InUse(t.players, client)
  {
    if client in s.clients + ClientsOf(i.arrivals) {
      var e := HolderStays(s, i, t, client);
      StaysDistinct(s, i, t);
    } else if f :| f in t.players && t.players[f].client == client {
      WhoIsThere(s, i, t, f);
    }
  }

  lemma StaysAccounted(s: State, i: Inputs, t: State, e: Entity)
    requires Inv(s) && Step(s, i, t) && e in t.players
    ensures Accounted(t.index, t.past, t.players[e].client, t.lives[e])
  {
    var client := t.players[e].client;
    WhoIsThere(s, i, t, e);
    if e in s.players {
      PastStays(s, i, t, client);
      forall c ensures Count(t.index, c, client)
                    == CountsFrom(Residue(PastOf(t.past, client)), t.lives[e].born, t.lives[e].moves)(c)
      {
        OldIsAccounted(s, i, t, e, c);
      }
    } else {
      NumberIsVacated(s, i, t, client);
    }
  }

  lemma StaysVacated(s: State, i: Inputs, t: State, client: ClientId)
    requires Inv(s) && Step(s, i, t) && client !in ClientsOf(t.players)
    ensures Vacated(t.index, t.past, client)
  {
    if client in s.clients { var e := HolderStays(s, i, t, client); }
    NumberIsVacated(s, i, t, client);
  }

  lemma StaysPopulated(s: State, i: Inputs, t: State)
    requires Inv(s) && Step(s, i, t)
    ensures Populated(t)
  {
    StaysDistinct(s, i, t);
    KeysStay(s, i, t);
    forall client ensures client in t.clients <==> InUse(t.players, client) {
      ClientsAreFound(s, i, t, client);
    }
    forall e | e in t.players ensures Lives(t.players[e], t.lives[e]) {
      WhoIsThere(s, i, t, e);
    }
  }

  /** A tick keeps the invariant, whoever joins, moves or leaves, and whichever numbers are used again. */
  lemma StepKeepsInv(s: State, i: Inputs, t: State)
    requires Inv(s) && Step(s, i, t)
    ensures Inv(t)
  {
    StaysPopulated(s, i, t);
    forall e | e in t.players ensures Accounted(t.index, t.past, t.players[e].client, t.lives[e]) {
      StaysAccounted(s, i, t, e);
    }
    forall client | client !in ClientsOf(t.players) ensures Vacated(t.index, t.past, client) {
      StaysVacated(s, i, t, client);
    }
    forall client ensures Past(PastOf(t.past, client)) {
      PastIsKept(s, i, t, client);
    }
  }

  lemma WhoRemains(s: State, i: Inputs, e: Entity)
    requires Inv(s) && Admits(s, i) && e in Remaining(AtSubscribe(s.players, i))
    ensures var client := Remaining(AtSubscribe(s.players, i))[e].client;
      && (e in s.players ==> client == s.players[e].client && client in s.clients)
      && (e !in s.players ==> e in i.arrivals && client == i.arrivals[e].client && client !in s.clients)
  {
    if e in s.players {
      OldPlayer(s, i, e);
      assert InUse(s.players, s.players[e].client);
    } else {
      NewPlayer(s, i, e);
    }
  }

  /** Before the last of the systems runs, all players that are left have clients that are in use. */
  lemma RemainingAreKnown(s: State, i: Inputs)
    requires Inv(s) && Admits(s, i)
    ensures Distinct(Remaining(AtSubscribe(s.players, i)))
    ensures ClientsOf(Remaining(AtSubscribe(s.players, i))) <= s.clients + ClientsOf(i.arrivals)
  {
    var rest := Remaining(AtSubscribe(s.players, i));
    forall e, f | e in rest && f in rest && rest[e].client == rest[f].client ensures e == f {
      WhoRemains(s, i, e);
      WhoRemains(s, i, f);
    }
    forall client | client in ClientsOf(rest) ensures client in s.clients + ClientsOf(i.arrivals) {
      var e :| e in rest && rest[e].client == client;
      WhoRemains(s, i, e);
    }
  }

  // ----- whole runs -----

  lemma EmptyHasInv()
    ensures Inv(EMPTY)
  {
  }

  ghost predicate StepAt(run: seq<State>, inputs: seq<Inputs>, k: nat)
    requires k < |inputs| && |run| == |inputs| + 1
  {
    Step(run[k], inputs[k], run[k + 1])
  }

  ghost predicate Run(run: seq<State>, inputs: seq<Inputs>) {
    && |run| == |inputs| + 1 && run[0] == EMPTY
    && (forall k: nat :: k < |inputs| ==> StepAt(run, inputs, k))
  }

  lemma {:induction false} EveryRunKeepsInv(run: seq<State>, inputs: seq<Inputs>, k: nat)
    requires Run(run, inputs) && k < |run|
    ensures Inv(run[k])
  {
    if k == 0 {
      EmptyHasInv();
    } else {
      EveryRunKeepsInv(run, inputs, k - 1);
      assert StepAt(run, inputs, k - 1);
      StepKeepsInv(run[k - 1], inputs[k - 1], run[k]);
    }
  }

  /** Main result on subscriptions: after every run of the server, with players joining, moving and
    * leaving as they like, the client of a player that was there before the last tick is in the
    * lists of exactly the chunks in the player's view, once in each, if and only if neither the
    * player nor any earlier holder of its client's number changed chunks between its first two ticks
    * while it saw anything.
    */
  lemma SubscribedIff(run: seq<State>, inputs: seq<Inputs>, k: nat, e: Entity)
    requires Run(run, inputs) && k < |run| && e in run[k].players
    ensures e in run[k].lives
    ensures var s, p, life := run[k], run[k].players[e], run[k].lives[e];
      life.moves != [] ==>
        (Agrees(CountsOf(s.index, p.client), p.view) <==> Clean(life) && AllClean(PastOf(s.past, p.client)))
  {
    EveryRunKeepsInv(run, inputs, k);
    var s, p, life := run[k], run[k].players[e], run[k].lives[e];
    if life.moves != [] {
      var past := PastOf(s.past, p.client);
      AgreesAfterIff(past, life);
      assert Accounted(s.index, s.past, p.client, life);
      assert forall c :: CountsOf(s.index, p.client)(c) == CountsFrom(Residue(past), life.born, life.moves)(c);
    }
  }

  /** And a number that no player has is in no list if and only if none of its holders did that. */
  lemma VacantIff(run: seq<State>, inputs: seq<Inputs>, k: nat, client: ClientId)
    requires Run(run, inputs) && k < |run| && client !in ClientsOf(run[k].players)
    ensures InNone(CountsOf(run[k].index, client)) <==> AllClean(PastOf(run[k].past, client))
  {
    EveryRunKeepsInv(run, inputs, k);
    var s := run[k];
    ResidueIff(PastOf(s.past, client));
    assert Vacated(s.index, s.past, client);
    assert forall c :: CountsOf(s.index, client)(c) == Residue(PastOf(s.past, client))(c);
  }
}
