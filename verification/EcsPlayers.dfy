/** Whole runs of all systems: tick by tick, the records of the players are those of the server's
  * ticks, and so what holds of the server holds of the entity-component system.
  */
module EcsPlayers {
  import opened Components
  import opened Options
  import opened Views
  import opened EcsModel
  import opened EventRuns
  import opened EventLaws
  import opened PlayerSystems
  import opened PlayerRuns
  import opened Subscribers
  import P = Players

  // ----- one run of any system -----

  ghost predicate Moves(s: State, ops: seq<Op>) {
    exists query :: IsQuery(s.world, query)
      && ops == ForEach(query, SetsView(s.world)) + ForEach(query, TellsOfMove(s.world))
  }

  ghost predicate Joins(s: State, ops: seq<Op>) {
    exists query :: IsQuery(s.world, query) && ops == ForEach(query, TellsOfJoin(s.world))
  }

  ghost predicate Polls(s: State, ops: seq<Op>) {
    exists arrivals :: (forall a :: a in arrivals ==> Proper(a)) && ops == ForArrivals(Spawns, s.next, arrivals)
  }

  ghost predicate Leaves(s: State, ops: seq<Op>, gone: set<ClientId>) {
    exists query :: IsQuery(s.world, query) && ops == ForEach(query, Removes(s.world, gone))
  }

  /** What the system whose turn it is may do. */
  ghost predicate RunOf(o: Order, s: State, i: nat, ops: seq<Op>, gone: set<ClientId>) {
    && KnowsAll(s, ops)
    && if i == o.moves then Moves(s, ops)
       else if i == o.joins then Joins(s, ops)
       else if i == o.poll then Polls(s, ops)
       else if i == o.packets then forall op :: op in ops ==> Quiet(s.world, op) || IsMovement(op)
       else if i == o.leave then Leaves(s, ops, gone)
       else forall op :: op in ops ==> Quiet(s.world, op)
  }

  /** What it makes of a player's record. */
  function During(o: Order, i: nat, p: Player, chunk: Chunk, gone: set<ClientId>): Player {
    if i == o.moves then UpdateView(p)
    else if i == o.joins then UpdateOnJoin(p)
    else if i == o.packets then HandlePackets(p, chunk)
    else if i == o.leave then p.(leaving := p.client in gone)
    else p
  }

  ghost predicate InOrder(o: Order, s: State) {
    Sane(s) && forall e :: IsPlayer(s.world, e) ==> Tracked(o, s, e)
  }

  lemma {:induction false} LoopSpawnsNothing(query: seq<Entity>, ops: Entity -> seq<Op>)
    requires Own(ops)
    ensures forall op :: op in ForEach(query, ops) ==> !op.Spawn? && !op.InsertEvent?
  {
    if query != [] {
      var front, last := query[..|query| - 1], query[|query| - 1];
      LoopSpawnsNothing(front, ops);
      forall op | op in ForEach(query, ops) ensures !op.Spawn? && !op.InsertEvent? {
        if op !in ForEach(front, ops) { assert op in ops(last) && Concerns(op, last); }
      }
    }
  }

  lemma {:induction false} NobodySpawned(s: State, ops: seq<Op>, e: Entity)
    requires e !in s.world && forall op :: op in ops ==> !op.Spawn? && !op.InsertEvent?
    ensures !IsPlayer(Perform(s, ops).world, e) && e !in Perform(s, ops).world
  {
    if ops != [] {
      var front := ops[..|ops| - 1];
      NobodySpawned(s, front, e);
      assert ops[|front|] in ops;
    }
  }

  /** A player's record after the run, and that it is still tracked. */
  lemma PlayerDuring(o: Order, s: State, i: nat, ops: seq<Op>, gone: set<ClientId>, e: Entity)
    requires o.Valid() && InOrder(o, s) && s.current == i && RunOf(o, s, i, ops, gone) && IsPlayer(s.world, e)
    requires i == o.leave ==> Get(s.world, e, REMOVE).None?
    ensures var t := Perform(s, ops);
      Tracked(o, t, e) && PlayerAt(o, t, e) == During(o, i, PlayerAt(o, s, e), PlayerAt(o, t, e).chunk, gone)
  {
    assert Tracked(o, s, e) && e < s.next;
    if i == o.moves {
      var query :| IsQuery(s.world, query)
        && ops == ForEach(query, SetsView(s.world)) + ForEach(query, TellsOfMove(s.world));
      MovesRun(o, s, query, e);
    } else if i == o.joins {
      var query :| IsQuery(s.world, query) && ops == ForEach(query, TellsOfJoin(s.world));
      JoinsRun(o, s, query, e);
    } else if i == o.poll {
      var arrivals :| (forall a :: a in arrivals ==> Proper(a)) && ops == ForArrivals(Spawns, s.next, arrivals);
      PollRun(o, s, arrivals, ops, Perform(s, ops));
      SameRecord(o, Perform(s, ops), s, e);
    } else if i == o.packets {
      PacketsRun(o, s, ops, e);
    } else if i == o.leave {
      var query :| IsQuery(s.world, query) && ops == ForEach(query, Removes(s.world, gone));
      LeaveRun(o, s, query, gone, e);
    } else {
      QuietRun(o, s, ops, e);
    }
  }

  /** Only the system that polls for new players makes players. */
  lemma StrangerDuring(o: Order, s: State, i: nat, ops: seq<Op>, gone: set<ClientId>, e: Entity)
    requires o.Valid() && InOrder(o, s) && s.current == i && RunOf(o, s, i, ops, gone) && !IsPlayer(s.world, e)
    ensures var t := Perform(s, ops);
      IsPlayer(t.world, e) ==> i == o.poll && e >= s.next && Tracked(o, t, e) && Spawned(PlayerAt(o, t, e))
  {
    TheyAreOwn(s.world, gone);
    if i == o.moves {
      var query :| IsQuery(s.world, query)
        && ops == ForEach(query, SetsView(s.world)) + ForEach(query, TellsOfMove(s.world));
      if e < s.next { MovesRun(o, s, query, e); }
      else {
        LoopSpawnsNothing(query, SetsView(s.world));
        LoopSpawnsNothing(query, TellsOfMove(s.world));
        NobodySpawned(s, ops, e);
      }
    } else if i == o.joins {
      var query :| IsQuery(s.world, query) && ops == ForEach(query, TellsOfJoin(s.world));
      if e < s.next { JoinsRun(o, s, query, e); }
      else {
        LoopSpawnsNothing(query, TellsOfJoin(s.world));
        NobodySpawned(s, ops, e);
      }
    } else if i == o.poll {
      var arrivals :| (forall a :: a in arrivals ==> Proper(a)) && ops == ForArrivals(Spawns, s.next, arrivals);
      PollRun(o, s, arrivals, ops, Perform(s, ops));
      if e < s.next {
        SameRecord(o, Perform(s, ops), s, e);
      } else if e < s.next + |arrivals| {
        assert IsNew(o, Perform(s, ops), s.next + (e - s.next), arrivals[e - s.next]);
      }
    } else if i == o.packets {
      PacketsRun(o, s, ops, e);
    } else if i == o.leave {
      var query :| IsQuery(s.world, query) && ops == ForEach(query, Removes(s.world, gone));
      if e < s.next { LeaveRun(o, s, query, gone, e); }
      else {
        LoopSpawnsNothing(query, Removes(s.world, gone));
        NobodySpawned(s, ops, e);
      }
    } else {
      QuietRun(o, s, ops, e);
    }
  }

  // ----- a run, with what is removed before it -----

  /** The record of an entity, if it is a player. */
  ghost function Record(o: Order, s: State, e: Entity): Option<Player> {
    if Whole(s.world, e) then Some(PlayerAt(o, s, e)) else None
  }

  function ChunkIn(r: Option<Player>): Chunk { if r.Some? then r.value.chunk else Chunk(0, 0) }

  /** What is removed before a run. */
  function Before(o: Order, i: nat, p: Player): Player {
    if i == o.moves then BeforeUpdateViews(p)
    else if i == o.joins then BeforeUpdateOnJoin(p)
    else if i == o.poll then BeforePoll(p)
    else p
  }

  /** What a run makes of a record. */
  function Turned(o: Order, i: nat, r: Option<Player>, chunk: Chunk, gone: set<ClientId>): Option<Player> {
    if r.None? || (i == o.leave && r.value.leaving) then None
    else Some(During(o, i, Before(o, i, r.value), chunk, gone))
  }

  /** In the first tick, when nothing is removed, there are new players only. */
  ghost predicate OnlyNewPlayers(o: Order, s: State, i: nat) {
    forall e :: IsPlayer(s.world, e) ==> i > o.poll && (i <= o.leave ==> Get(s.world, e, REMOVE).None?)
  }

  lemma BeginStranger(s: State, i: nat, isFirstRun: bool, e: Entity)
    requires !IsPlayer(s.world, e)
    ensures !IsPlayer(Begin(s, i, isFirstRun).world, e)
  {
    BeginRemoves(s, i, isFirstRun, e, CLIENT);
  }

  lemma BeginLeaving(o: Order, s: State, e: Entity)
    requires Tracked(o, s, e) && Get(s.world, e, REMOVE).Some?
    ensures !IsPlayer(Begin(s, o.leave, false).world, e)
  {
    BeginRemoves(s, o.leave, false, e, CLIENT);
    assert DespawnEntity(e) in ListOf(s.events, o.leave);
  }

  lemma BeginInOrder(o: Order, s: State, i: nat, isFirstRun: bool)
    requires o.Valid() && InOrder(o, s) && (isFirstRun ==> OnlyNewPlayers(o, s, i))
    ensures InOrder(o, Begin(s, i, isFirstRun))
  {
    var t := Begin(s, i, isFirstRun);
    BeginIsSane(s, i, isFirstRun);
    forall e | IsPlayer(t.world, e) ensures Tracked(o, t, e) {
      if !IsPlayer(s.world, e) {
        BeginStranger(s, i, isFirstRun, e);
      } else if i == o.leave && Get(s.world, e, REMOVE).Some? {
        BeginLeaving(o, s, e);
      } else {
        BeginKeepsTracked(o, s, i, isFirstRun, e);
      }
    }
  }

  lemma BeginRecord(o: Order, s: State, i: nat, isFirstRun: bool, e: Entity)
    requires o.Valid() && InOrder(o, s) && (isFirstRun ==> OnlyNewPlayers(o, s, i))
    ensures var r := Record(o, s, e);
      Record(o, Begin(s, i, isFirstRun), e)
        == if r.None? || (i == o.leave && r.value.leaving) then None else Some(Before(o, i, r.value))
    ensures i == o.leave ==> IsPlayer(Begin(s, i, isFirstRun).world, e) ==>
      Get(Begin(s, i, isFirstRun).world, e, REMOVE).None?
  {
    if !IsPlayer(s.world, e) {
      BeginStranger(s, i, isFirstRun, e);
    } else if i == o.leave && Get(s.world, e, REMOVE).Some? {
      BeginLeaving(o, s, e);
    } else {
      BeginKeepsTracked(o, s, i, isFirstRun, e);
    }
  }

  lemma OneRun(o: Order, s: State, i: nat, isFirstRun: bool, ops: seq<Op>, gone: set<ClientId>, t: State, e: Entity)
    requires o.Valid() && InOrder(o, s) && (isFirstRun ==> OnlyNewPlayers(o, s, i))
    requires RunOf(o, Begin(s, i, isFirstRun), i, ops, gone) && t == Perform(Begin(s, i, isFirstRun), ops)
    ensures i != o.poll || e < s.next ==>
      Record(o, t, e) == Turned(o, i, Record(o, s, e), ChunkIn(Record(o, t, e)), gone)
    ensures i == o.poll && e >= s.next && Record(o, t, e).Some? ==> Spawned(Record(o, t, e).value)
    ensures IsPlayer(t.world, e) ==> Tracked(o, t, e)
  {
    var start := Begin(s, i, isFirstRun);
    BeginInOrder(o, s, i, isFirstRun);
    BeginRecord(o, s, i, isFirstRun, e);
    BeginRemoves(s, i, isFirstRun, e, CLIENT);
    if IsPlayer(start.world, e) {
      PlayerDuring(o, start, i, ops, gone, e);
    } else {
      StrangerDuring(o, start, i, ops, gone, e);
    }
  }

  lemma RunKeepsOrder(o: Order, s: State, i: nat, isFirstRun: bool, ops: seq<Op>, gone: set<ClientId>, t: State)
    requires o.Valid() && InOrder(o, s) && (isFirstRun ==> OnlyNewPlayers(o, s, i))
    requires RunOf(o, Begin(s, i, isFirstRun), i, ops, gone) && t == Perform(Begin(s, i, isFirstRun), ops)
    ensures InOrder(o, t)
  {
    BeginInOrder(o, s, i, isFirstRun);
    PerformIsSane(Begin(s, i, isFirstRun), ops);
    forall e | IsPlayer(t.world, e) ensures Tracked(o, t, e) {
      OneRun(o, s, i, isFirstRun, ops, gone, t, e);
    }
  }

  lemma RunKeepsNew(o: Order, s: State, i: nat, ops: seq<Op>, gone: set<ClientId>, t: State)
    requires o.Valid() && InOrder(o, s) && OnlyNewPlayers(o, s, i)
    requires RunOf(o, Begin(s, i, true), i, ops, gone) && t == Perform(Begin(s, i, true), ops)
    ensures OnlyNewPlayers(o, t, i + 1)
  {
    forall e | IsPlayer(t.world, e)
      ensures i + 1 > o.poll && (i + 1 <= o.leave ==> Get(t.world, e, REMOVE).None?)
    {
      OneRun(o, s, i, true, ops, gone, t, e);
    }
  }

  lemma RunSpawns(s: State, i: nat, isFirstRun: bool, ops: seq<Op>, t: State)
    requires t == Perform(Begin(s, i, isFirstRun), ops)
    ensures s.next <= t.next
  {
    BeginRemoves(s, i, isFirstRun, 0, 0);
    PerformRecords(Begin(s, i, isFirstRun), ops);
  }

  // ----- all runs -----

  /** The states between the runs of all systems, what the systems do, and whose clients turn out to be
    * gone when they are asked for.
    */
  datatype Course = Course(states: nat -> State, script: nat -> seq<Op>, gone: nat -> set<ClientId>)

  /** What the system of run `g` finds. */
  function StartOf(o: Order, c: Course, g: nat): State
    requires o.Valid()
  {
    Begin(c.states(g), Turn(o.n, g), g < o.n)
  }

  /** In run `g` the system whose turn it is does as it may. */
  ghost predicate RunsWell(o: Order, c: Course, g: nat)
    requires o.Valid()
  {
    && c.states(g + 1) == Perform(StartOf(o, c, g), c.script(g))
    && RunOf(o, StartOf(o, c, g), Turn(o.n, g), c.script(g), c.gone(g))
  }

  /** A world that has no players before the first tick, and systems that do as they may in all runs. */
  ghost predicate Behaves(o: Order, c: Course)
    requires o.Valid()
  {
    && Sane(c.states(0)) && (forall e :: !IsPlayer(c.states(0).world, e))
    && (forall g: nat :: RunsWell(o, c, g))
  }

  lemma NextInOrder(o: Order, c: Course, g: nat, before: State, after: State, i: nat)
    requires o.Valid() && RunsWell(o, c, g)
    requires before == c.states(g) && after == c.states(g + 1) && i == Turn(o.n, g)
    requires InOrder(o, before) && (g < o.n ==> OnlyNewPlayers(o, before, i))
    ensures InOrder(o, after) && (g < o.n ==> OnlyNewPlayers(o, after, i + 1))
  {
    RunKeepsOrder(o, before, i, g < o.n, c.script(g), c.gone(g), after);
    if g < o.n {
      RunKeepsNew(o, before, i, c.script(g), c.gone(g), after);
    }
  }

  /** Players are in order when run `g` begins. */
  ghost predicate InOrderAt(o: Order, c: Course, g: nat)
    requires o.Valid()
  {
    InOrder(o, c.states(g)) && (g < o.n ==> OnlyNewPlayers(o, c.states(g), Turn(o.n, g)))
  }

  lemma StaysInOrder(o: Order, c: Course, g: nat)
    requires o.Valid() && Behaves(o, c) && InOrderAt(o, c, g)
    ensures InOrderAt(o, c, g + 1)
  {
    assert RunsWell(o, c, g);
    NextInOrder(o, c, g, c.states(g), c.states(g + 1), Turn(o.n, g));
  }

  lemma {:induction false} AlwaysInOrder(o: Order, c: Course, g: nat)
    requires o.Valid() && Behaves(o, c)
    ensures InOrderAt(o, c, g)
  {
    if g > 0 {
      AlwaysInOrder(o, c, g - 1);
      StaysInOrder(o, c, g - 1);
    }
  }

  /** The record of an entity after each number of runs. */
  ghost function Records(o: Order, c: Course, e: Entity): nat -> Option<Player> {
    (g: nat) => Record(o, c.states(g), e)
  }

  /** Run `g` of system `i` makes of a record what it should. */
  ghost predicate Follows(o: Order, records: nat -> Option<Player>, gone: nat -> set<ClientId>, g: nat, i: nat) {
    records(g + 1) == Turned(o, i, records(g), ChunkIn(records(g + 1)), gone(g))
  }

  /** One run in a whole run of all systems. */
  lemma RecordTurns(o: Order, c: Course, g: nat, i: nat, e: Entity)
    requires o.Valid() && Behaves(o, c) && Turn(o.n, g) == i
    ensures i != o.poll || e < c.states(g).next ==> Follows(o, Records(o, c, e), c.gone, g, i)
    ensures i == o.poll && e >= c.states(g).next && Records(o, c, e)(g + 1).Some? ==>
      Spawned(Records(o, c, e)(g + 1).value)
  {
    AlwaysInOrder(o, c, g);
    assert RunsWell(o, c, g);
    OneRun(o, c.states(g), i, g < o.n, c.script(g), c.gone(g), c.states(g + 1), e);
  }

  lemma {:induction false} StaysSpawned(o: Order, c: Course, g: nat, h: nat)
    requires o.Valid() && Behaves(o, c) && g <= h
    ensures c.states(g).next <= c.states(h).next
    decreases h
  {
    if g < h {
      StaysSpawned(o, c, g, h - 1);
      assert RunsWell(o, c, h - 1);
      RunSpawns(c.states(h - 1), Turn(o.n, h - 1), h - 1 < o.n, c.script(h - 1), c.states(h));
    }
  }

  // ----- ticks -----

  /** The record of a player within a tick: when `i` systems have had their turns since the one with
    * number `from`, and the one that handles leaving players is not among them.
    */
  function Stage(o: Order, from: nat, i: nat, p: Player, chunk: Chunk): Player {
    var moved := if from <= o.moves < i then UpdateView(BeforeUpdateViews(p)) else p;
    var joined := if from <= o.joins < i then UpdateOnJoin(BeforeUpdateOnJoin(moved)) else moved;
    var polled := if from <= o.poll < i then BeforePoll(joined) else joined;
    if from <= o.packets < i then HandlePackets(polled, chunk) else polled
  }

  function StageOf(o: Order, from: nat, i: nat, r: Option<Player>, chunk: Chunk, gone: set<ClientId>): Option<Player> {
    if r.None? then None
    else
      var p := Stage(o, from, i, r.value, chunk);
      if i <= o.leave then Some(p) else if p.leaving then None else Some(p.(leaving := p.client in gone))
  }

  lemma StageTurns(o: Order, from: nat, i: nat, r: Option<Player>, chunk: Chunk, gone: set<ClientId>, chunk': Chunk)
    requires o.Valid() && from <= i && from <= o.leave && (i == o.packets ==> chunk' == chunk)
    ensures StageOf(o, from, i + 1, r, chunk, gone) == Turned(o, i, StageOf(o, from, i, r, chunk, gone), chunk', gone)
  {
  }

  predicate HasTurn(n: nat, b: nat, i: nat)
    requires n > 0
  {
    Turn(n, b + i) == i
  }

  /** In the tick that begins with run `b`, system `j` has its turn, and does what it should. */
  ghost predicate TurnIn(o: Order, records: nat -> Option<Player>, gone: nat -> set<ClientId>, b: nat, j: nat)
    requires o.Valid()
  {
    HasTurn(o.n, b, j) && Follows(o, records, gone, b + j, j)
  }

  lemma {:induction false} StagesOf(o: Order, records: nat -> Option<Player>, gone: nat -> set<ClientId>,
                                    b: nat, from: nat, i: nat)
    requires o.Valid() && from <= i <= o.n && from <= o.leave
    requires forall j: nat :: from <= j < i ==> TurnIn(o, records, gone, b, j)
    ensures records(b + i)
         == StageOf(o, from, i, records(b + from), ChunkIn(records(b + o.packets + 1)), gone(b + o.leave))
    decreases i
  {
    if i > from {
      var chunk := ChunkIn(records(b + o.packets + 1));
      StagesOf(o, records, gone, b, from, i - 1);
      assert TurnIn(o, records, gone, b, i - 1);
      StageTurns(o, from, i - 1, records(b + from), chunk, gone(b + o.leave), ChunkIn(records(b + i)));
    }
  }

  lemma TickFollows(o: Order, c: Course, b: nat, j: nat, e: Entity)
    requires o.Valid() && Behaves(o, c) && HasTurn(o.n, b, j) && (j != o.poll || e < c.states(b + j).next)
    ensures TurnIn(o, Records(o, c, e), c.gone, b, j)
  {
    RecordTurns(o, c, b + j, j, e);
  }

  ghost predicate TickBegins(o: Order, b: nat)
    requires o.Valid()
  {
    forall j: nat :: j < o.n ==> HasTurn(o.n, b, j)
  }

  /** The first run of tick `t`. */
  function FirstRun(n: nat, t: nat): nat {
    if t == 0 then 0 else FirstRun(n, t - 1) + n
  }

  lemma {:induction false} TicksBegin(o: Order, t: nat)
    requires o.Valid()
    ensures TickBegins(o, FirstRun(o.n, t))
  {
    if t > 0 {
      TicksBegin(o, t - 1);
      forall j: nat | j < o.n ensures HasTurn(o.n, FirstRun(o.n, t), j) {
        assert HasTurn(o.n, FirstRun(o.n, t - 1), j);
        assert FirstRun(o.n, t) + j == FirstRun(o.n, t - 1) + j + o.n;
      }
    }
  }

  /** From any turn in a tick on, if the entity is there or no new players can come. */
  lemma TickStage(o: Order, c: Course, b: nat, from: nat, i: nat, e: Entity)
    requires o.Valid() && Behaves(o, c) && TickBegins(o, b)
    requires from <= i <= o.n && from <= o.leave
    requires from > o.poll || i <= o.poll || e < c.states(b + from).next
    ensures var records := Records(o, c, e);
      records(b + i) == StageOf(o, from, i, records(b + from), ChunkIn(records(b + o.packets + 1)), c.gone(b + o.leave))
  {
    forall j: nat | from <= j < i ensures TurnIn(o, Records(o, c, e), c.gone, b, j) {
      StaysSpawned(o, c, b + from, b + j);
      TickFollows(o, c, b, j, e);
    }
    StagesOf(o, Records(o, c, e), c.gone, b, from, i);
  }

  /** What a tick makes of an entity that is a player at its beginning. */
  lemma TickOfOld(o: Order, c: Course, b: nat, e: Entity)
    requires o.Valid() && Behaves(o, c) && TickBegins(o, b) && Record(o, c.states(b), e).Some?
    ensures var chunk := ChunkIn(Record(o, c.states(b + o.packets + 1), e));
      var p := UntilSubscribe(Record(o, c.states(b), e).value, chunk);
      && e < c.states(b).next <= c.states(b + o.poll).next
      && Record(o, c.states(b + o.packets + 1), e).Some?
      && Record(o, c.states(b + o.subscribe), e) == Some(p)
      && Record(o, c.states(b + o.n), e)
         == if p.leaving then None else Some(p.(leaving := p.client in c.gone(b + o.leave)))
  {
    AlwaysInOrder(o, c, b);
    StaysSpawned(o, c, b, b + o.poll);
    TickStage(o, c, b, 0, o.packets + 1, e);
    TickStage(o, c, b, 0, o.subscribe, e);
    TickStage(o, c, b, 0, o.n, e);
  }

  lemma PolledOther(o: Order, c: Course, b: nat, e: Entity)
    requires o.Valid() && Behaves(o, c) && TickBegins(o, b) && Record(o, c.states(b), e).None?
    ensures var r := Record(o, c.states(b + o.poll + 1), e);
      r.Some? ==> Spawned(r.value) && e >= c.states(b + o.poll).next
  {
    TickStage(o, c, b, 0, o.poll, e);
    assert HasTurn(o.n, b, o.poll);
    RecordTurns(o, c, b + o.poll, o.poll, e);
  }

  /** And of any other: it is a player afterwards if one has been spawned as this entity in this tick. */
  lemma TickOfOther(o: Order, c: Course, b: nat, e: Entity)
    requires o.Valid() && Behaves(o, c) && TickBegins(o, b) && Record(o, c.states(b), e).None?
    ensures var r, chunk := Record(o, c.states(b + o.poll + 1), e), ChunkIn(Record(o, c.states(b + o.packets + 1), e));
      && (r.Some? ==> Spawned(r.value) && e >= c.states(b + o.poll).next)
      && (r.Some? <==> Record(o, c.states(b + o.packets + 1), e).Some?)
      && Record(o, c.states(b + o.subscribe), e) == (if r.None? then None else Some(HandlePackets(r.value, chunk)))
      && Record(o, c.states(b + o.n), e)
         == if r.None? then None
            else var p := HandlePackets(r.value, chunk); Some(p.(leaving := p.client in c.gone(b + o.leave)))
  {
    PolledOther(o, c, b, e);
    TickStage(o, c, b, o.poll + 1, o.packets + 1, e);
    TickStage(o, c, b, o.poll + 1, o.subscribe, e);
    TickStage(o, c, b, o.poll + 1, o.n, e);
  }

  // ----- all players -----

  ghost function PlayersOf(o: Order, s: State): P.Roster {
    map e | e in s.world && Whole(s.world, e) :: PlayerAt(o, s, e)
  }

  /** What happens in the tick that begins with run `b`, as the server has it. */
  ghost function InputsOf(o: Order, c: Course, b: nat): P.Inputs {
    var polled, handled := PlayersOf(o, c.states(b + o.poll + 1)), PlayersOf(o, c.states(b + o.packets + 1));
    P.Inputs(map e | e in handled :: handled[e].chunk,
             map e | e in polled && e >= c.states(b + o.poll).next :: polled[e],
             c.gone(b + o.leave))
  }

  lemma RecordIn(o: Order, s: State, e: Entity)
    ensures e in PlayersOf(o, s) <==> Record(o, s, e).Some?
    ensures e in PlayersOf(o, s) ==> PlayersOf(o, s)[e] == Record(o, s, e).value
  {
  }

  lemma InputsIn(o: Order, c: Course, b: nat, e: Entity)
    ensures var i, r := InputsOf(o, c, b), Record(o, c.states(b + o.poll + 1), e);
      && (e in i.arrivals <==> r.Some? && e >= c.states(b + o.poll).next)
      && (e in i.arrivals ==> i.arrivals[e] == r.value)
    ensures var i, r := InputsOf(o, c, b), Record(o, c.states(b + o.packets + 1), e);
      (e in i.chunks <==> r.Some?) && (e in i.chunks ==> i.chunks[e] == r.value.chunk)
  {
    RecordIn(o, c.states(b + o.poll + 1), e);
    RecordIn(o, c.states(b + o.packets + 1), e);
  }

  lemma MidOf(players: P.Roster, i: P.Inputs, e: Entity, mid: P.Roster)
    requires mid == P.AtSubscribe(players, i)
    ensures e in mid <==> e in players || e in i.arrivals
    ensures e in i.chunks && e in i.arrivals ==> mid[e] == HandlePackets(i.arrivals[e], i.chunks[e])
    ensures e in i.chunks && e in players && e !in i.arrivals ==> mid[e] == UntilSubscribe(players[e], i.chunks[e])
  {
  }

  /** A player of the tick's middle is an old one or a new one. */
  lemma AtSubscribeIs(o: Order, c: Course, b: nat, mid: P.Roster, e: Entity)
    requires o.Valid() && Behaves(o, c) && TickBegins(o, b)
    requires mid == P.AtSubscribe(PlayersOf(o, c.states(b)), InputsOf(o, c, b))
    ensures e in mid <==> Record(o, c.states(b + o.subscribe), e).Some?
    ensures e in mid ==> mid[e] == Record(o, c.states(b + o.subscribe), e).value
  {
    RecordIn(o, c.states(b), e);
    InputsIn(o, c, b, e);
    MidOf(PlayersOf(o, c.states(b)), InputsOf(o, c, b), e, mid);
    if Record(o, c.states(b), e).Some? {
      TickOfOld(o, c, b, e);
    } else {
      TickOfOther(o, c, b, e);
    }
  }

  lemma EndOf(players: P.Roster, i: P.Inputs, mid: P.Roster, end: P.Roster, e: Entity)
    requires mid == P.AtSubscribe(players, i) && end == P.AtEnd(players, i)
    ensures e in end <==> e in mid && !mid[e].leaving
    ensures e in end ==> end[e] == mid[e].(leaving := mid[e].client in i.gone)
  {
  }

  lemma AtEndIs(o: Order, c: Course, b: nat, end: P.Roster, e: Entity)
    requires o.Valid() && Behaves(o, c) && TickBegins(o, b)
    requires end == P.AtEnd(PlayersOf(o, c.states(b)), InputsOf(o, c, b))
    ensures e in end <==> Record(o, c.states(b + o.n), e).Some?
    ensures e in end ==> end[e] == Record(o, c.states(b + o.n), e).value
  {
    var players, i := PlayersOf(o, c.states(b)), InputsOf(o, c, b);
    var mid := P.AtSubscribe(players, i);
    AtSubscribeIs(o, c, b, mid, e);
    EndOf(players, i, mid, end, e);
    assert i.gone == c.gone(b + o.leave);
    if Record(o, c.states(b), e).Some? {
      TickOfOld(o, c, b, e);
    } else {
      TickOfOther(o, c, b, e);
    }
  }

  lemma SameRoster(o: Order, s: State, players: P.Roster)
    requires forall e :: e in players <==> Record(o, s, e).Some?
    requires forall e :: e in players ==> players[e] == Record(o, s, e).value
    ensures PlayersOf(o, s) == players
  {
    forall e ensures e in PlayersOf(o, s) <==> e in players { RecordIn(o, s, e); }
    forall e | e in players ensures PlayersOf(o, s)[e] == players[e] { RecordIn(o, s, e); }
  }

  /** The simulation: one tick of all systems makes of the players' entities, their components and the
    * lists of the event tracker, what one tick of the server makes of their records: up to the
    * subscription system,
    */
  lemma MidIsServers(o: Order, c: Course, b: nat)
    requires o.Valid() && Behaves(o, c) && TickBegins(o, b)
    ensures PlayersOf(o, c.states(b + o.subscribe)) == P.AtSubscribe(PlayersOf(o, c.states(b)), InputsOf(o, c, b))
  {
    var mid := P.AtSubscribe(PlayersOf(o, c.states(b)), InputsOf(o, c, b));
    forall e
      ensures e in mid <==> Record(o, c.states(b + o.subscribe), e).Some?
      ensures e in mid ==> mid[e] == Record(o, c.states(b + o.subscribe), e).value
    {
      AtSubscribeIs(o, c, b, mid, e);
    }
    SameRoster(o, c.states(b + o.subscribe), mid);
  }

  /** and up to its end. */
  lemma TickIsServers(o: Order, c: Course, b: nat, end: P.Roster)
    requires o.Valid() && Behaves(o, c) && TickBegins(o, b)
    requires end == P.AtEnd(PlayersOf(o, c.states(b)), InputsOf(o, c, b))
    ensures PlayersOf(o, c.states(b + o.n)) == end
  {
    forall e
      ensures e in end <==> Record(o, c.states(b + o.n), e).Some?
      ensures e in end ==> end[e] == Record(o, c.states(b + o.n), e).value
    {
      AtEndIs(o, c, b, end, e);
    }
    SameRoster(o, c.states(b + o.n), end);
  }

  lemma NoneAtFirst(o: Order, c: Course)
    requires o.Valid() && Behaves(o, c)
    ensures PlayersOf(o, c.states(0)) == map[]
  {
    assert forall e :: Whole(c.states(0).world, e) ==> IsPlayer(c.states(0).world, e);
  }

  /** What happens in each tick, as the server has it. */
  ghost predicate Gets(o: Order, c: Course, inputs: seq<P.Inputs>) {
    forall t :: 0 <= t < |inputs| ==> inputs[t] == InputsOf(o, c, FirstRun(o.n, t))
  }

  lemma PlayersStep(run: seq<P.State>, inputs: seq<P.Inputs>, k: nat)
    requires P.Run(run, inputs) && k < |inputs|
    ensures run[k + 1].players == P.AtEnd(run[k].players, inputs[k])
  {
    assert P.StepAt(run, inputs, k);
  }

  lemma NextHasPlayers(o: Order, c: Course, b: nat, next: nat, before: P.Roster, i: P.Inputs, after: P.Roster)
    requires o.Valid() && Behaves(o, c) && TickBegins(o, b) && next == b + o.n
    requires before == PlayersOf(o, c.states(b)) && i == InputsOf(o, c, b) && after == P.AtEnd(before, i)
    ensures after == PlayersOf(o, c.states(next))
  {
    TickIsServers(o, c, b, after);
  }

  /** So the players of a server whose inputs are those of the entity-component system are the players
    * of the entity-component system, after every tick.
    */
  lemma {:induction false} ServerHasItsPlayers(o: Order, c: Course, run: seq<P.State>, inputs: seq<P.Inputs>, k: nat)
    requires o.Valid() && Behaves(o, c) && P.Run(run, inputs) && Gets(o, c, inputs) && k < |run|
    ensures run[k].players == PlayersOf(o, c.states(FirstRun(o.n, k)))
  {
    if k == 0 {
      NoneAtFirst(o, c);
    } else {
      ServerHasItsPlayers(o, c, run, inputs, k - 1);
      PlayersStep(run, inputs, k - 1);
      TicksBegin(o, k - 1);
      NextHasPlayers(o, c, FirstRun(o.n, k - 1), FirstRun(o.n, k), run[k - 1].players, inputs[k - 1], run[k].players);
    }
  }

  /** Main result on subscriptions, for whole runs of the entity-component system with any number of
    * systems: between any two ticks the client of a player that is older than a tick is in the lists
    * of exactly the chunks in the view that its entity has, once in each, if and only if neither the
    * player nor any earlier holder of its client's number changed chunks between its first two ticks
    * while it saw anything.
    */
  lemma SubscribedIff(o: Order, c: Course, run: seq<P.State>, inputs: seq<P.Inputs>, k: nat, e: Entity)
    requires o.Valid() && Behaves(o, c) && P.Run(run, inputs) && Gets(o, c, inputs) && k < |run|
    requires Whole(c.states(FirstRun(o.n, k)).world, e)
    ensures e in run[k].lives
    ensures var w, life := c.states(FirstRun(o.n, k)).world, run[k].lives[e];
      var client, view := Get(w, e, CLIENT).value.client, Get(w, e, VIEW).value.view;
      life.moves != [] ==>
        (Agrees(P.CountsOf(run[k].index, client), view) <==> Clean(life) && AllClean(P.PastOf(run[k].past, client)))
  {
    ServerHasItsPlayers(o, c, run, inputs, k);
    RecordIn(o, c.states(FirstRun(o.n, k)), e);
    P.SubscribedIff(run, inputs, k, e);
  }

  // ----- the runs of the executor -----

  /** The runs of the entity-component system, from a state before the first tick. */
  function CourseOf(o: Order, s: State, script: nat -> seq<Op>, gone: nat -> set<ClientId>): Course
    requires o.Valid()
  {
    Course((g: nat) => EcsModel.After(o.n, s, Performing(script), g), script, gone)
  }

  ghost predicate PerformsWell(o: Order, s: State, script: nat -> seq<Op>, gone: nat -> set<ClientId>, g: nat)
    requires o.Valid()
  {
    RunOf(o, Start(o.n, s, Performing(script), g), Turn(o.n, g), script(g), gone(g))
  }

  /** They behave if there are no players before the first tick and every system does as it may. */
  lemma RunsBehave(o: Order, s: State, script: nat -> seq<Op>, gone: nat -> set<ClientId>)
    requires o.Valid() && Sane(s) && forall e :: !IsPlayer(s.world, e)
    requires forall g: nat :: PerformsWell(o, s, script, gone, g)
    ensures Behaves(o, CourseOf(o, s, script, gone))
  {
    var c, does := CourseOf(o, s, script, gone), Performing(script);
    forall g: nat ensures RunsWell(o, c, g) {
      assert PerformsWell(o, s, script, gone, g);
      assert StartOf(o, c, g) == Start(o.n, s, does, g);
      assert EcsModel.After(o.n, s, does, g + 1) == does(g, Start(o.n, s, does, g));
    }
  }
}
