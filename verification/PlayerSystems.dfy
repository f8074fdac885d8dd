/** The systems that look after players, as systems of the entity-component system: what they do to
  * entities, and that a player's record is what its entity and the lists of the event tracker say.
  */
module PlayerSystems {
  import opened Components
  import opened Options
  import opened Views
  import opened EcsModel
  import opened EventRuns
  import opened EventLaws
  import opened Subscribers

  // ----- kinds of components -----

  const CLIENT: Kind := 0
  const POSITION: Kind := 1
  const VIEW: Kind := 2
  const UPDATE: Kind := 3
  const JOIN: Kind := 4
  const REMOVE: Kind := 5
  const CREATE: Kind := 6

  /** The kinds that a player's record is made of. */
  predicate IsOurs(kind: Kind) { kind <= REMOVE }

  /** Where the systems that have to do with players stand among all `n` systems. */
  datatype Order = Order(n: nat, moves: nat, joins: nat, poll: nat, packets: nat, subscribe: nat, leave: nat) {
    predicate Valid() { moves < joins < poll < packets < subscribe < leave < n }
  }

  // ----- a player's record -----

  predicate IsPlayer(w: World, e: Entity) { Get(w, e, CLIENT).Some? }

  /** A player's components hold what they should. */
  predicate Whole(w: World, e: Entity) {
    && (Get(w, e, CLIENT).Some? && Get(w, e, CLIENT).value.OfClient?)
    && (Get(w, e, POSITION).Some? && Get(w, e, POSITION).value.InChunk?)
    && (Get(w, e, VIEW).Some? && Get(w, e, VIEW).value.Viewing?)
    && (Get(w, e, UPDATE).Some? ==> Get(w, e, UPDATE).value.Changing?)
  }

  ghost predicate Lists(s: State, i: nat, e: Entity, kind: Kind) {
    RemoveComponent(e, kind) in ListOf(s.events, i)
  }

  /** The record of a player: its components, and whether the lists of the two systems that insert
    * view updates have one of its.
    */
  ghost function PlayerAt(o: Order, s: State, e: Entity): Player
    requires Whole(s.world, e)
  {
    var update := Get(s.world, e, UPDATE);
    Player(Get(s.world, e, CLIENT).value.client,
           Get(s.world, e, POSITION).value.chunk, Get(s.world, e, VIEW).value.view,
           if update.Some? then Some(update.value.update) else None,
           Get(s.world, e, JOIN).Some?, Get(s.world, e, REMOVE).Some?,
           Lists(s, o.moves, e, UPDATE), Lists(s, o.joins, e, UPDATE))
  }

  /** Events about a player are in the lists of the systems that insert them, and in no others. */
  ghost predicate InOwnLists(o: Order, s: State, e: Entity) {
    && (forall i: nat, kind :: IsOurs(kind) && Lists(s, i, e, kind) ==>
          || (kind == UPDATE && (i == o.moves || i == o.joins))
          || (kind == JOIN && i == o.poll)
          || (kind == REMOVE && i == o.leave))
    && (Get(s.world, e, JOIN).Some? ==> Lists(s, o.poll, e, JOIN))
  }

  /** And so is the player's entity, if it is leaving. */
  ghost predicate Tracked(o: Order, s: State, e: Entity) {
    && Whole(s.world, e)
    && InOwnLists(o, s, e)
    && (forall i: nat :: DespawnEntity(e) in ListOf(s.events, i) <==> i == o.leave && Get(s.world, e, REMOVE).Some?)
  }

  // ----- before a run -----

  lemma BeginKeepsTracked(o: Order, s: State, i: nat, isFirstRun: bool, e: Entity)
    requires o.Valid() && Tracked(o, s, e) && (i == o.leave ==> Get(s.world, e, REMOVE).None?)
    requires isFirstRun ==> i > o.poll
    ensures Tracked(o, Begin(s, i, isFirstRun), e)
    ensures PlayerAt(o, Begin(s, i, isFirstRun), e)
         == var p := PlayerAt(o, s, e);
            if i == o.moves then BeforeUpdateViews(p)
            else if i == o.joins then BeforeUpdateOnJoin(p)
            else if i == o.poll then BeforePoll(p)
            else p
  {
    var t := Begin(s, i, isFirstRun);
    forall kind ensures Get(t.world, e, kind)
      == if !isFirstRun && Lists(s, i, e, kind) then None else Get(s.world, e, kind)
    {
      BeginRemoves(s, i, isFirstRun, e, kind);
    }
    BeginLists(s, i, isFirstRun);
    assert forall j: nat, kind :: Lists(t, j, e, kind) ==> Lists(s, j, e, kind);
  }

  lemma BeginLists(s: State, i: nat, isFirstRun: bool)
    ensures var t := Begin(s, i, isFirstRun);
      && ListOf(t.events, i) == (if isFirstRun then ListOf(s.events, i) else [])
      && (forall j: nat :: j != i ==> ListOf(t.events, j) == ListOf(s.events, j))
  {
    if !isFirstRun { DrainedLists(s.events, i); }
  }

  // ----- operations, seen from one entity -----

  predicate Concerns(op: Op, e: Entity) { !op.InsertEvent? && !op.Spawn? && op.entity == e }

  /** Two states that do not differ in what they say about an entity. */
  ghost predicate SameFor(s: State, t: State, e: Entity) {
    && s.current == t.current
    && (e in s.world <==> e in t.world) && (e in s.world ==> s.world[e] == t.world[e])
    && (forall i: nat, r: Removal :: r.entity == e ==> (r in ListOf(s.events, i) <==> r in ListOf(t.events, i)))
  }

  lemma ApplyToOthers(s: State, op: Op, e: Entity)
    requires e < s.next && !Concerns(op, e)
    ensures SameFor(Apply(s, op), s, e)
  {
    ApplyRecords(s, op);
  }

  lemma ApplyAlike(s: State, t: State, op: Op, e: Entity)
    requires SameFor(s, t, e) && Concerns(op, e)
    ensures SameFor(Apply(s, op), Apply(t, op), e)
  {
    ApplyRecords(s, op);
    ApplyRecords(t, op);
  }

  lemma {:induction false} PerformOnOthers(s: State, ops: seq<Op>, e: Entity)
    requires e < s.next && forall op :: op in ops ==> !Concerns(op, e)
    ensures SameFor(Perform(s, ops), s, e) && e < Perform(s, ops).next
  {
    if ops != [] {
      var front := ops[..|ops| - 1];
      PerformOnOthers(s, front, e);
      ApplyToOthers(Perform(s, front), ops[|front|], e);
      PerformRecords(s, ops);
    }
  }

  lemma {:induction false} PerformAlike(s: State, t: State, ops: seq<Op>, e: Entity)
    requires SameFor(s, t, e) && forall op :: op in ops ==> Concerns(op, e)
    ensures SameFor(Perform(s, ops), Perform(t, ops), e)
  {
    if ops != [] {
      var front := ops[..|ops| - 1];
      PerformAlike(s, t, front, e);
      ApplyAlike(Perform(s, front), Perform(t, front), ops[|front|], e);
    }
  }

  /** A loop over what a query finds. */
  ghost function ForEach(query: seq<Entity>, ops: Entity -> seq<Op>): seq<Op> {
    if query == [] then [] else ForEach(query[..|query| - 1], ops) + ops(query[|query| - 1])
  }

  ghost predicate Own(ops: Entity -> seq<Op>) {
    forall e, op :: op in ops(e) ==> Concerns(op, e)
  }

  ghost predicate EachOnce(query: seq<Entity>) {
    forall j, k :: 0 <= j < k < |query| ==> query[j] != query[k]
  }

  /** For an entity that the query finds, the loop does what is done for that entity. */
  lemma {:induction false} LoopDoes(s: State, query: seq<Entity>, ops: Entity -> seq<Op>, e: Entity)
    requires Own(ops) && EachOnce(query) && e < s.next
    ensures SameFor(Perform(s, ForEach(query, ops)), Perform(s, if e in query then ops(e) else []), e)
    ensures e < Perform(s, ForEach(query, ops)).next
  {
    if query != [] {
      var front, last := query[..|query| - 1], query[|query| - 1];
      var mid := Perform(s, ForEach(front, ops));
      LoopDoes(s, front, ops, e);
      PerformInParts(s, ForEach(front, ops), ops(last));
      PerformRecords(mid, ops(last));
      if last == e {
        assert e !in front;
        PerformAlike(mid, s, ops(e), e);
      } else {
        assert e in query <==> e in front;
        PerformOnOthers(mid, ops(last), e);
      }
    }
  }

  lemma SameRecord(o: Order, s: State, t: State, e: Entity)
    requires SameFor(s, t, e)
    ensures Whole(s.world, e) <==> Whole(t.world, e)
    ensures Tracked(o, s, e) <==> Tracked(o, t, e)
    ensures Whole(s.world, e) ==> PlayerAt(o, t, e) == PlayerAt(o, s, e)
    ensures IsPlayer(s.world, e) <==> IsPlayer(t.world, e)
  {
    assert forall kind :: Get(s.world, e, kind) == Get(t.world, e, kind);
    assert forall i: nat, kind :: Lists(s, i, e, kind) <==> Lists(t, i, e, kind);
  }

  // ----- what the systems do -----

  predicate HasMoved(w: World, e: Entity) {
    Whole(w, e) && Get(w, e, POSITION).value.chunk != Get(w, e, VIEW).value.view.center
  }

  function NewView(w: World, e: Entity): View
    requires Whole(w, e)
  {
    View(Get(w, e, POSITION).value.chunk, Get(w, e, VIEW).value.view.distance)
  }

  function SetsView(w: World): Entity -> seq<Op> {
    (e: Entity) => if HasMoved(w, e) then [Insert(e, VIEW, Viewing(NewView(w, e)))] else []
  }

  function TellsOfMove(w: World): Entity -> seq<Op> {
    (e: Entity) =>
      if HasMoved(w, e)
      then [InsertEntityEvent(e, UPDATE, Changing(ViewUpdate(Get(w, e, VIEW).value.view, NewView(w, e))))]
      else []
  }

  function TellsOfJoin(w: World): Entity -> seq<Op> {
    (e: Entity) =>
      if Whole(w, e) && Get(w, e, JOIN).Some?
      then [InsertEntityEvent(e, UPDATE, Changing(ViewUpdate(EMPTY_VIEW, Get(w, e, VIEW).value.view)))]
      else []
  }

  function Removes(w: World, gone: set<ClientId>): Entity -> seq<Op> {
    (e: Entity) =>
      if Whole(w, e) && Get(w, e, CLIENT).value.client in gone
      then [DeferDespawn(e), InsertEntityEvent(e, REMOVE, Happened)]
      else []
  }

  lemma TheyAreOwn(w: World, gone: set<ClientId>)
    ensures Own(SetsView(w)) && Own(TellsOfMove(w)) && Own(TellsOfJoin(w)) && Own(Removes(w, gone))
  {
  }

  /** The players, each once, in any order. */
  ghost predicate IsQuery(w: World, query: seq<Entity>) {
    EachOnce(query) && forall e :: e in query <==> IsPlayer(w, e)
  }

  /** What an event of a player changes about its entity. */
  ghost predicate Told(s: State, t: State, e: Entity, kind: Kind, value: Value) {
    && s.current == t.current
    && (forall k :: Get(t.world, e, k) == if k == kind then Some(value) else Get(s.world, e, k))
    && (forall i: nat, k :: Lists(t, i, e, k) <==> Lists(s, i, e, k) || (i == s.current && k == kind))
    && (forall i: nat :: DespawnEntity(e) in ListOf(t.events, i) <==> DespawnEntity(e) in ListOf(s.events, i))
  }

  lemma Tell(s: State, e: Entity, kind: Kind, value: Value)
    requires e in s.world
    ensures Told(s, Perform(s, [InsertEntityEvent(e, kind, value)]), e, kind, value)
  {
    PerformOne(s, InsertEntityEvent(e, kind, value));
    ApplyRecords(s, InsertEntityEvent(e, kind, value));
  }

  lemma UpdateIsTracked(o: Order, s: State, t: State, e: Entity, u: ViewUpdate)
    requires o.Valid() && Tracked(o, s, e) && (s.current == o.moves || s.current == o.joins)
    requires Told(s, t, e, UPDATE, Changing(u))
    ensures Tracked(o, t, e)
    ensures PlayerAt(o, t, e) == if s.current == o.moves
                                 then PlayerAt(o, s, e).(update := Some(u), inListOfMoves := true)
                                 else PlayerAt(o, s, e).(update := Some(u), inListOfJoins := true)
  {
    assert forall i: nat, k :: Lists(t, i, e, k) ==> Lists(s, i, e, k) || (i == s.current && k == UPDATE);
  }

  lemma SetView(o: Order, s: State, e: Entity, v: View)
    requires Tracked(o, s, e)
    ensures var t := Perform(s, [Insert(e, VIEW, Viewing(v))]);
      Tracked(o, t, e) && t.current == s.current && PlayerAt(o, t, e) == PlayerAt(o, s, e).(view := v)
  {
    PerformOne(s, Insert(e, VIEW, Viewing(v)));
    var t := Apply(s, Insert(e, VIEW, Viewing(v)));
    assert forall k :: k != VIEW ==> Get(t.world, e, k) == Get(s.world, e, k);
    assert forall i: nat, k :: Lists(t, i, e, k) <==> Lists(s, i, e, k);
  }

  lemma MoveOfOne(o: Order, s: State, e: Entity)
    requires o.Valid() && s.current == o.moves && Tracked(o, s, e)
    ensures var t := Perform(Perform(s, SetsView(s.world)(e)), TellsOfMove(s.world)(e));
      Tracked(o, t, e) && PlayerAt(o, t, e) == UpdateView(PlayerAt(o, s, e))
  {
    if HasMoved(s.world, e) {
      var v := NewView(s.world, e);
      var u := ViewUpdate(Get(s.world, e, VIEW).value.view, v);
      SetView(o, s, e, v);
      var mid := Perform(s, [Insert(e, VIEW, Viewing(v))]);
      Tell(mid, e, UPDATE, Changing(u));
      UpdateIsTracked(o, mid, Perform(mid, [InsertEntityEvent(e, UPDATE, Changing(u))]), e, u);
    }
  }

  lemma JoinOfOne(o: Order, s: State, e: Entity)
    requires o.Valid() && s.current == o.joins && Tracked(o, s, e)
    ensures var t := Perform(s, TellsOfJoin(s.world)(e));
      Tracked(o, t, e) && PlayerAt(o, t, e) == UpdateOnJoin(PlayerAt(o, s, e))
  {
    if Get(s.world, e, JOIN).Some? {
      var u := ViewUpdate(EMPTY_VIEW, Get(s.world, e, VIEW).value.view);
      Tell(s, e, UPDATE, Changing(u));
      UpdateIsTracked(o, s, Perform(s, [InsertEntityEvent(e, UPDATE, Changing(u))]), e, u);
    }
  }

  lemma RemovalIsTracked(o: Order, s: State, t: State, e: Entity)
    requires o.Valid() && s.current == o.leave && Whole(s.world, e) && InOwnLists(o, s, e)
    requires forall i: nat :: DespawnEntity(e) in ListOf(s.events, i) <==> i == o.leave
    requires Told(s, t, e, REMOVE, Happened)
    ensures Tracked(o, t, e) && PlayerAt(o, t, e) == PlayerAt(o, s, e).(leaving := true)
  {
    assert forall i: nat, k :: Lists(t, i, e, k) ==> Lists(s, i, e, k) || (i == o.leave && k == REMOVE);
  }

  lemma RemovalOfOne(o: Order, s: State, gone: set<ClientId>, e: Entity)
    requires o.Valid() && s.current == o.leave && Tracked(o, s, e) && Get(s.world, e, REMOVE).None?
    ensures var t, p := Perform(s, Removes(s.world, gone)(e)), PlayerAt(o, s, e);
      Tracked(o, t, e) && PlayerAt(o, t, e) == p.(leaving := p.client in gone)
  {
    if Get(s.world, e, CLIENT).value.client in gone {
      var despawn, tell := DeferDespawn(e), InsertEntityEvent(e, REMOVE, Happened);
      assert Removes(s.world, gone)(e) == [despawn] + [tell];
      PerformInParts(s, [despawn], [tell]);
      PerformOne(s, despawn);
      ApplyRecords(s, despawn);
      var mid := Perform(s, [despawn]);
      assert forall i: nat, k :: Lists(mid, i, e, k) <==> Lists(s, i, e, k);
      Tell(mid, e, REMOVE, Happened);
      RemovalIsTracked(o, mid, Perform(mid, [tell]), e);
      assert PlayerAt(o, mid, e) == PlayerAt(o, s, e);
    }
  }

  /** The system that updates views: it sets the views, and then inserts the events. */
  lemma MovesRun(o: Order, s: State, query: seq<Entity>, e: Entity)
    requires o.Valid() && s.current == o.moves && IsQuery(s.world, query) && e < s.next
    ensures var t := Perform(s, ForEach(query, SetsView(s.world)) + ForEach(query, TellsOfMove(s.world)));
      && (Tracked(o, s, e) ==> Tracked(o, t, e) && PlayerAt(o, t, e) == UpdateView(PlayerAt(o, s, e)))
      && (!IsPlayer(s.world, e) ==> !IsPlayer(t.world, e))
  {
    var sets, tells := SetsView(s.world), TellsOfMove(s.world);
    TheyAreOwn(s.world, {});
    PerformInParts(s, ForEach(query, sets), ForEach(query, tells));
    LoopDoes(s, query, sets, e);
    var mid := Perform(s, ForEach(query, sets));
    LoopDoes(mid, query, tells, e);
    var t := Perform(mid, ForEach(query, tells));
    var own := Perform(s, if e in query then sets(e) else []);
    PerformAlike(mid, own, if e in query then tells(e) else [], e);
    SameRecord(o, t, Perform(own, if e in query then tells(e) else []), e);
    if Tracked(o, s, e) { MoveOfOne(o, s, e); }
  }

  lemma JoinsRun(o: Order, s: State, query: seq<Entity>, e: Entity)
    requires o.Valid() && s.current == o.joins && IsQuery(s.world, query) && e < s.next
    ensures var t := Perform(s, ForEach(query, TellsOfJoin(s.world)));
      && (Tracked(o, s, e) ==> Tracked(o, t, e) && PlayerAt(o, t, e) == UpdateOnJoin(PlayerAt(o, s, e)))
      && (!IsPlayer(s.world, e) ==> !IsPlayer(t.world, e))
  {
    TheyAreOwn(s.world, {});
    LoopDoes(s, query, TellsOfJoin(s.world), e);
    SameRecord(o, Perform(s, ForEach(query, TellsOfJoin(s.world))),
               Perform(s, if e in query then TellsOfJoin(s.world)(e) else []), e);
    if Tracked(o, s, e) { JoinOfOne(o, s, e); }
  }

  lemma LeaveRun(o: Order, s: State, query: seq<Entity>, gone: set<ClientId>, e: Entity)
    requires o.Valid() && s.current == o.leave && IsQuery(s.world, query) && e < s.next
    ensures var t := Perform(s, ForEach(query, Removes(s.world, gone)));
      && (Tracked(o, s, e) && Get(s.world, e, REMOVE).None? ==>
            var p := PlayerAt(o, s, e);
            Tracked(o, t, e) && PlayerAt(o, t, e) == p.(leaving := p.client in gone))
      && (!IsPlayer(s.world, e) ==> !IsPlayer(t.world, e))
  {
    TheyAreOwn(s.world, gone);
    LoopDoes(s, query, Removes(s.world, gone), e);
    SameRecord(o, Perform(s, ForEach(query, Removes(s.world, gone))),
               Perform(s, if e in query then Removes(s.world, gone)(e) else []), e);
    if Tracked(o, s, e) && Get(s.world, e, REMOVE).None? { RemovalOfOne(o, s, gone, e); }
  }
}
