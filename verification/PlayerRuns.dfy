/** Runs of the systems that have nothing to do with players, of the one that handles packets, and of
  * the one that polls for new players.
  */
module PlayerRuns {
  import opened Components
  import opened Options
  import opened Views
  import opened EcsModel
  import opened EventRuns
  import opened EventLaws
  import opened PlayerSystems
  import opened Subscribers

  // ----- the other systems -----

  /** What any other system may do: with players nothing that is in their records, and it makes no
    * players.
    */
  predicate Quiet(w: World, op: Op) {
    match op
    case InsertEvent(kind, _) => kind != CLIENT
    case Spawn(components) => CLIENT !in components
    case InsertEntityEvent(e, kind, _) => if IsPlayer(w, e) then !IsOurs(kind) else kind != CLIENT
    case Insert(e, kind, _) => if IsPlayer(w, e) then !IsOurs(kind) else kind != CLIENT
    case Remove(e, kind) => IsPlayer(w, e) ==> !IsOurs(kind)
    case DeferDespawn(e) => !IsPlayer(w, e)
    case Despawn(e) => !IsPlayer(w, e)
  }

  /** Movement packets put players in other places. */
  predicate IsMovement(op: Op) { op.Insert? && op.kind == POSITION && op.value.InChunk? }

  lemma QuietOne(o: Order, w: World, s: State, op: Op, e: Entity)
    requires o.Valid() && Quiet(w, op) && IsPlayer(w, e) && Tracked(o, s, e) && e < s.next
    ensures var t := Apply(s, op); Tracked(o, t, e) && PlayerAt(o, t, e) == PlayerAt(o, s, e)
  {
    ApplyRecords(s, op);
    var t := Apply(s, op);
    assert forall kind :: IsOurs(kind) ==> Get(t.world, e, kind) == Get(s.world, e, kind);
    assert forall i: nat, kind :: IsOurs(kind) ==> (Lists(t, i, e, kind) <==> Lists(s, i, e, kind));
  }

  lemma MovementOne(o: Order, s: State, op: Op, e: Entity)
    requires o.Valid() && IsMovement(op) && Tracked(o, s, e)
    ensures var t := Apply(s, op);
      Tracked(o, t, e) && PlayerAt(o, t, e) == PlayerAt(o, s, e).(chunk := PlayerAt(o, t, e).chunk)
  {
    var t := Apply(s, op);
    assert forall kind :: kind != POSITION ==> Get(t.world, e, kind) == Get(s.world, e, kind);
    assert forall i: nat, kind :: Lists(t, i, e, kind) <==> Lists(s, i, e, kind);
  }

  lemma StaysStranger(w: World, s: State, op: Op, e: Entity)
    requires (Quiet(w, op) || IsMovement(op)) && !IsPlayer(w, e) && !IsPlayer(s.world, e)
    ensures !IsPlayer(Apply(s, op).world, e)
  {
  }

  lemma {:induction false} QuietRun(o: Order, s: State, ops: seq<Op>, e: Entity)
    requires o.Valid() && forall op :: op in ops ==> Quiet(s.world, op)
    ensures var t := Perform(s, ops);
      && (e < s.next && Tracked(o, s, e) ==> e < t.next && Tracked(o, t, e) && PlayerAt(o, t, e) == PlayerAt(o, s, e))
      && (!IsPlayer(s.world, e) ==> !IsPlayer(t.world, e))
  {
    if ops != [] {
      var front, op := ops[..|ops| - 1], ops[|ops| - 1];
      QuietRun(o, s, front, e);
      PerformRecords(s, front);
      ApplyRecords(Perform(s, front), op);
      if e < s.next && Tracked(o, s, e) { QuietOne(o, s.world, Perform(s, front), op, e); }
      if !IsPlayer(s.world, e) { StaysStranger(s.world, Perform(s, front), op, e); }
    }
  }

  lemma {:induction false} PacketsRun(o: Order, s: State, ops: seq<Op>, e: Entity)
    requires o.Valid() && forall op :: op in ops ==> Quiet(s.world, op) || IsMovement(op)
    ensures var t := Perform(s, ops);
      && (e < s.next && Tracked(o, s, e) ==>
            && e < t.next && Tracked(o, t, e)
            && PlayerAt(o, t, e) == HandlePackets(PlayerAt(o, s, e), PlayerAt(o, t, e).chunk))
      && (!IsPlayer(s.world, e) ==> !IsPlayer(t.world, e))
  {
    if ops != [] {
      var front, op := ops[..|ops| - 1], ops[|ops| - 1];
      PacketsRun(o, s, front, e);
      PerformRecords(s, front);
      ApplyRecords(Perform(s, front), op);
      if e < s.next && Tracked(o, s, e) {
        if IsMovement(op) { MovementOne(o, Perform(s, front), op, e); }
        else { QuietOne(o, s.world, Perform(s, front), op, e); }
      }
      if !IsPlayer(s.world, e) { StaysStranger(s.world, Perform(s, front), op, e); }
    }
  }

  // ----- new players -----

  /** A new player: its client, where it is, its view, and the components that do not concern us. */
  datatype Arrival = Arrival(client: ClientId, chunk: Chunk, view: View, others: map<Kind, Value>)

  predicate Proper(a: Arrival) { forall kind :: kind in a.others ==> !IsOurs(kind) }

  function ComponentsOf(a: Arrival): map<Kind, Value> {
    a.others + map[CLIENT := OfClient(a.client), POSITION := InChunk(a.chunk), VIEW := Viewing(a.view)]
  }

  /** Spawning a player triggers two events. */
  function Spawns(e: Entity, a: Arrival): seq<Op> {
    [Spawn(ComponentsOf(a)), InsertEntityEvent(e, CREATE, Happened), InsertEntityEvent(e, JOIN, Happened)]
  }

  /** What is done for each arrival in turn. */
  function ForArrivals(ops: (Entity, Arrival) -> seq<Op>, next: Entity, arrivals: seq<Arrival>): seq<Op> {
    if arrivals == [] then []
    else
      var m := |arrivals| - 1;
      ForArrivals(ops, next, arrivals[..m]) + ops(next + m, arrivals[m])
  }

  function NewPlayer(a: Arrival): Player {
    Player(a.client, a.chunk, a.view, None, true, false, false, false)
  }

  lemma SpawnedIsTracked(o: Order, t: State, e: Entity, a: Arrival)
    requires o.Valid() && Proper(a)
    requires forall kind :: IsOurs(kind) && kind != JOIN ==>
      Get(t.world, e, kind) == if kind in ComponentsOf(a) then Some(ComponentsOf(a)[kind]) else None
    requires Get(t.world, e, JOIN).Some? && Lists(t, o.poll, e, JOIN)
    requires forall i: nat, kind :: Lists(t, i, e, kind) ==> i == o.poll && (kind == CREATE || kind == JOIN)
    requires forall i: nat :: DespawnEntity(e) !in ListOf(t.events, i)
    ensures Tracked(o, t, e) && PlayerAt(o, t, e) == NewPlayer(a)
  {
    assert JOIN !in ComponentsOf(a) && UPDATE !in ComponentsOf(a) && REMOVE !in ComponentsOf(a);
  }

  lemma SpawnEvents(s: State, e: Entity, a: Arrival)
    requires e == s.next && Sane(s)
    ensures var t := Perform(s, Spawns(e, a));
      && t.next == e + 1 && Sane(t) && t.current == s.current
      && (forall kind :: kind != JOIN && kind != CREATE ==>
            Get(t.world, e, kind) == if kind in ComponentsOf(a) then Some(ComponentsOf(a)[kind]) else None)
      && Get(t.world, e, JOIN).Some?
      && (forall i: nat, kind :: Lists(t, i, e, kind) <==> i == s.current && (kind == CREATE || kind == JOIN))
      && (forall i: nat :: DespawnEntity(e) !in ListOf(t.events, i))
  {
    var spawn, create, join := Spawn(ComponentsOf(a)), InsertEntityEvent(e, CREATE, Happened),
      InsertEntityEvent(e, JOIN, Happened);
    assert Spawns(e, a) == [spawn] + [create] + [join];
    PerformInParts(s, [spawn] + [create], [join]);
    PerformInParts(s, [spawn], [create]);
    PerformOne(s, spawn);
    var t1 := Perform(s, [spawn]);
    ApplyIsSane(s, spawn);
    assert forall i: nat, kind :: !Lists(t1, i, e, kind);
    Tell(t1, e, CREATE, Happened);
    var t2 := Perform(t1, [create]);
    PerformOne(t1, create);
    ApplyIsSane(t1, create);
    Tell(t2, e, JOIN, Happened);
    PerformOne(t2, join);
    ApplyIsSane(t2, join);
  }

  ghost predicate IsNew(o: Order, t: State, e: Entity, a: Arrival) {
    Tracked(o, t, e) && PlayerAt(o, t, e) == NewPlayer(a)
  }

  ghost predicate Polled(o: Order, s: State, t: State, arrivals: seq<Arrival>) {
    && Sane(t) && t.next == s.next + |arrivals| && t.current == s.current
    && (forall k: nat :: k < |arrivals| ==> IsNew(o, t, s.next + k, arrivals[k]))
    && (forall e: Entity :: e < s.next ==> SameFor(t, s, e))
  }

  lemma NothingPolled(o: Order, s: State)
    requires Sane(s)
    ensures Polled(o, s, s, [])
  {
  }

  lemma OnePolled(o: Order, s: State, t: State, a: Arrival)
    requires Sane(t) && t.next == s.next + 1 && t.current == s.current && IsNew(o, t, s.next, a)
    requires forall e: Entity :: e < s.next ==> SameFor(t, s, e)
    ensures Polled(o, s, t, [a])
  {
  }

  lemma SpawnOne(o: Order, s: State, a: Arrival, ops: seq<Op>, t: State)
    requires o.Valid() && s.current == o.poll && Sane(s) && Proper(a)
    requires ops == Spawns(s.next, a) && t == Perform(s, ops)
    ensures Polled(o, s, t, [a])
  {
    var e := s.next;
    SpawnEvents(s, e, a);
    SpawnedIsTracked(o, t, e, a);
    forall f: Entity | f < s.next ensures SameFor(t, s, f) { PerformOnOthers(s, ops, f); }
    OnePolled(o, s, t, a);
  }

  lemma OneMorePolled(o: Order, s: State, mid: State, t: State, front: seq<Arrival>, last: Arrival)
    requires Polled(o, s, mid, front) && Polled(o, mid, t, [last])
    ensures Polled(o, s, t, front + [last])
  {
    var arrivals := front + [last];
    assert IsNew(o, t, mid.next + 0, [last][0]);
    forall k: nat | k < |arrivals| ensures IsNew(o, t, s.next + k, arrivals[k]) {
      if k < |front| {
        assert IsNew(o, mid, s.next + k, front[k]);
        SameRecord(o, t, mid, s.next + k);
      }
    }
    forall e: Entity | e < s.next ensures SameFor(t, s, e) {
      assert SameFor(t, mid, e) && SameFor(mid, s, e);
    }
  }

  lemma LastArrival(ops: (Entity, Arrival) -> seq<Op>, next: Entity, arrivals: seq<Arrival>)
    requires arrivals != []
    ensures var m := |arrivals| - 1;
      && arrivals == arrivals[..m] + [arrivals[m]] && arrivals[m] in arrivals
      && ForArrivals(ops, next, arrivals) == ForArrivals(ops, next, arrivals[..m]) + ops(next + m, arrivals[m])
  {
  }

  /** The system that polls for new players spawns one for each arrival, and leaves the others alone. */
  lemma {:induction false} PollRun(o: Order, s: State, arrivals: seq<Arrival>, ops: seq<Op>, t: State)
    requires o.Valid() && s.current == o.poll && Sane(s) && forall a :: a in arrivals ==> Proper(a)
    requires ops == ForArrivals(Spawns, s.next, arrivals) && t == Perform(s, ops)
    ensures Polled(o, s, t, arrivals)
    decreases arrivals
  {
    if arrivals == [] {
      NothingPolled(o, s);
    } else {
      var m := |arrivals| - 1;
      var front, last := arrivals[..m], arrivals[m];
      LastArrival(Spawns, s.next, arrivals);
      var before, now := ForArrivals(Spawns, s.next, front), Spawns(s.next + m, last);
      var mid := Perform(s, before);
      PerformSplit(s, ops, before, now, t);
      PollRun(o, s, front, before, mid);
      assert |front| == m;
      PollLast(o, s, mid, front, last, m, now, t);
    }
  }

  lemma PollLast(o: Order, s: State, mid: State, front: seq<Arrival>, last: Arrival, m: nat, ops: seq<Op>, t: State)
    requires o.Valid() && s.current == o.poll && Proper(last) && Polled(o, s, mid, front) && |front| == m
    requires ops == Spawns(s.next + m, last) && t == Perform(mid, ops)
    ensures Polled(o, s, t, front + [last])
  {
    SpawnOne(o, mid, last, ops, t);
    OneMorePolled(o, s, mid, t, front, last);
  }
}
