/** Events under what systems can do: which operations let an event be seen by all systems, and which
  * ones keep it from some.
  */
module EventLaws {
  import opened Components
  import opened Options
  import opened EcsModel
  import opened EventRuns

  // ----- what operations record -----

  lemma RecordedLists(events: seq<seq<Removal>>, i: nat, r: Removal)
    ensures ListOf(Recorded(events, i, r), i) == ListOf(events, i) + [r]
    ensures forall j: nat :: j != i ==> ListOf(Recorded(events, i, r), j) == ListOf(events, j)
  {
    GrownLists(events, i);
    assert ListOf(Grown(events, i), i) == ListOf(events, i);
    assert forall j: nat :: j != i ==> ListOf(Recorded(events, i, r), j) == ListOf(Grown(events, i), j);
  }

  function RecordOf(s: State, op: Op): seq<Removal> {
    match op
    case InsertEvent(_, _) => [DespawnEntity(s.next)]
    case InsertEntityEvent(e, kind, _) => if e in s.world then [RemoveComponent(e, kind)] else []
    case DeferDespawn(e) => [DespawnEntity(e)]
    case _ => []
  }

  function Records(s: State, ops: seq<Op>): seq<Removal> {
    if ops == [] then [] else Records(s, ops[..|ops| - 1]) + RecordOf(Perform(s, ops[..|ops| - 1]), ops[|ops| - 1])
  }

  lemma ApplyRecords(s: State, op: Op)
    ensures var t := Apply(s, op);
      && t.current == s.current && t.next >= s.next && (Fresh(s) ==> Fresh(t))
      && ListOf(t.events, s.current) == ListOf(s.events, s.current) + RecordOf(s, op)
      && (forall j: nat :: j != s.current ==> ListOf(t.events, j) == ListOf(s.events, j))
  {
    if RecordOf(s, op) != [] { RecordedLists(s.events, s.current, RecordOf(s, op)[0]); }
  }

  lemma {:induction false} PerformRecords(s: State, ops: seq<Op>)
    ensures OrderlyStep(s, Perform(s, ops))
    ensures ListOf(Perform(s, ops).events, s.current) == ListOf(s.events, s.current) + Records(s, ops)
  {
    if ops != [] {
      var front, op := ops[..|ops| - 1], ops[|ops| - 1];
      PerformRecords(s, front);
      ApplyRecords(Perform(s, front), op);
      var before := ListOf(s.events, s.current);
      assert before + Records(s, front) + RecordOf(Perform(s, front), op) == before + Records(s, ops);
    }
  }

  /** Systems that carry out operations record removals in their own lists only. */
  lemma PerformingIsOrderly(script: nat -> seq<Op>)
    ensures Orderly(Performing(script))
  {
    forall g: nat, s: State ensures OrderlyStep(s, Performing(script)(g, s)) {
      PerformRecords(s, script(g));
    }
  }

  lemma {:induction false} PerformInParts(s: State, a: seq<Op>, b: seq<Op>)
    ensures Perform(s, a + b) == Perform(Perform(s, a), b)
    ensures Records(s, a + b) == Records(s, a) + Records(Perform(s, a), b)
    decreases |b|
  {
    if b == [] {
      assert a + b == a;
    } else {
      var front := b[..|b| - 1];
      PerformInParts(s, a, front);
      assert (a + b)[..|a + b| - 1] == a + front && (a + b)[|a + b| - 1] == b[|front|];
    }
  }

  lemma PerformSplit(s: State, ops: seq<Op>, a: seq<Op>, b: seq<Op>, t: State)
    requires ops == a + b && t == Perform(s, ops)
    ensures t == Perform(Perform(s, a), b)
  {
    PerformInParts(s, a, b);
  }

  lemma PerformOne(s: State, op: Op)
    ensures Perform(s, [op]) == Apply(s, op) && Records(s, [op]) == RecordOf(s, op)
  {
    assert [op][..0] == [];
    assert Perform(s, []) == s && Records(s, []) == [];
  }

  // ----- what operations do to a component -----

  predicate IsInsertOf(op: Op, e: Entity, kind: Kind) {
    op.InsertEntityEvent? && op.entity == e && op.kind == kind
  }

  /** An operation that changes a component of an entity otherwise than as an event, or removes it. */
  predicate Meddles(op: Op, e: Entity, kind: Kind) {
    || (op.Insert? && op.entity == e && op.kind == kind)
    || (op.Remove? && op.entity == e && op.kind == kind)
    || (op.Despawn? && op.entity == e)
  }

  ghost predicate Tame(ops: seq<Op>, e: Entity, kind: Kind) {
    forall k :: 0 <= k < |ops| ==> !Meddles(ops[k], e, kind)
  }

  ghost predicate NoInsertOf(ops: seq<Op>, e: Entity, kind: Kind) {
    forall k :: 0 <= k < |ops| ==> !IsInsertOf(ops[k], e, kind)
  }

  /** The value that the last insertion has left, if there has been one. */
  ghost predicate LeftByInsert(s: State, ops: seq<Op>, e: Entity, kind: Kind, k: int) {
    0 <= k < |ops| && IsInsertOf(ops[k], e, kind) && Get(Perform(s, ops).world, e, kind) == Some(ops[k].value)
  }

  /** What a component is after a list of operations: as the last insertion has left it. */
  lemma {:induction false} PerformKeepsComponent(s: State, ops: seq<Op>, e: Entity, kind: Kind)
    requires Tame(ops, e, kind) && e < s.next
    ensures e in s.world <==> e in Perform(s, ops).world
    ensures RemoveComponent(e, kind) !in Records(s, ops) ==>
      Get(Perform(s, ops).world, e, kind) == Get(s.world, e, kind)
    ensures RemoveComponent(e, kind) in Records(s, ops) ==> exists k :: LeftByInsert(s, ops, e, kind, k)
  {
    if ops != [] {
      var front, op := ops[..|ops| - 1], ops[|ops| - 1];
      PerformKeepsComponent(s, front, e, kind);
      PerformRecords(s, front);
      ApplyKeepsComponent(Perform(s, front), op, e, kind);
      if RemoveComponent(e, kind) in RecordOf(Perform(s, front), op) {
        assert LeftByInsert(s, ops, e, kind, |ops| - 1);
      } else if RemoveComponent(e, kind) in Records(s, front) {
        var k :| LeftByInsert(s, front, e, kind, k);
        assert LeftByInsert(s, ops, e, kind, k);
      }
    }
  }

  lemma ApplyKeepsComponent(s: State, op: Op, e: Entity, kind: Kind)
    requires !Meddles(op, e, kind) && e < s.next
    ensures e in s.world <==> e in Apply(s, op).world
    ensures if RemoveComponent(e, kind) in RecordOf(s, op)
            then IsInsertOf(op, e, kind) && Get(Apply(s, op).world, e, kind) == Some(op.value)
            else Get(Apply(s, op).world, e, kind) == Get(s.world, e, kind)
  {
  }

  lemma {:induction false} NoneInserted(s: State, ops: seq<Op>, e: Entity, kind: Kind)
    requires NoInsertOf(ops, e, kind)
    ensures RemoveComponent(e, kind) !in Records(s, ops)
  {
    if ops != [] { NoneInserted(s, ops[..|ops| - 1], e, kind); }
  }

  // ----- runs of operations -----

  /** How a world with events begins: only the list of the first system may have entries, those of
    * events that are older than the first tick.
    */
  ghost predicate Initial(s: State) {
    Fresh(s) && forall j: nat :: j > 0 ==> ListOf(s.events, j) == []
  }

  lemma BeforeFirstTick(s: State, pre: seq<Op>)
    requires s.current == 0 && Fresh(s) && forall j: nat :: ListOf(s.events, j) == []
    ensures Initial(Perform(s, pre)) && ListOf(Perform(s, pre).events, 0) == Records(s, pre)
  {
    PerformRecords(s, pre);
    assert ListOf(s.events, 0) == [];
    assert [] + Records(s, pre) == Records(s, pre);
  }

  lemma WhatComesBefore(pre: seq<Op>)
    ensures Initial(Perform(EMPTY, pre)) && ListOf(Perform(EMPTY, pre).events, 0) == Records(EMPTY, pre)
  {
    BeforeFirstTick(EMPTY, pre);
  }

  /** What is recorded in a run: what its operations record, and in the first run what has been
    * recorded before.
    */
  lemma RecordsOfRun(n: nat, s: State, script: nat -> seq<Op>, g: nat)
    requires n > 0 && Initial(s)
    ensures var does := Performing(script);
      RecordsIn(n, s, does, g)
        == (if g == 0 then ListOf(s.events, 0) else []) + Records(Start(n, s, does, g), script(g))
  {
    var does := Performing(script);
    ListBeforeRun(n, s, script, g);
    assert After(n, s, does, g + 1) == Perform(Start(n, s, does, g), script(g));
    PerformRecords(Start(n, s, does, g), script(g));
  }

  lemma ListBeforeRun(n: nat, s: State, script: nat -> seq<Op>, g: nat)
    requires n > 0 && Initial(s)
    ensures var start := Start(n, s, Performing(script), g);
      start.current == Turn(n, g) && ListOf(start.events, Turn(n, g)) == if g == 0 then ListOf(s.events, 0) else []
  {
    PerformingIsOrderly(script);
    if g < n {
      ListIsKept(n, s, Performing(script), 0, g, g);
    } else {
      DrainedLists(After(n, s, Performing(script), g).events, Turn(n, g));
    }
  }

  /** A run whose operations touch a component as an event only does so as a whole. */
  lemma TameRunIsCivil(n: nat, s: State, script: nat -> seq<Op>, x: nat, e: Entity, kind: Kind)
    requires n > 0 && Initial(s) && x > 0 && e < Start(n, s, Performing(script), x).next
    requires Tame(script(x), e, kind)
    ensures Civil(n, s, Performing(script), x, e, kind)
  {
    var start := Start(n, s, Performing(script), x);
    RecordsOfRun(n, s, script, x);
    assert After(n, s, Performing(script), x + 1) == Perform(start, script(x));
    PerformKeepsComponent(start, script(x), e, kind);
  }

  /** An event that is inserted on a living entity, and not touched later in the same run. */
  lemma InsertedLast(s: State, before: seq<Op>, after: seq<Op>, e: Entity, kind: Kind, value: Value)
    requires e in Perform(s, before).world && Fresh(Perform(s, before))
    requires Tame(after, e, kind) && NoInsertOf(after, e, kind)
    ensures var ops := before + [InsertEntityEvent(e, kind, value)] + after;
      && Get(Perform(s, ops).world, e, kind) == Some(value) && e < Perform(s, ops).next
      && RemoveComponent(e, kind) in Records(s, ops)
  {
    var op := InsertEntityEvent(e, kind, value);
    var t := Perform(s, before);
    PerformInParts(s, before, [op]);
    PerformOne(t, op);
    PerformInParts(s, before + [op], after);
    NoneInserted(Apply(t, op), after, e, kind);
    PerformKeepsComponent(Apply(t, op), after, e, kind);
    PerformRecords(Apply(t, op), after);
  }

  lemma InsertionInserts(n: nat, s: State, script: nat -> seq<Op>, g: nat, before: seq<Op>, after: seq<Op>,
                         e: Entity, kind: Kind, value: Value)
    requires n > 0 && Initial(s) && script(g) == before + [InsertEntityEvent(e, kind, value)] + after
    requires e in Perform(Start(n, s, Performing(script), g), before).world
    requires Tame(after, e, kind) && NoInsertOf(after, e, kind)
    ensures Inserted(n, s, Performing(script), g, e, kind, value)
    ensures e < After(n, s, Performing(script), g + 1).next
  {
    var does := Performing(script);
    var start := Start(n, s, does, g);
    PerformingIsOrderly(script);
    AfterIsFresh(n, s, does, g);
    PerformRecords(start, before);
    InsertedLast(start, before, after, e, kind, value);
    assert After(n, s, does, g + 1) == Perform(start, script(g));
    RecordsOfRun(n, s, script, g);
  }

  /** Main result on events of entities, in terms of what the systems do: provided that nobody
    * despawns the entity or changes the component by hand before all systems have run, the event is
    * seen by every other system if and only if no other event of the kind clashes with it.
    */
  lemma EntityEventSeenByAllIff(n: nat, s: State, script: nat -> seq<Op>, g: nat, before: seq<Op>, after: seq<Op>,
                                e: Entity, kind: Kind, value: Value)
    requires n > 0 && Initial(s) && script(g) == before + [InsertEntityEvent(e, kind, value)] + after
    requires e in Perform(Start(n, s, Performing(script), g), before).world
    requires Tame(after, e, kind) && NoInsertOf(after, e, kind)
    requires forall x: nat :: g < x + n && x < g ==> DespawnEntity(e) !in RecordsIn(n, s, Performing(script), x)
    requires forall x: nat :: g < x < g + n ==> Tame(script(x), e, kind)
    ensures (forall h :: g < h < g + n ==> Sees(n, s, Performing(script), h, e, kind, value))
       <==> (forall x: nat :: !Clash(n, s, Performing(script), g, x, e, kind, value))
    ensures Get(Start(n, s, Performing(script), g + n).world, e, kind) == None
  {
    var does := Performing(script);
    PerformingIsOrderly(script);
    InsertionInserts(n, s, script, g, before, after, e, kind, value);
    forall x: nat | g < x < g + n ensures Civil(n, s, does, x, e, kind) {
      NextGrows(n, s, does, g + 1, x);
      TameRunIsCivil(n, s, script, x, e, kind);
    }
    SeenByAllIff(n, s, does, g, e, kind, value);
  }

  /** Two systems that insert events of the same kind on the same entity, the second one in the first
    * tick and the first one in the second: in the second tick the second system, before it runs,
    * removes the event that it should see.
    */
  function Clashing(g: nat): seq<Op> {
    if g == 0 then [Spawn(map[])]
    else if g == 1 then [InsertEntityEvent(0, 0, Number(10))]
    else if g == 2 then [InsertEntityEvent(0, 0, Number(20))]
    else []
  }

  /** A run that does nothing but insert an event. */
  lemma OnlyInserts(n: nat, s: State, script: nat -> seq<Op>, g: nat, e: Entity, kind: Kind, value: Value)
    requires n > 0 && Initial(s) && script(g) == [InsertEntityEvent(e, kind, value)]
    requires e in After(n, s, Performing(script), g).world
    requires g >= n ==> DespawnEntity(e) !in RecordsIn(n, s, Performing(script), g - n)
    ensures Inserted(n, s, Performing(script), g, e, kind, value) && e in After(n, s, Performing(script), g + 1).world
  {
    var start := Start(n, s, Performing(script), g);
    PerformingIsOrderly(script);
    FoundAtStart(n, s, Performing(script), g, e, kind);
    PerformOne(start, script(g)[0]);
    assert After(n, s, Performing(script), g + 1) == Perform(start, script(g));
    RecordsOfRun(n, s, script, g);
  }

  lemma OnlySpawns(n: nat, s: State, script: nat -> seq<Op>)
    requires n > 0 && Initial(s) && script(0) == [Spawn(map[])]
    ensures s.next in After(n, s, Performing(script), 1).world
    ensures RecordsIn(n, s, Performing(script), 0) == ListOf(s.events, 0)
  {
    PerformOne(Start(n, s, Performing(script), 0), Spawn(map[]));
    RecordsOfRun(n, s, script, 0);
  }

  /** Without the condition the claim that every system sees every event is false. */
  lemma EventsCanBeMissed(n: nat, s: State)
    requires n == 2 && s == EMPTY
    ensures Inserted(n, s, Performing(Clashing), 2, 0, 0, Number(20))
    ensures !Sees(n, s, Performing(Clashing), 3, 0, 0, Number(20))
  {
    PerformingIsOrderly(Clashing);
    OnlySpawns(n, s, Clashing);
    OnlyInserts(n, s, Clashing, 1, 0, 0, Number(10));
    OnlyInserts(n, s, Clashing, 2, 0, 0, Number(20));
    GoneAtNextRun(n, s, Performing(Clashing), 1, 0, 0);
  }

  // ----- events from before the first tick -----

  /** Run `x` replaces an event: it inserts one of the kind on the entity, and leaves another value. */
  ghost predicate Replaces(n: nat, s: State, script: nat -> seq<Op>, x: nat, e: Entity, kind: Kind, value: Value)
    requires n > 0
  {
    && RemoveComponent(e, kind) in Records(Start(n, s, Performing(script), x), script(x))
    && Get(After(n, s, Performing(script), x + 1).world, e, kind) != Some(value)
  }

  /** A first run takes an early event away from the runs after it by replacing it, and in no other
    * way.
    */
  lemma FirstRunKeepsEvent(n: nat, s: State, script: nat -> seq<Op>, x: nat, e: Entity, kind: Kind, value: Value)
    requires n > 0 && x + 1 < n && Fresh(s) && e in s.world && Sees(n, s, Performing(script), x, e, kind, value)
    requires Tame(script(x), e, kind)
    ensures Sees(n, s, Performing(script), x + 1, e, kind, value) <==> !Replaces(n, s, script, x, e, kind, value)
  {
    var does := Performing(script);
    var start := Start(n, s, does, x);
    PerformingIsOrderly(script);
    NextGrows(n, s, does, 0, x);
    assert After(n, s, does, x + 1) == Perform(start, script(x));
    FoundAtStart(n, s, does, x + 1, e, kind);
    PerformKeepsComponent(start, script(x), e, kind);
  }

  lemma {:induction false} SeenInFirstRuns(n: nat, s: State, script: nat -> seq<Op>, h: nat,
                                           e: Entity, kind: Kind, value: Value)
    requires h < n && Fresh(s) && Get(s.world, e, kind) == Some(value)
    requires forall x: nat :: x < h ==> Tame(script(x), e, kind) && !Replaces(n, s, script, x, e, kind, value)
    ensures Sees(n, s, Performing(script), h, e, kind, value)
  {
    PerformingIsOrderly(script);
    if h == 0 {
      FoundAtStart(n, s, Performing(script), 0, e, kind);
    } else {
      SeenInFirstRuns(n, s, script, h - 1, e, kind, value);
      assert !Replaces(n, s, script, h - 1, e, kind, value);
      FirstRunKeepsEvent(n, s, script, h - 1, e, kind, value);
    }
  }

  /** Main result on events that are older than the first tick: every system sees them in its first
    * run if and only if no system but the last inserts another event of the kind on the entity in
    * the first tick, with another value, and they are gone when the first system runs again.
    */
  lemma EarlyEventsIff(n: nat, s: State, script: nat -> seq<Op>, e: Entity, kind: Kind, value: Value)
    requires n > 0 && Fresh(s) && Get(s.world, e, kind) == Some(value)
    requires RemoveComponent(e, kind) in ListOf(s.events, 0)
    requires forall x: nat :: x + 1 < n ==> Tame(script(x), e, kind)
    ensures (forall h: nat :: h < n ==> Sees(n, s, Performing(script), h, e, kind, value))
       <==> (forall x: nat :: x + 1 < n ==> !Replaces(n, s, script, x, e, kind, value))
    ensures Get(Start(n, s, Performing(script), n).world, e, kind) == None
  {
    var does := Performing(script);
    PerformingIsOrderly(script);
    EarlyEventsAreGone(n, s, does, e, kind);
    if forall x: nat :: x + 1 < n ==> !Replaces(n, s, script, x, e, kind, value) {
      forall h: nat | h < n ensures Sees(n, s, does, h, e, kind, value) {
        SeenInFirstRuns(n, s, script, h, e, kind, value);
      }
    } else {
      var x: nat :| x + 1 < n && Replaces(n, s, script, x, e, kind, value);
      ReplacedNotSeen(n, s, does, x, e, kind, value);
      assert !Sees(n, s, does, x + 1, e, kind, value);
    }
  }

  /** An entity with an event that is older than the first tick. */
  const EARLY: seq<Op> := [Spawn(map[]), InsertEntityEvent(0, 0, Number(10))]

  /** The first system replaces it. */
  function Replacing(g: nat): seq<Op> {
    if g == 0 then [InsertEntityEvent(0, 0, Number(20))] else []
  }

  lemma ReplacedEarly(s: State, e: Entity)
    requires Fresh(s) && e == 0 && Get(s.world, e, 0) == Some(Number(10))
    ensures !Sees(2, s, Performing(Replacing), 1, e, 0, Number(10))
  {
    var start := Start(2, s, Performing(Replacing), 0);
    PerformingIsOrderly(Replacing);
    FoundAtStart(2, s, Performing(Replacing), 0, e, 0);
    PerformOne(start, InsertEntityEvent(e, 0, Number(20)));
    assert After(2, s, Performing(Replacing), 1) == Perform(start, Replacing(0));
    ReplacedNotSeen(2, s, Performing(Replacing), 0, e, 0, Number(10));
  }

  /** So the second system does not see it. */
  lemma EarlyEventsCanBeMissed()
    ensures var s := Perform(EMPTY, EARLY);
      && Initial(s) && Get(s.world, 0, 0) == Some(Number(10)) && RemoveComponent(0, 0) in ListOf(s.events, 0)
      && !Sees(2, s, Performing(Replacing), 1, 0, 0, Number(10))
  {
    var spawn, insert := Spawn(map[]), InsertEntityEvent(0, 0, Number(10));
    WhatComesBefore(EARLY);
    assert EARLY == [spawn] + [insert];
    PerformInParts(EMPTY, [spawn], [insert]);
    PerformOne(EMPTY, spawn);
    PerformOne(Perform(EMPTY, [spawn]), insert);
    ReplacedEarly(Perform(EMPTY, EARLY), 0);
  }

  // ----- standalone events -----

  /** Systems name only entities that have been spawned. */
  predicate Knows(s: State, op: Op) {
    op.InsertEvent? || op.Spawn? || op.entity < s.next
  }

  ghost predicate KnowsAll(s: State, ops: seq<Op>) {
    forall k :: 0 <= k < |ops| ==> Knows(Perform(s, ops[..k]), ops[k])
  }

  lemma ApplyIsSane(s: State, op: Op)
    requires Sane(s) && Knows(s, op)
    ensures Sane(Apply(s, op))
  {
    var t := Apply(s, op);
    ApplyRecords(s, op);
    forall j: nat, r | r in ListOf(t.events, j) ensures r.entity < t.next {
      if r !in ListOf(s.events, j) {
        assert j == s.current && r in RecordOf(s, op);
      }
    }
  }

  lemma {:induction false} PerformIsSane(s: State, ops: seq<Op>)
    requires Sane(s) && KnowsAll(s, ops)
    ensures Sane(Perform(s, ops))
  {
    if ops != [] {
      var front := ops[..|ops| - 1];
      forall k | 0 <= k < |front| ensures Knows(Perform(s, front[..k]), front[k]) {
        assert front[..k] == ops[..k];
        assert Knows(Perform(s, ops[..k]), ops[k]);
      }
      PerformIsSane(s, front);
      assert Knows(Perform(s, ops[..|front|]), ops[|front|]);
      ApplyIsSane(Perform(s, front), ops[|front|]);
    }
  }

  lemma RunIsSane(n: nat, s: State, script: nat -> seq<Op>, h: nat)
    requires n > 0 && KnowsAll(Start(n, s, Performing(script), h), script(h))
    ensures RunKeepsSane(n, s, Performing(script), h)
  {
    var start := Start(n, s, Performing(script), h);
    assert After(n, s, Performing(script), h + 1) == Perform(start, script(h));
    if Sane(start) { PerformIsSane(start, script(h)); }
  }

  lemma RunLeavesAlone(n: nat, s: State, script: nat -> seq<Op>, x: nat, e: Entity, kind: Kind)
    requires n > 0 && Initial(s) && x > 0 && e < Start(n, s, Performing(script), x).next
    requires Tame(script(x), e, kind) && NoInsertOf(script(x), e, kind)
    ensures LeavesAlone(n, s, Performing(script), x, e, kind)
  {
    TameRunIsCivil(n, s, script, x, e, kind);
    NoneInserted(Start(n, s, Performing(script), x), script(x), e, kind);
    RecordsOfRun(n, s, script, x);
  }

  lemma EventSpawned(s: State, before: seq<Op>, after: seq<Op>, kind: Kind, value: Value)
    requires Tame(after, Perform(s, before).next, kind) && NoInsertOf(after, Perform(s, before).next, kind)
    ensures var e, ops := Perform(s, before).next, before + [InsertEvent(kind, value)] + after;
      && Get(Perform(s, ops).world, e, kind) == Some(value) && e < Perform(s, ops).next
      && DespawnEntity(e) in Records(s, ops)
  {
    var t, op := Perform(s, before), InsertEvent(kind, value);
    PerformInParts(s, before, [op]);
    PerformOne(t, op);
    PerformInParts(s, before + [op], after);
    NoneInserted(Apply(t, op), after, t.next, kind);
    PerformKeepsComponent(Apply(t, op), after, t.next, kind);
    PerformRecords(Apply(t, op), after);
  }

  lemma EventSpawnedInRun(n: nat, s: State, script: nat -> seq<Op>, g: nat, before: seq<Op>, after: seq<Op>,
                          e: Entity, kind: Kind, value: Value)
    requires n > 0 && Initial(s) && script(g) == before + [InsertEvent(kind, value)] + after
    requires e == Perform(Start(n, s, Performing(script), g), before).next
    requires Tame(after, e, kind) && NoInsertOf(after, e, kind)
    ensures var does := Performing(script);
      && Start(n, s, does, g).next <= e < After(n, s, does, g + 1).next
      && Get(After(n, s, does, g + 1).world, e, kind) == Some(value) && DespawnEntity(e) in RecordsIn(n, s, does, g)
  {
    var start := Start(n, s, Performing(script), g);
    PerformRecords(start, before);
    EventSpawned(start, before, after, kind, value);
    assert After(n, s, Performing(script), g + 1) == Perform(start, script(g));
    RecordsOfRun(n, s, script, g);
  }

  lemma RunsKeepSane(n: nat, s: State, script: nat -> seq<Op>, g: nat)
    requires n > 0 && forall h: nat :: h < g ==> KnowsAll(Start(n, s, Performing(script), h), script(h))
    ensures forall h: nat :: h < g ==> RunKeepsSane(n, s, Performing(script), h)
  {
    forall h: nat | h < g ensures RunKeepsSane(n, s, Performing(script), h) {
      RunIsSane(n, s, script, h);
    }
  }

  lemma AllLeaveAlone(n: nat, s: State, script: nat -> seq<Op>, g: nat, e: Entity, kind: Kind)
    requires n > 0 && Initial(s) && e < After(n, s, Performing(script), g + 1).next
    requires forall x: nat :: g < x < g + n ==> Tame(script(x), e, kind) && NoInsertOf(script(x), e, kind)
    ensures forall x: nat :: g < x < g + n ==> LeavesAlone(n, s, Performing(script), x, e, kind)
  {
    PerformingIsOrderly(script);
    forall x: nat | g < x < g + n ensures LeavesAlone(n, s, Performing(script), x, e, kind) {
      NextGrows(n, s, Performing(script), g + 1, x);
      RunLeavesAlone(n, s, script, x, e, kind);
    }
  }

  /** Main result on standalone events: as long as systems name only entities that they can know, and
    * leave the entity of the event alone, it is seen by every other system exactly once, without
    * any further condition, and its entity is gone when the triggering system runs again.
    */
  lemma StandaloneEventSeenByAll(n: nat, s: State, script: nat -> seq<Op>, g: nat, before: seq<Op>, after: seq<Op>,
                                 e: Entity, kind: Kind, value: Value)
    requires n > 0 && Initial(s) && Sane(s) && script(g) == before + [InsertEvent(kind, value)] + after
    requires e == Perform(Start(n, s, Performing(script), g), before).next
    requires forall h: nat :: h < g ==> KnowsAll(Start(n, s, Performing(script), h), script(h))
    requires Tame(after, e, kind) && NoInsertOf(after, e, kind)
    requires forall x: nat :: g < x < g + n ==> Tame(script(x), e, kind) && NoInsertOf(script(x), e, kind)
    ensures forall h :: g < h < g + n ==> Sees(n, s, Performing(script), h, e, kind, value)
    ensures e !in Start(n, s, Performing(script), g + n).world
  {
    var does := Performing(script);
    PerformingIsOrderly(script);
    EventSpawnedInRun(n, s, script, g, before, after, e, kind, value);
    RunsKeepSane(n, s, script, g);
    AllLeaveAlone(n, s, script, g, e, kind);
    SpawnedEventIsSeen(n, s, does, g, e, kind, value);
  }
}
