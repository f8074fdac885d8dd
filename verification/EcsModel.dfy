/** Entities, components and events, on values: what the systems do to them, and when old events are
  * removed.
  */
module EcsModel {
  import opened Components
  import opened Options

  type Entity = nat
  type Kind = nat

  type World = map<Entity, map<Kind, Value>>

  /** What is to be done before the system that recorded it runs again. */
  datatype Removal = RemoveComponent(entity: Entity, kind: Kind) | DespawnEntity(entity: Entity)

  /** The entities and the removals recorded by each system. Entities are numbered as they are
    * spawned, and numbers are never used again.
    */
  datatype State = State(world: World, next: Entity, events: seq<seq<Removal>>, current: nat)

  /** What a system can do. */
  datatype Op =
    | InsertEvent(kind: Kind, value: Value)
    | InsertEntityEvent(entity: Entity, kind: Kind, value: Value)
    | DeferDespawn(entity: Entity)
    | Spawn(components: map<Kind, Value>)
    | Insert(entity: Entity, kind: Kind, value: Value)
    | Remove(entity: Entity, kind: Kind)
    | Despawn(entity: Entity)

  const EMPTY := State(map[], 0, [], 0)

  function Get(w: World, e: Entity, kind: Kind): Option<Value> {
    if e in w && kind in w[e] then Some(w[e][kind]) else None
  }

  /** Adds or replaces a component of an entity. */
  function Put(w: World, e: Entity, kind: Kind, value: Value): World
    requires e in w
  {
    var components: map<Kind, Value> := w[e];
    w[e := components[kind := value]]
  }

  // ----- removals -----

  /** The list of a system; lists are made when they are first needed. */
  function ListOf(events: seq<seq<Removal>>, i: nat): seq<Removal> {
    if i < |events| then events[i] else []
  }

  function Grown(events: seq<seq<Removal>>, i: nat): (r: seq<seq<Removal>>)
    ensures i < |r|
    decreases if i < |events| then 0 else i + 1 - |events|
  {
    if i < |events| then events else Grown(events + [[]], i)
  }

  function Recorded(events: seq<seq<Removal>>, i: nat, r: Removal): seq<seq<Removal>> {
    var grown := Grown(events, i);
    grown[i := grown[i] + [r]]
  }

  function Drained(events: seq<seq<Removal>>, i: nat): seq<seq<Removal>> {
    Grown(events, i)[i := []]
  }

  /** Removing a component that is not there, or an entity that is gone, does nothing. */
  function Without(w: World, r: Removal): World {
    match r
    case RemoveComponent(e, kind) => if e in w then w[e := w[e] - {kind}] else w
    case DespawnEntity(e) => w - {e}
  }

  function AllRemoved(w: World, rs: seq<Removal>): World {
    if rs == [] then w else Without(AllRemoved(w, rs[..|rs| - 1]), rs[|rs| - 1])
  }

  // ----- what systems do -----

  function Apply(s: State, op: Op): State {
    match op
    case InsertEvent(kind, value) =>
      s.(world := s.world[s.next := map[kind := value]], next := s.next + 1,
         events := Recorded(s.events, s.current, DespawnEntity(s.next)))
    case InsertEntityEvent(e, kind, value) =>
      if e in s.world then
        s.(world := Put(s.world, e, kind, value), events := Recorded(s.events, s.current, RemoveComponent(e, kind)))
      else s
    case DeferDespawn(e) => s.(events := Recorded(s.events, s.current, DespawnEntity(e)))
    case Spawn(components) => s.(world := s.world[s.next := components], next := s.next + 1)
    case Insert(e, kind, value) => if e in s.world then s.(world := Put(s.world, e, kind, value)) else s
    case Remove(e, kind) => if e in s.world then s.(world := s.world[e := s.world[e] - {kind}]) else s
    case Despawn(e) => s.(world := s.world - {e})
  }

  function Perform(s: State, ops: seq<Op>): State {
    if ops == [] then s else Apply(Perform(s, ops[..|ops| - 1]), ops[|ops| - 1])
  }

  // ----- runs of systems -----

  /** What the executor does before system `i` runs. In the first tick nothing is removed, so that
    * events that are older than the first tick are seen.
    */
  function Begin(s: State, i: nat, isFirstRun: bool): State {
    var s := s.(current := i);
    if isFirstRun then s else s.(world := AllRemoved(s.world, ListOf(s.events, i)), events := Drained(s.events, i))
  }

  /** One tick: the systems one after the other, each doing its list of operations. */
  function Tick(s: State, scripts: seq<seq<Op>>, isFirstRun: bool): State {
    if scripts == [] then s
    else
      var k := |scripts| - 1;
      Perform(Begin(Tick(s, scripts[..k], isFirstRun), k, isFirstRun), scripts[k])
  }

  /** Whose turn run `g` is: `n` systems take turns, so this is the remainder of `g` by `n`. */
  function Turn(n: nat, g: nat): (i: nat)
    requires n > 0
    ensures i < n
    decreases g
  {
    if g < n then g else Turn(n, g - n)
  }

  /** What the systems do in all their runs, which are numbered through over all ticks. */
  type Doing = (nat, State) -> State

  /** The systems that carry out given operations. */
  function Performing(script: nat -> seq<Op>): Doing {
    (g: nat, s: State) => Perform(s, script(g))
  }

  /** The state after the first `g` runs of `n` systems. */
  function After(n: nat, s: State, does: Doing, g: nat): State
    requires n > 0
    decreases g, 0
  {
    if g == 0 then s else does(g - 1, Start(n, s, does, g - 1))
  }

  /** What the system of run `g` finds. */
  function Start(n: nat, s: State, does: Doing, g: nat): State
    requires n > 0
    decreases g, 1
  {
    Begin(After(n, s, does, g), Turn(n, g), g < n)
  }
}
