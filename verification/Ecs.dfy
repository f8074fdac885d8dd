/** The entity-component system, its event tracker and the executor of the systems. */
module EcsObjects {
  import opened Components
  import opened Options
  import opened EcsModel
  import opened EventRuns

  class EventTracker {
    var events: seq<seq<Removal>>
    var currentSystemIndex: nat

    constructor ()
      ensures events == [] && currentSystemIndex == 0
    {
      events, currentSystemIndex := [], 0;
    }

    method InsertEntityEvent(e: Entity, kind: Kind)
      modifies this`events
      ensures events == Recorded(old(events), currentSystemIndex, RemoveComponent(e, kind))
    {
      GrowToCurrent();
      events := events[currentSystemIndex := events[currentSystemIndex] + [RemoveComponent(e, kind)]];
    }

    method InsertEvent(e: Entity)
      modifies this`events
      ensures events == Recorded(old(events), currentSystemIndex, DespawnEntity(e))
    {
      GrowToCurrent();
      events := events[currentSystemIndex := events[currentSystemIndex] + [DespawnEntity(e)]];
    }

    method SetCurrentSystemIndex(index: nat)
      modifies this`currentSystemIndex
      ensures currentSystemIndex == index
    {
      currentSystemIndex := index;
    }

    /** Drains the list of the current system into the world. */
    method RemoveOldEvents(world: World) returns (world': World)
      modifies this`events
      ensures world' == AllRemoved(world, ListOf(old(events), currentSystemIndex))
      ensures events == Drained(old(events), currentSystemIndex)
    {
      GrownLists(events, currentSystemIndex);
      assert ListOf(Grown(events, currentSystemIndex), currentSystemIndex) == ListOf(events, currentSystemIndex);
      GrowToCurrent();
      var drained := events[currentSystemIndex];
      events := events[currentSystemIndex := []];
      world' := world;
      for k := 0 to |drained|
        invariant world' == AllRemoved(world, drained[..k])
      {
        assert drained[..k + 1][..k] == drained[..k];
        match drained[k] {
          case RemoveComponent(e, kind) => if e in world' { world' := world'[e := world'[e] - {kind}]; }
          case DespawnEntity(e) => world' := world' - {e};
        }
      }
      assert drained[..|drained|] == drained;
    }

    method GrowToCurrent()
      modifies this`events
      ensures events == Grown(old(events), currentSystemIndex)
    {
      while |events| <= currentSystemIndex
        invariant Grown(events, currentSystemIndex) == Grown(old(events), currentSystemIndex)
      {
        events := events + [[]];
      }
    }
  }

  class Ecs {
    var world: World
    var next: Entity
    const tracker: EventTracker

    ghost function Now(): State
      reads this, tracker
    {
      State(world, next, tracker.events, tracker.currentSystemIndex)
    }

    constructor ()
      ensures fresh(tracker) && Now() == EMPTY
    {
      world, next := map[], 0;
      tracker := new EventTracker();
    }

    /** A standalone event is an entity of its own. */
    method InsertEvent(kind: Kind, value: Value)
      modifies this, tracker
      ensures Now() == Apply(old(Now()), Op.InsertEvent(kind, value))
    {
      var e := Spawn(map[kind := value]);
      tracker.InsertEvent(e);
    }

    method InsertEntityEvent(e: Entity, kind: Kind, value: Value) returns (ok: bool)
      modifies this, tracker
      ensures Now() == Apply(old(Now()), Op.InsertEntityEvent(e, kind, value)) && ok == (e in old(world))
    {
      ok := Insert(e, kind, value);
      if !ok {
        return;
      }
      tracker.InsertEntityEvent(e, kind);
    }

    method DeferDespawn(e: Entity)
      modifies tracker
      ensures Now() == Apply(old(Now()), Op.DeferDespawn(e))
    {
      tracker.InsertEvent(e);
    }

    method Spawn(components: map<Kind, Value>) returns (e: Entity)
      modifies this
      ensures Now() == Apply(old(Now()), Op.Spawn(components)) && e == old(next)
    {
      e := next;
      world, next := world[e := components], next + 1;
    }

    method Insert(e: Entity, kind: Kind, value: Value) returns (ok: bool)
      modifies this`world
      ensures Now() == Apply(old(Now()), Op.Insert(e, kind, value)) && ok == (e in old(world))
    {
      if e !in world {
        return false;
      }
      world := Put(world, e, kind, value);
      return true;
    }

    method Remove(e: Entity, kind: Kind) returns (removed: Option<Value>)
      modifies this`world
      ensures Now() == Apply(old(Now()), Op.Remove(e, kind)) && removed == Get(old(world), e, kind)
    {
      removed := Get(world, e, kind);
      if e in world {
        world := world[e := world[e] - {kind}];
      }
    }

    method Despawn(e: Entity) returns (ok: bool)
      modifies this`world
      ensures Now() == Apply(old(Now()), Op.Despawn(e)) && ok == (e in old(world))
    {
      ok := e in world;
      world := world - {e};
    }

    method RemoveOldEvents()
      modifies this`world, tracker
      ensures Now() == Begin(old(Now()), old(tracker.currentSystemIndex), false)
    {
      world := tracker.RemoveOldEvents(world);
    }

    /** One operation of a system. */
    method Do(op: Op)
      modifies this, tracker
      ensures Now() == Apply(old(Now()), op)
    {
      match op {
        case InsertEvent(kind, value) => InsertEvent(kind, value);
        case InsertEntityEvent(e, kind, value) => var ok := InsertEntityEvent(e, kind, value);
        case DeferDespawn(e) => DeferDespawn(e);
        case Spawn(components) => var e := Spawn(components);
        case Insert(e, kind, value) => var ok := Insert(e, kind, value);
        case Remove(e, kind) => var removed := Remove(e, kind);
        case Despawn(e) => var ok := Despawn(e);
      }
    }
  }

  /** Runs systems in order. What the systems do in one tick is given as lists of operations. */
  class SystemExecutor {
    var isFirstRun: bool

    constructor ()
      ensures isFirstRun
    {
      isFirstRun := true;
    }

    method Run(ecs: Ecs, scripts: seq<seq<Op>>)
      modifies this, ecs, ecs.tracker
      ensures ecs.Now() == Tick(old(ecs.Now()), scripts, old(isFirstRun)) && !isFirstRun
    {
      for i := 0 to |scripts|
        invariant ecs.Now() == Tick(old(ecs.Now()), scripts[..i], isFirstRun) && isFirstRun == old(isFirstRun)
      {
        assert scripts[..i + 1][..i] == scripts[..i];
        RunSystem(ecs, i, scripts[i]);
      }
      assert scripts[..|scripts|] == scripts;
      isFirstRun := false;
    }

    method RunSystem(ecs: Ecs, i: nat, script: seq<Op>)
      modifies ecs, ecs.tracker
      ensures ecs.Now() == Perform(Begin(old(ecs.Now()), i, isFirstRun), script)
    {
      ecs.tracker.SetCurrentSystemIndex(i);
      if !isFirstRun {
        ecs.RemoveOldEvents();
      }
      ghost var start := ecs.Now();
      for k := 0 to |script|
        invariant ecs.Now() == Perform(start, script[..k])
      {
        assert script[..k + 1][..k] == script[..k];
        ecs.Do(script[k]);
      }
      assert script[..|script|] == script;
    }
  }

  /** What the systems do in tick `t`. */
  function TickOf(n: nat, script: nat -> seq<Op>, t: nat): seq<seq<Op>> {
    seq(n, (i: nat) => script(t * n + i))
  }

  /** The ticks of the executor are the runs of the systems one after the other: `n` runs a tick. */
  lemma {:induction false} TicksAreRuns(n: nat, s: State, script: nat -> seq<Op>, t: nat, i: nat)
    requires n > 0 && i <= n
    ensures After(n, s, Performing(script), t * n + i)
         == Tick(After(n, s, Performing(script), t * n), TickOf(n, script, t)[..i], t == 0)
    decreases i
  {
    if i > 0 {
      var scripts := TickOf(n, script, t)[..i];
      TicksAreRuns(n, s, script, t, i - 1);
      TurnInTick(n, t, i - 1);
      assert scripts[..i - 1] == TickOf(n, script, t)[..i - 1] && scripts[i - 1] == script(t * n + (i - 1));
    }
  }
}
