/** Whole runs of systems: what is removed when, and what is seen in between. Of the systems nothing
  * is used here but that they record removals in their own lists only.
  */
module EventRuns {
  import opened Components
  import opened Options
  import opened EcsModel

  /** All entities have been spawned. */
  ghost predicate Fresh(s: State) {
    forall e :: e in s.world ==> e < s.next
  }

  ghost predicate OrderlyStep(s: State, t: State) {
    && t.current == s.current && t.next >= s.next && (Fresh(s) ==> Fresh(t))
    && (forall r :: r in ListOf(s.events, s.current) ==> r in ListOf(t.events, s.current))
    && (forall j: nat :: j != s.current ==> ListOf(t.events, j) == ListOf(s.events, j))
  }

  ghost predicate Orderly(does: Doing) {
    forall g: nat, s: State :: OrderlyStep(s, does(g, s))
  }

  // ----- taking turns -----

  lemma {:induction false} TurnsDiffer(n: nat, r: nat, g: nat)
    requires n > 0 && r < g < r + n
    ensures Turn(n, g) != Turn(n, r)
  {
    if r >= n { TurnsDiffer(n, r - n, g - n); }
  }

  /** Between run `g` and the next run of the same system there are the runs of all other systems,
    * each exactly once.
    */
  lemma OnceForEachSystem(n: nat, g: nat, j: nat) returns (h: nat)
    requires j < n && j != Turn(n, g)
    ensures Turn(n, g + n) == Turn(n, g)
    ensures g < h < g + n && Turn(n, h) == j
    ensures forall h' :: g < h' < g + n && Turn(n, h') == j ==> h' == h
  {
    h := NextTurn(n, g, j);
    forall h' | g < h' < g + n && Turn(n, h') == j ensures h' == h {
      if h' < h { TurnsDiffer(n, h', h); } else if h < h' { TurnsDiffer(n, h, h'); }
    }
  }

  lemma {:induction false} NextTurn(n: nat, g: nat, j: nat) returns (h: nat)
    requires j < n && j != Turn(n, g)
    ensures g < h < g + n && Turn(n, h) == j
    decreases g
  {
    if g >= n {
      h := NextTurn(n, g - n, j);
      h := h + n;
    } else {
      h := if j > g then j else j + n;
    }
  }

  lemma {:induction false} TurnInTick(n: nat, t: nat, i: nat)
    requires i < n
    ensures Turn(n, t * n + i) == i && (t * n + i < n <==> t == 0)
  {
    if t > 0 {
      TurnInTick(n, t - 1, i);
      assert t * n + i == (t - 1) * n + i + n;
    }
  }

  // ----- what is removed -----

  lemma {:induction false} GrownLists(events: seq<seq<Removal>>, i: nat)
    ensures |Grown(events, i)| == if i < |events| then |events| else i + 1
    ensures forall j: nat :: ListOf(Grown(events, i), j) == ListOf(events, j)
    decreases if i < |events| then 0 else i + 1 - |events|
  {
    if i >= |events| { GrownLists(events + [[]], i); }
  }

  lemma DrainedLists(events: seq<seq<Removal>>, i: nat)
    ensures ListOf(Drained(events, i), i) == []
    ensures forall j: nat :: j != i ==> ListOf(Drained(events, i), j) == ListOf(events, j)
  {
    GrownLists(events, i);
    assert forall j: nat :: j != i ==> ListOf(Drained(events, i), j) == ListOf(Grown(events, i), j);
  }

  lemma {:induction false} RemovedComponents(w: World, rs: seq<Removal>, e: Entity, kind: Kind)
    ensures e in AllRemoved(w, rs) <==> e in w && DespawnEntity(e) !in rs
    ensures Get(AllRemoved(w, rs), e, kind) == if Drops(rs, e, kind) then None else Get(w, e, kind)
  {
    if rs != [] { RemovedComponents(w, rs[..|rs| - 1], e, kind); }
  }

  ghost predicate Drops(rs: seq<Removal>, e: Entity, kind: Kind) {
    RemoveComponent(e, kind) in rs || DespawnEntity(e) in rs
  }

  lemma BeginRemoves(s: State, i: nat, isFirstRun: bool, e: Entity, kind: Kind)
    ensures var t, rs := Begin(s, i, isFirstRun), if isFirstRun then [] else ListOf(s.events, i);
      && (e in t.world <==> e in s.world && DespawnEntity(e) !in rs)
      && Get(t.world, e, kind) == (if Drops(rs, e, kind) then None else Get(s.world, e, kind))
      && t.next == s.next && t.current == i
      && (forall j: nat :: j != i ==> ListOf(t.events, j) == ListOf(s.events, j))
  {
    if !isFirstRun {
      RemovedComponents(s.world, ListOf(s.events, i), e, kind);
      DrainedLists(s.events, i);
    }
  }

  lemma BeginIsFresh(s: State, i: nat, isFirstRun: bool)
    requires Fresh(s)
    ensures Fresh(Begin(s, i, isFirstRun))
  {
    forall e | e in Begin(s, i, isFirstRun).world ensures e < s.next {
      BeginRemoves(s, i, isFirstRun, e, 0);
    }
  }

  /** What a run has recorded for removal before the next run of the same system. What has been
    * recorded before the first run of a system, by what happened before the first tick, counts as
    * recorded in that run.
    */
  function RecordsIn(n: nat, s: State, does: Doing, g: nat): seq<Removal>
    requires n > 0
  {
    ListOf(After(n, s, does, g + 1).events, Turn(n, g))
  }

  lemma RunIsOrderly(n: nat, s: State, does: Doing, g: nat)
    requires n > 0 && Orderly(does)
    ensures OrderlyStep(Start(n, s, does, g), After(n, s, does, g + 1))
  {
    assert After(n, s, does, g + 1) == does(g, Start(n, s, does, g));
  }

  lemma OtherLists(n: nat, s: State, does: Doing, g: nat, j: nat)
    requires n > 0 && Orderly(does) && j != Turn(n, g)
    ensures ListOf(After(n, s, does, g + 1).events, j) == ListOf(After(n, s, does, g).events, j)
  {
    RunIsOrderly(n, s, does, g);
    BeginRemoves(After(n, s, does, g), Turn(n, g), g < n, 0, 0);
  }

  lemma {:induction false} ListIsKept(n: nat, s: State, does: Doing, lo: nat, hi: nat, j: nat)
    requires n > 0 && Orderly(does) && lo <= hi && forall x: nat :: lo <= x < hi ==> Turn(n, x) != j
    ensures ListOf(After(n, s, does, hi).events, j) == ListOf(After(n, s, does, lo).events, j)
    decreases hi
  {
    if lo < hi {
      ListIsKept(n, s, does, lo, hi - 1, j);
      OtherLists(n, s, does, hi - 1, j);
    }
  }

  /** What is removed before a run of the second and later ticks: what the same system recorded when
    * it ran last. In the first tick nothing is removed.
    */
  lemma FoundAtStart(n: nat, s: State, does: Doing, h: nat, e: Entity, kind: Kind)
    requires n > 0 && Orderly(does)
    ensures var before, start := After(n, s, does, h), Start(n, s, does, h);
      var rs := if h < n then [] else RecordsIn(n, s, does, h - n);
      && start.next == before.next
      && (e in start.world <==> e in before.world && DespawnEntity(e) !in rs)
      && Get(start.world, e, kind) == if Drops(rs, e, kind) then None else Get(before.world, e, kind)
  {
    BeginRemoves(After(n, s, does, h), Turn(n, h), h < n, e, kind);
    if h >= n {
      var y := h - n;
      forall x: nat | y < x < h ensures Turn(n, x) != Turn(n, y) {
        TurnsDiffer(n, y, x);
      }
      ListIsKept(n, s, does, y + 1, h, Turn(n, y));
    }
  }

  lemma {:induction false} AfterIsFresh(n: nat, s: State, does: Doing, g: nat)
    requires n > 0 && Fresh(s) && Orderly(does)
    ensures Fresh(After(n, s, does, g)) && Fresh(Start(n, s, does, g))
  {
    if g > 0 {
      AfterIsFresh(n, s, does, g - 1);
      RunIsOrderly(n, s, does, g - 1);
    }
    BeginIsFresh(After(n, s, does, g), Turn(n, g), g < n);
  }

  // ----- what is seen -----

  /** In run `h`, component `value` of an entity can be seen. */
  ghost predicate Sees(n: nat, s: State, does: Doing, h: nat, e: Entity, kind: Kind, value: Value)
    requires n > 0
  {
    Get(Start(n, s, does, h).world, e, kind) == Some(value)
  }

  /** The event of run `g`: run `g` has inserted it, and leaves it there. */
  ghost predicate Inserted(n: nat, s: State, does: Doing, g: nat, e: Entity, kind: Kind, value: Value)
    requires n > 0
  {
    && Get(After(n, s, does, g + 1).world, e, kind) == Some(value)
    && RemoveComponent(e, kind) in RecordsIn(n, s, does, g)
  }

  /** A run that touches a component as an event only: if it inserts no event it leaves the component
    * alone.
    */
  ghost predicate Civil(n: nat, s: State, does: Doing, x: nat, e: Entity, kind: Kind)
    requires n > 0
  {
    RemoveComponent(e, kind) !in RecordsIn(n, s, does, x) ==>
      Get(After(n, s, does, x + 1).world, e, kind) == Get(Start(n, s, does, x).world, e, kind)
  }

  /** Until the system of run `g` runs again, the entity lives, and its component is touched as an
    * event only.
    */
  ghost predicate Undisturbed(n: nat, s: State, does: Doing, g: nat, e: Entity, kind: Kind)
    requires n > 0
  {
    && (forall x: nat :: g < x + n && x < g ==> DespawnEntity(e) !in RecordsIn(n, s, does, x))
    && (forall x: nat :: g < x < g + n ==> Civil(n, s, does, x, e, kind))
  }

  /** The events of this kind on this entity that other runs insert shortly before or after run
    * `g`: those whose removal falls due while the event of run `g` should be seen, and those that
    * leave another value in its place.
    */
  ghost predicate Clash(n: nat, s: State, does: Doing, g: nat, x: nat, e: Entity, kind: Kind, value: Value)
    requires n > 0
  {
    && x != g && g < x + n && x + 1 < g + n && RemoveComponent(e, kind) in RecordsIn(n, s, does, x)
    && (x > g ==> Get(After(n, s, does, x + 1).world, e, kind) != Some(value))
  }

  lemma {:induction false} SeenUnlessClash(n: nat, s: State, does: Doing, g: nat, h: nat, e: Entity, kind: Kind,
                                           value: Value)
    requires n > 0 && Orderly(does) && Get(After(n, s, does, g + 1).world, e, kind) == Some(value) && g < h < g + n
    requires Undisturbed(n, s, does, g, e, kind) && forall x: nat :: !Clash(n, s, does, g, x, e, kind, value)
    ensures Sees(n, s, does, h, e, kind, value)
    decreases h
  {
    if h > g + 1 {
      SeenUnlessClash(n, s, does, g, h - 1, e, kind, value);
      assert !Clash(n, s, does, g, h - 1, e, kind, value);
      assert Civil(n, s, does, h - 1, e, kind);
    }
    assert Get(After(n, s, does, h).world, e, kind) == Some(value);
    if h >= n {
      assert !Clash(n, s, does, g, h - n, e, kind, value);
      assert DespawnEntity(e) !in RecordsIn(n, s, does, h - n);
    }
    FoundAtStart(n, s, does, h, e, kind);
  }

  /** An event is gone when the triggering system runs again. */
  lemma GoneAtNextRun(n: nat, s: State, does: Doing, g: nat, e: Entity, kind: Kind)
    requires n > 0 && Orderly(does) && RemoveComponent(e, kind) in RecordsIn(n, s, does, g)
    ensures Get(Start(n, s, does, g + n).world, e, kind) == None
  {
    FoundAtStart(n, s, does, g + n, e, kind);
  }

  lemma ReplacedNotSeen(n: nat, s: State, does: Doing, x: nat, e: Entity, kind: Kind, value: Value)
    requires n > 0 && Orderly(does) && Get(After(n, s, does, x + 1).world, e, kind) != Some(value)
    ensures !Sees(n, s, does, x + 1, e, kind, value)
  {
    FoundAtStart(n, s, does, x + 1, e, kind);
  }

  /** Main result on events: the event that run `g` leaves on an entity is seen by every other system
    * exactly once, in that system's one run before the triggering system runs again, if and only if
    * no other system inserts an event of the same kind on the same entity at the wrong time: less
    * than a tick before, so that its removal takes this event with it, or before the last of the
    * others has run, with another value, so that it replaces this event. In any case the event is
    * gone when the triggering system runs again.
    */
  lemma SeenByAllIff(n: nat, s: State, does: Doing, g: nat, e: Entity, kind: Kind, value: Value)
    requires n > 0 && Orderly(does) && Inserted(n, s, does, g, e, kind, value)
    requires Undisturbed(n, s, does, g, e, kind)
    ensures (forall h :: g < h < g + n ==> Sees(n, s, does, h, e, kind, value))
       <==> (forall x: nat :: !Clash(n, s, does, g, x, e, kind, value))
    ensures Get(Start(n, s, does, g + n).world, e, kind) == None
  {
    GoneAtNextRun(n, s, does, g, e, kind);
    if forall x: nat :: !Clash(n, s, does, g, x, e, kind, value) {
      forall h | g < h < g + n ensures Sees(n, s, does, h, e, kind, value) {
        SeenUnlessClash(n, s, does, g, h, e, kind, value);
      }
    } else {
      var x: nat :| Clash(n, s, does, g, x, e, kind, value);
      if x < g {
        GoneAtNextRun(n, s, does, x, e, kind);
        assert !Sees(n, s, does, x + n, e, kind, value);
      } else {
        ReplacedNotSeen(n, s, does, x, e, kind, value);
        assert !Sees(n, s, does, x + 1, e, kind, value);
      }
    }
  }

  /** Events from before the first tick are gone when the first system runs again. */
  lemma EarlyEventsAreGone(n: nat, s: State, does: Doing, e: Entity, kind: Kind)
    requires n > 0 && Orderly(does) && RemoveComponent(e, kind) in ListOf(s.events, 0)
    ensures Get(Start(n, s, does, n).world, e, kind) == None
  {
    RunIsOrderly(n, s, does, 0);
    GoneAtNextRun(n, s, does, 0, e, kind);
  }

  /** An entity that is to be removed when the system of run `g` runs again is there for all other
    * systems once more, if nothing else removes it, and then it is not.
    */
  lemma DeferredDespawn(n: nat, s: State, does: Doing, g: nat, e: Entity)
    requires n > 0 && Orderly(does)
    requires e in After(n, s, does, g + 1).world && DespawnEntity(e) in RecordsIn(n, s, does, g)
    requires forall x: nat :: g < x + n && x < g ==> DespawnEntity(e) !in RecordsIn(n, s, does, x)
    requires forall x: nat :: g < x < g + n && e in Start(n, s, does, x).world ==> e in After(n, s, does, x + 1).world
    ensures forall h: nat :: g < h < g + n ==> e in Start(n, s, does, h).world
    ensures e !in Start(n, s, does, g + n).world
  {
    forall h: nat | g < h < g + n ensures e in Start(n, s, does, h).world {
      StillThere(n, s, does, g, h, e);
    }
    FoundAtStart(n, s, does, g + n, e, 0);
  }

  lemma {:induction false} StillThere(n: nat, s: State, does: Doing, g: nat, h: nat, e: Entity)
    requires n > 0 && Orderly(does) && g < h < g + n && e in After(n, s, does, g + 1).world
    requires forall x: nat :: g < x + n && x < g ==> DespawnEntity(e) !in RecordsIn(n, s, does, x)
    requires forall x: nat :: g < x < g + n && e in Start(n, s, does, x).world ==> e in After(n, s, does, x + 1).world
    ensures e in Start(n, s, does, h).world
    decreases h
  {
    if h > g + 1 {
      StillThere(n, s, does, g, h - 1, e);
      assert e in After(n, s, does, h - 1 + 1).world;
    }
    if h >= n { assert DespawnEntity(e) !in RecordsIn(n, s, does, h - n); }
    FoundAtStart(n, s, does, h, e, 0);
  }

  // ----- standalone events -----

  /** Whatever is there or is to be removed has been spawned. */
  ghost predicate Sane(s: State) {
    Fresh(s) && forall j: nat, r :: r in ListOf(s.events, j) ==> r.entity < s.next
  }

  ghost predicate RunKeepsSane(n: nat, s: State, does: Doing, h: nat)
    requires n > 0
  {
    Sane(Start(n, s, does, h)) ==> Sane(After(n, s, does, h + 1))
  }

  lemma BeginIsSane(s: State, i: nat, isFirstRun: bool)
    requires Sane(s)
    ensures Sane(Begin(s, i, isFirstRun))
  {
    BeginIsFresh(s, i, isFirstRun);
    if !isFirstRun { DrainedLists(s.events, i); }
  }

  lemma {:induction false} RunsAreSane(n: nat, s: State, does: Doing, g: nat)
    requires n > 0 && Sane(s) && forall h: nat :: h < g ==> RunKeepsSane(n, s, does, h)
    ensures Sane(After(n, s, does, g))
  {
    if g > 0 {
      RunsAreSane(n, s, does, g - 1);
      assert RunKeepsSane(n, s, does, g - 1);
      BeginIsSane(After(n, s, does, g - 1), Turn(n, g - 1), g - 1 < n);
    }
  }

  lemma {:induction false} NextGrows(n: nat, s: State, does: Doing, g: nat, h: nat)
    requires n > 0 && Orderly(does) && g <= h
    ensures After(n, s, does, g).next <= After(n, s, does, h).next == Start(n, s, does, h).next
    decreases h
  {
    FoundAtStart(n, s, does, h, 0, 0);
    if g < h {
      NextGrows(n, s, does, g, h - 1);
      RunIsOrderly(n, s, does, h - 1);
    }
  }

  /** What is recorded about an entity is recorded after it has been spawned. */
  lemma NotYetRecorded(n: nat, s: State, does: Doing, x: nat, g: nat, e: Entity)
    requires n > 0 && Orderly(does) && Sane(s) && x < g && forall h: nat :: h < g ==> RunKeepsSane(n, s, does, h)
    requires e >= Start(n, s, does, g).next
    ensures forall r :: r in RecordsIn(n, s, does, x) ==> r.entity < e
  {
    RunsAreSane(n, s, does, x + 1);
    NextGrows(n, s, does, x + 1, g);
  }

  /** A run that leaves an event alone. */
  ghost predicate LeavesAlone(n: nat, s: State, does: Doing, x: nat, e: Entity, kind: Kind)
    requires n > 0
  {
    Civil(n, s, does, x, e, kind) && RemoveComponent(e, kind) !in RecordsIn(n, s, does, x)
  }

  /** An event on an entity that run `g` has spawned for it is seen by every other system, if they
    * leave it alone, and is gone when the triggering system runs again.
    */
  lemma SpawnedEventIsSeen(n: nat, s: State, does: Doing, g: nat, e: Entity, kind: Kind, value: Value)
    requires n > 0 && Orderly(does) && Sane(s) && e >= Start(n, s, does, g).next
    requires forall h: nat :: h < g ==> RunKeepsSane(n, s, does, h)
    requires Get(After(n, s, does, g + 1).world, e, kind) == Some(value) && DespawnEntity(e) in RecordsIn(n, s, does, g)
    requires forall x: nat :: g < x < g + n ==> LeavesAlone(n, s, does, x, e, kind)
    ensures forall h :: g < h < g + n ==> Sees(n, s, does, h, e, kind, value)
    ensures e !in Start(n, s, does, g + n).world
  {
    forall x: nat | x < g ensures forall r :: r in RecordsIn(n, s, does, x) ==> r.entity < e {
      NotYetRecorded(n, s, does, x, g, e);
    }
    forall x: nat ensures !Clash(n, s, does, g, x, e, kind, value) {
      if g < x < g + n { assert LeavesAlone(n, s, does, x, e, kind); }
    }
    forall x: nat | g < x < g + n ensures Civil(n, s, does, x, e, kind) {
      assert LeavesAlone(n, s, does, x, e, kind);
    }
    forall h | g < h < g + n ensures Sees(n, s, does, h, e, kind, value) {
      SeenUnlessClash(n, s, does, g, h, e, kind, value);
    }
    FoundAtStart(n, s, does, g + n, e, kind);
  }
}
