/** What every run of the orchestrator keeps, what it has drawn, and how long a frame takes. */
module Orchestration {
  import opened FixedPoint
  import opened Voxels
  import opened Traversal
  import opened CacheModel
  import opened VtuModel
  import opened Pipeline
  import opened OrchestratorModel

  // ----- what the units are working on -----

  /** A unit that is to be started, one that has nothing to do since the reset, or one that works
    * on (or shows) the ray of its own inputs.
    */
  ghost predicate UnitOk(tab: Tables, chunk: Chunk, v: Vtu, ask: Ask) {
    || v.init
    || Idle(v, ask)
    || OnItsRay(tab, chunk, v, ask)
  }

  ghost predicate Idle(v: Vtu, ask: Ask) {
    !v.valid && !ask.enable && v.taken == 0
  }

  ghost predicate OnItsRay(tab: Tables, chunk: Chunk, v: Vtu, ask: Ask) {
    exists last, normal :: Serves(tab, chunk, v, ask, Job(v.origin, v.direction, last, normal))
  }

  ghost predicate UnitsOk(tab: Tables, chunk: Chunk, p: Pipe)
    requires p.Shaped()
  {
    forall i :: 0 <= i < |p.units| ==> UnitOk(tab, chunk, p.units[i], p.AskOf(i))
  }

  lemma CycleKeepsUnit(tab: Tables, chunk: Chunk, p: Pipe, i: nat)
    requires Sound(chunk, p) && i < |p.units| && UnitOk(tab, chunk, p.units[i], p.AskOf(i))
    ensures var q := Cycle(tab, chunk, p, false);
      && (p.units[i].init ==> OnItsRay(tab, chunk, q.units[i], q.AskOf(i)) && !q.units[i].valid)
      && (!p.units[i].init && OnItsRay(tab, chunk, p.units[i], p.AskOf(i)) ==>
             OnItsRay(tab, chunk, q.units[i], q.AskOf(i)))
      && (!p.units[i].init && Idle(p.units[i], p.AskOf(i)) ==> Idle(q.units[i], q.AskOf(i)))
  {
    var v, ask := p.units[i], p.AskOf(i);
    var q := Cycle(tab, chunk, p, false);
    var (l2, l3) := L2Edge(p.l2, p.l3, false);
    CycleIsSound(tab, chunk, p, false);
    assert q.units[i] == Edge(tab, v, ask, false, l2.valid[i], l2.voxel[i]).0;
    assert q.AskOf(i) == Edge(tab, v, ask, false, l2.valid[i], l2.voxel[i]).1;
    if v.init {
      CycleServesJobs(tab, chunk, p, i, JobAtStart(v));
      assert Serves(tab, chunk, q.units[i], q.AskOf(i), Job(v.origin, v.direction, v.walk.last, v.normal));
    } else if OnItsRay(tab, chunk, v, ask) {
      var last, normal :| Serves(tab, chunk, v, ask, Job(v.origin, v.direction, last, normal));
      CycleServesJobs(tab, chunk, p, i, Job(v.origin, v.direction, last, normal));
    }
  }

  // ----- the pixels in the frame -----

  /** The colour that the ray of a pixel calls for: exactly the reference's for a ray that finds
    * nothing, or something after at least one step.
    */
  ghost predicate RightColour(tab: Tables, chunk: Chunk, view: View, pixel: nat, colour: Rgb565)
    requires pixel <= NUM_PIXELS
  {
    exists last, normal :: ColourOf(tab, chunk, view, pixel, last, normal) == colour
  }

  ghost function ColourOf(tab: Tables, chunk: Chunk, view: View, pixel: nat, last: Axis, normal: Vec3): Rgb565
    requires pixel <= NUM_PIXELS
  {
    var out := UnitOutcome(tab, chunk, view.pos, RayOf(view, pixel), last);
    Shade(tab, ShownVoxel(out), ShownNormal(Aim(tab, RayOf(view, pixel)), out, normal))
  }

  /** The colour that the orchestrator gives to what the reference cast finds, a cast of more than 110
    * steps counting as a miss.
    */
  function CastColour(tab: Tables, chunk: Chunk, pos: Vec3, direction: Vec3): Rgb565 {
    match MockOutcome(tab, chunk, pos, direction)
    case Miss => BaseColour(Air)
    case Hit(k, b, last) => if k > 110 then BaseColour(Air) else Shade(tab, b, NormalOf(Aim(tab, direction), last))
  }

  /** A camera inside the chunk, in a voxel that is Air, leaves no choice: the right colour is that of
    * what the reference cast finds.
    */
  lemma RightColourIsCast(tab: Tables, chunk: Chunk, view: View, pixel: nat, colour: Rgb565)
    requires pixel <= NUM_PIXELS && RightColour(tab, chunk, view, pixel, colour)
    requires InChunk(view.pos.FloorAll()) && Read(chunk, view.pos.FloorAll()) == Air
    ensures colour == CastColour(tab, chunk, view.pos, RayOf(view, pixel))
  {
    var last, normal :| ColourOf(tab, chunk, view, pixel, last, normal) == colour;
    var d := RayOf(view, pixel);
    UnitFindsWhatMockFinds(tab, chunk, view.pos, d, last);
    HitAtStart(chunk, Aim(tab, d), Start(tab, view.pos, d, NoAxis), MOCK_LIMIT);
  }

  // ----- the invariant of every run -----

  /** While a frame is being drawn, each unit has the ray of its pixel. */
  ghost predicate Aimed(tab: Tables, chunk: Chunk, o: Orch)
    requires InRange(o)
  {
    o.next < NUM_PIXELS ==> forall i :: 0 <= i < |o.pipe.units| ==>
      var v := o.pipe.units[i];
      && v.origin == o.view.pos && v.direction == RayOf(o.view, v.pixel)
      && (v.init || OnItsRay(tab, chunk, v, o.pipe.AskOf(i)))
  }

  /** The pixels handed out: none is ahead of the counter, and apart from the first pixel, which
    * every unit starts with, none is with two units at once or handed out again once drawn.
    */
  ghost predicate HandedOutOnce(o: Orch)
    requires InRange(o)
  {
    o.next < NUM_PIXELS ==>
      && |o.drawn| == o.next
      && (forall k :: 0 <= k < |o.drawn| ==> o.drawn[k] < o.next)
      && (forall i :: 0 <= i < |o.pipe.units| ==> o.pipe.units[i].pixel <= o.next)
      && (forall i, j :: 0 <= i < j < |o.pipe.units| && o.pipe.units[i].pixel > 0 ==>
            o.pipe.units[i].pixel != o.pipe.units[j].pixel)
      && (forall i, k :: 0 <= i < |o.pipe.units| && 0 <= k < |o.drawn| && o.drawn[k] > 0 ==>
            o.pipe.units[i].pixel != o.drawn[k])
  }

  /** Nothing but the first pixel is drawn twice in a frame, and what is drawn has its colour. */
  ghost predicate DrawnRight(tab: Tables, chunk: Chunk, o: Orch)
    requires InRange(o)
  {
    && (forall k, m :: 0 <= k < m < |o.drawn| && o.drawn[k] > 0 ==> o.drawn[k] != o.drawn[m])
    && RightColours(tab, chunk, o.view, o.frame, o.drawn)
  }

  ghost predicate RightColours(tab: Tables, chunk: Chunk, view: View, frame: seq<Rgb565>, drawn: seq<nat>)
    requires |frame| == NUM_PIXELS
  {
    forall k :: 0 <= k < |drawn| ==>
      drawn[k] < NUM_PIXELS && RightColour(tab, chunk, view, drawn[k], frame[drawn[k]])
  }

  /** What holds between any two cycles since a reset, for any number of units. */
  ghost predicate Inv(tab: Tables, chunk: Chunk, o: Orch) {
    && InRange(o) && Sound(chunk, o.pipe)
    && UnitsOk(tab, chunk, o.pipe) && Aimed(tab, chunk, o)
    && HandedOutOnce(o) && DrawnRight(tab, chunk, o)
  }

  /** A reset establishes the invariant. */
  lemma ResetEstablishes(tab: Tables, chunk: Chunk, o: Orch, pos: Vec3, heading: Vec3)
    requires InRange(o) && Sound(chunk, o.pipe)
    ensures Inv(tab, chunk, Step(tab, chunk, o, pos, heading, true))
  {
    CycleIsSound(tab, chunk, o.pipe, true);
    var q := Cycle(tab, chunk, o.pipe, true);
    forall i | 0 <= i < |q.units| ensures Idle(q.units[i], q.AskOf(i)) {
    }
  }

  /** And it blackens the frame and is followed by a new one. */
  lemma ResetBlanks(tab: Tables, chunk: Chunk, o: Orch, pos: Vec3, heading: Vec3)
    requires InRange(o)
    ensures var r := Step(tab, chunk, o, pos, heading, true);
      && r.next == 160 * 128 && !r.done && r.drawn == [] && (forall p :: 0 <= p < NUM_PIXELS ==> r.frame[p] == 0)
  {
  }

  /** A unit after a cycle within a frame. */
  ghost predicate OnPixelRay(tab: Tables, chunk: Chunk, view: View, pixel: nat, v: Vtu, ask: Ask)
    requires pixel <= NUM_PIXELS
  {
    OnItsRay(tab, chunk, v, ask) && v.origin == view.pos && v.pixel == pixel && v.direction == RayOf(view, pixel)
  }

  lemma QuietKeepsRay(tab: Tables, chunk: Chunk, v: Vtu, ask: Ask)
    requires OnItsRay(tab, chunk, v, ask)
    ensures OnItsRay(tab, chunk, v.(init := false), ask)
  {
    var last, normal :| Serves(tab, chunk, v, ask, Job(v.origin, v.direction, last, normal));
    assert Serves(tab, chunk, v.(init := false), ask, Job(v.origin, v.direction, last, normal));
  }

  lemma CyclePutsUnitOnRay(tab: Tables, chunk: Chunk, p: Pipe, view: View, i: nat)
    requires Sound(chunk, p) && i < |p.units| && p.units[i].pixel <= NUM_PIXELS
    requires p.units[i].origin == view.pos && p.units[i].direction == RayOf(view, p.units[i].pixel)
    requires p.units[i].init || OnItsRay(tab, chunk, p.units[i], p.AskOf(i))
    ensures var q := Quiet(Cycle(tab, chunk, p, false));
      OnPixelRay(tab, chunk, view, p.units[i].pixel, q.units[i], q.AskOf(i))
  {
    var q := Cycle(tab, chunk, p, false);
    CycleKeepsUnit(tab, chunk, p, i);
    QuietKeepsRay(tab, chunk, q.units[i], q.AskOf(i));
    assert Quiet(q).units[i] == q.units[i].(init := false) && Quiet(q).AskOf(i) == q.AskOf(i);
  }

  /** What a cycle within a frame makes of the caches and the units, before any pixel is drawn. */
  ghost predicate Prepared(tab: Tables, chunk: Chunk, o: Orch, q: Pipe)
    requires InRange(o) && o.next < NUM_PIXELS
  {
    && Sound(chunk, q) && |q.units| == |o.pipe.units|
    && forall i :: 0 <= i < |q.units| ==>
         OnPixelRay(tab, chunk, o.view, o.pipe.units[i].pixel, q.units[i], q.AskOf(i))
  }

  /** After a cycle within a frame every unit is on its ray. */
  lemma CyclePutsUnitsOnRays(tab: Tables, chunk: Chunk, o: Orch, q: Pipe)
    requires Inv(tab, chunk, o) && o.next < NUM_PIXELS && q == Quiet(Cycle(tab, chunk, o.pipe, false))
    ensures Prepared(tab, chunk, o, q)
  {
    CycleIsSound(tab, chunk, o.pipe, false);
    forall i | 0 <= i < |q.units|
      ensures OnPixelRay(tab, chunk, o.view, o.pipe.units[i].pixel, q.units[i], q.AskOf(i))
    {
      CyclePutsUnitOnRay(tab, chunk, o.pipe, o.view, i);
    }
  }

  /** The state after the pixel of unit `i` is drawn, with the units quiet as in `q`. */
  ghost function Drawn(tab: Tables, o: Orch, q: Pipe, i: nat): Orch
    requires o.next < NUM_PIXELS && |o.frame| == NUM_PIXELS && i < |q.units| && q.units[i].pixel < NUM_PIXELS
  {
    Draw(tab, o.(pipe := q, done := o.next == NUM_PIXELS - 1), i)
  }

  /** A cycle within a frame after which the units are as in `q`: the pixel of a unit that is done
    * is drawn if there is one.
    */
  ghost predicate DrawsFrom(tab: Tables, o: Orch, q: Pipe, r: Orch)
    requires InRange(o) && o.next < NUM_PIXELS
  {
    && q.Shaped() && |q.units| == |o.pipe.units|
    && (forall j :: 0 <= j < |q.units| ==> q.units[j].pixel == o.pipe.units[j].pixel && !q.units[j].init)
    && match FirstDone(q.units)
       case Some(i) => r == Drawn(tab, o, q, i)
       case None => r == o.(pipe := q, done := o.next == NUM_PIXELS - 1)
  }

  lemma StepDraws(tab: Tables, chunk: Chunk, o: Orch, pos: Vec3, heading: Vec3, q: Pipe)
    requires InRange(o) && o.next < NUM_PIXELS && q == Quiet(Cycle(tab, chunk, o.pipe, false))
    ensures DrawsFrom(tab, o, q, Step(tab, chunk, o, pos, heading, false))
  {
    var p := Cycle(tab, chunk, o.pipe, false);
    assert forall j :: 0 <= j < |p.units| ==> p.units[j].pixel == o.pipe.units[j].pixel;
  }

  lemma DoneHasRightColour(tab: Tables, chunk: Chunk, view: View, v: Vtu, ask: Ask)
    requires v.valid && OnItsRay(tab, chunk, v, ask) && v.pixel <= NUM_PIXELS
    requires v.origin == view.pos && v.direction == RayOf(view, v.pixel)
    ensures RightColour(tab, chunk, view, v.pixel, Shade(tab, v.voxel, v.normal))
  {
    var last, normal :| Serves(tab, chunk, v, ask, Job(v.origin, v.direction, last, normal));
    assert ColourOf(tab, chunk, view, v.pixel, last, normal) == Shade(tab, v.voxel, v.normal);
  }

  lemma DrawKeepsInv(tab: Tables, chunk: Chunk, o: Orch, q: Pipe, i: nat)
    requires Inv(tab, chunk, o) && o.next < NUM_PIXELS
    requires Prepared(tab, chunk, o, q) && i < |q.units| && q.units[i].valid
    ensures InRange(Drawn(tab, o, q, i)) && Inv(tab, chunk, Drawn(tab, o, q, i))
  {
    DoneHasRightColour(tab, chunk, o.view, q.units[i], q.AskOf(i));
    DrawKeepsUnits(tab, chunk, o, q, i);
    DrawKeepsHandedOut(tab, o, q, i);
    DrawKeepsDrawn(tab, chunk, o, q, i);
  }

  lemma DrawKeepsUnits(tab: Tables, chunk: Chunk, o: Orch, q: Pipe, i: nat)
    requires InRange(o) && o.next < NUM_PIXELS && Prepared(tab, chunk, o, q) && i < |q.units|
    ensures var r := Drawn(tab, o, q, i);
      InRange(r) && Sound(chunk, r.pipe) && UnitsOk(tab, chunk, r.pipe) && Aimed(tab, chunk, r)
  {
    var r := Drawn(tab, o, q, i);
    assert r.pipe.units[i].init;
    forall j | 0 <= j < |q.units| && j != i ensures OnItsRay(tab, chunk, r.pipe.units[j], r.pipe.AskOf(j)) {
      assert r.pipe.units[j] == q.units[j] && r.pipe.AskOf(j) == q.AskOf(j);
    }
  }

  lemma DrawKeepsHandedOut(tab: Tables, o: Orch, q: Pipe, i: nat)
    requires InRange(o) && HandedOutOnce(o) && o.next < NUM_PIXELS && q.Shaped()
    requires |q.units| == |o.pipe.units| && i < |q.units|
    requires forall j :: 0 <= j < |q.units| ==> q.units[j].pixel == o.pipe.units[j].pixel
    ensures InRange(Drawn(tab, o, q, i)) && HandedOutOnce(Drawn(tab, o, q, i))
  {
    var r := Drawn(tab, o, q, i);
    assert forall j :: 0 <= j < |r.pipe.units| && j != i ==> r.pipe.units[j].pixel == o.pipe.units[j].pixel;
    assert r.pipe.units[i].pixel == o.next + 1;
  }

  lemma DrawKeepsDrawn(tab: Tables, chunk: Chunk, o: Orch, q: Pipe, i: nat)
    requires InRange(o) && HandedOutOnce(o) && DrawnRight(tab, chunk, o) && o.next < NUM_PIXELS && q.Shaped()
    requires |q.units| == |o.pipe.units| && i < |q.units|
    requires forall j :: 0 <= j < |q.units| ==> q.units[j].pixel == o.pipe.units[j].pixel
    requires RightColour(tab, chunk, o.view, q.units[i].pixel, Shade(tab, q.units[i].voxel, q.units[i].normal))
    ensures InRange(Drawn(tab, o, q, i)) && DrawnRight(tab, chunk, Drawn(tab, o, q, i))
  {
    DrawKeepsHandedOut(tab, o, q, i);
    OneMoreColour(tab, chunk, o.view, o.frame, o.drawn, q.units[i].pixel,
                  Shade(tab, q.units[i].voxel, q.units[i].normal));
  }

  lemma OneMoreColour(tab: Tables, chunk: Chunk, view: View, frame: seq<Rgb565>, drawn: seq<nat>,
                      pixel: nat, colour: Rgb565)
    requires |frame| == NUM_PIXELS && RightColours(tab, chunk, view, frame, drawn)
    requires pixel < NUM_PIXELS && RightColour(tab, chunk, view, pixel, colour)
    ensures RightColours(tab, chunk, view, frame[pixel := colour], drawn + [pixel])
  {
  }

  lemma WaitKeepsInv(tab: Tables, chunk: Chunk, o: Orch, q: Pipe, r: Orch)
    requires Inv(tab, chunk, o) && o.next < NUM_PIXELS && Prepared(tab, chunk, o, q)
    requires r == o.(pipe := q, done := o.next == NUM_PIXELS - 1)
    ensures Inv(tab, chunk, r)
  {
    assert forall i :: 0 <= i < |q.units| ==> q.units[i].pixel == o.pipe.units[i].pixel;
    assert forall i :: 0 <= i < |q.units| ==> UnitOk(tab, chunk, q.units[i], q.AskOf(i));
  }

  lemma StartKeepsInv(tab: Tables, chunk: Chunk, o: Orch, view: View)
    requires InRange(o) && Sound(chunk, o.pipe)
    ensures Inv(tab, chunk, StartFrame(o, view))
  {
    var r := StartFrame(o, view);
    FirstPixelRay(view);
    assert forall i :: 0 <= i < |r.pipe.units| ==> r.pipe.units[i].init && r.pipe.units[i].pixel == 0;
  }

  /** Safety for every number of units: a cycle keeps the invariant. So no draw is outside the
    * frame, every draw shows what its unit's present ray calls for, and no ray is drawn twice.
    */
  lemma StepKeepsInv(tab: Tables, chunk: Chunk, o: Orch, pos: Vec3, heading: Vec3, reset: bool)
    requires Inv(tab, chunk, o)
    ensures Inv(tab, chunk, Step(tab, chunk, o, pos, heading, reset))
  {
    if reset {
      ResetEstablishes(tab, chunk, o, pos, heading);
    } else if o.next == NUM_PIXELS {
      CycleIsSound(tab, chunk, o.pipe, false);
      StartKeepsInv(tab, chunk, Clocked(tab, chunk, o, false), Latch(tab, pos, heading));
    } else {
      var q := Quiet(Cycle(tab, chunk, o.pipe, false));
      CyclePutsUnitsOnRays(tab, chunk, o, q);
      StepDraws(tab, chunk, o, pos, heading, q);
      match FirstDone(q.units) {
        case Some(i) => DrawKeepsInv(tab, chunk, o, q, i);
        case None => WaitKeepsInv(tab, chunk, o, q, Step(tab, chunk, o, pos, heading, false));
      }
    }
  }

  // ----- the first pixel -----

  ghost function Pixels(units: seq<Vtu>): seq<nat> { seq(|units|, i requires 0 <= i < |units| => units[i].pixel) }

  /** Every unit starts a frame with the first pixel: while a frame is being drawn, the draws of that
    * pixel and the units that still hold it are as many as there are units.
    */
  ghost predicate FirstPixelOncePerUnit(o: Orch) {
    && multiset(o.drawn)[0] <= |o.pipe.units|
    && (o.next < NUM_PIXELS ==> multiset(o.drawn)[0] + multiset(Pixels(o.pipe.units))[0] == |o.pipe.units|)
  }

  lemma {:induction false} AllAlike(s: seq<nat>, x: nat)
    requires forall i :: 0 <= i < |s| ==> s[i] == x
    ensures multiset(s)[x] == |s|
  {
    if s != [] {
      AllAlike(s[1..], x);
      assert s == [x] + s[1..];
    }
  }

  lemma DrawsKeepFirstPixel(tab: Tables, o: Orch, q: Pipe, r: Orch)
    requires InRange(o) && o.next < NUM_PIXELS && FirstPixelOncePerUnit(o) && DrawsFrom(tab, o, q, r)
    ensures FirstPixelOncePerUnit(r)
  {
    assert Pixels(q.units) == Pixels(o.pipe.units);
    match FirstDone(q.units) {
      case Some(i) => assert Pixels(r.pipe.units) == Pixels(q.units)[i := o.next + 1];
      case None =>
    }
  }

  /** For every number of units and every cycle: the first pixel is drawn at most once for each unit. */
  lemma StepKeepsFirstPixel(tab: Tables, chunk: Chunk, o: Orch, pos: Vec3, heading: Vec3, reset: bool)
    requires InRange(o) && (reset || FirstPixelOncePerUnit(o))
    ensures FirstPixelOncePerUnit(Step(tab, chunk, o, pos, heading, reset))
  {
    var r := Step(tab, chunk, o, pos, heading, reset);
    if !reset && o.next < NUM_PIXELS {
      var q := Quiet(Cycle(tab, chunk, o.pipe, false));
      StepDraws(tab, chunk, o, pos, heading, q);
      DrawsKeepFirstPixel(tab, o, q, r);
    } else if !reset {
      AllAlike(Pixels(r.pipe.units), 0);
    }
  }

  // ----- whole runs -----

  /** The camera inputs and the reset of one cycle. */
  datatype Input = Input(pos: Vec3, heading: Vec3, reset: bool)

  function Run(tab: Tables, chunk: Chunk, o: Orch, ins: seq<Input>): (r: Orch)
    requires InRange(o)
    ensures InRange(r) && |r.pipe.units| == |o.pipe.units|
  {
    if ins == [] then o
    else
      var last := ins[|ins| - 1];
      Step(tab, chunk, Run(tab, chunk, o, ins[..|ins| - 1]), last.pos, last.heading, last.reset)
  }

  /** Main result on the orchestrator, for every number of units and every run of camera inputs and
    * resets that begins with a reset.
    */
  lemma {:induction false} EveryRunKeepsInv(tab: Tables, chunk: Chunk, o: Orch, ins: seq<Input>)
    requires InRange(o) && Sound(chunk, o.pipe)
    requires ins != [] && ins[0].reset
    ensures Inv(tab, chunk, Run(tab, chunk, o, ins)) && FirstPixelOncePerUnit(Run(tab, chunk, o, ins))
  {
    var before, last := ins[..|ins| - 1], ins[|ins| - 1];
    var o' := Run(tab, chunk, o, before);
    if |ins| == 1 {
      ResetEstablishes(tab, chunk, o, last.pos, last.heading);
    } else {
      EveryRunKeepsInv(tab, chunk, o, before);
      StepKeepsInv(tab, chunk, o', last.pos, last.heading, last.reset);
    }
    StepKeepsFirstPixel(tab, chunk, o', last.pos, last.heading, last.reset);
  }

  // ----- a single unit -----

  /** With one unit: the pixels are drawn in ascending order, and the unit is never left done. */
  ghost predicate InOrder(o: Orch)
    requires InRange(o)
  {
    && |o.pipe.units| == 1
    && |o.drawn| <= NUM_PIXELS && (forall k :: 0 <= k < |o.drawn| ==> o.drawn[k] == k)
    && (o.next < NUM_PIXELS ==>
          && |o.drawn| == o.next == o.pipe.units[0].pixel
          && (o.pipe.units[0].init || !o.pipe.units[0].valid))
    && (o.done ==> o.next >= NUM_PIXELS - 1 && (o.next == NUM_PIXELS ==> |o.drawn| == NUM_PIXELS))
  }

  /** With one unit each frame draws every pixel exactly once, in ascending order: this is kept by
    * every cycle, and when the counter arrives at the end the whole frame has been drawn.
    */
  lemma StepKeepsOrder(tab: Tables, chunk: Chunk, o: Orch, pos: Vec3, heading: Vec3, reset: bool)
    requires Inv(tab, chunk, o) && InOrder(o)
    ensures var r := Step(tab, chunk, o, pos, heading, reset);
      && InOrder(r)
      && (o.next < NUM_PIXELS && !reset && r.next == NUM_PIXELS ==> |r.drawn| == NUM_PIXELS)
      && (o.next < NUM_PIXELS && !reset ==> r.view == o.view)
  {
    if reset {
    } else if o.next < NUM_PIXELS {
      var q := Quiet(Cycle(tab, chunk, o.pipe, false));
      StepDraws(tab, chunk, o, pos, heading, q);
      DrawsInOrder(tab, o, q, Step(tab, chunk, o, pos, heading, false));
    } else {
      StartsInOrder(Clocked(tab, chunk, o, false), Latch(tab, pos, heading));
    }
  }

  lemma DrawsInOrder(tab: Tables, o: Orch, q: Pipe, r: Orch)
    requires InRange(o) && InOrder(o) && o.next < NUM_PIXELS && DrawsFrom(tab, o, q, r)
    ensures InRange(r) && InOrder(r) && r.view == o.view
    ensures r.next == NUM_PIXELS ==> |r.drawn| == NUM_PIXELS
  {
  }

  lemma StartsInOrder(o: Orch, view: View)
    requires InRange(o) && |o.pipe.units| == 1
    ensures InOrder(StartFrame(o, view))
  {
  }

  /** The frame has, in a row and a column, what the reference cast finds there. */
  ghost predicate ShowsCast(tab: Tables, chunk: Chunk, frame: seq<Rgb565>, view: View, row: nat, column: nat)
    requires |frame| == NUM_PIXELS && row < 128 && column < 160
  {
    frame[row * 160 + column] == CastColour(tab, chunk, view.pos, DirectionTo(view, row, column))
  }

  lemma PixelShowsCast(tab: Tables, chunk: Chunk, frame: seq<Rgb565>, view: View, row: nat, column: nat, p: nat)
    requires |frame| == NUM_PIXELS && row < 128 && column < 160 && p == row * 160 + column
    requires RightColour(tab, chunk, view, p, frame[p])
    requires InChunk(view.pos.FloorAll()) && Read(chunk, view.pos.FloorAll()) == Air
    ensures ShowsCast(tab, chunk, frame, view, row, column)
  {
    assert RayOf(view, p) == DirectionTo(view, row, column) by {
      RowAndColumn(row, column);
      PixelsAreInRows(view, p, row, column);
    }
    RightColourIsCast(tab, chunk, view, p, frame[p]);
  }

  /** A frame that one unit has drawn to the end shows, with the camera in a voxel of Air inside the
    * chunk, what the reference cast finds in each row and column, in the orchestrator's own colours and
    * light, for the camera latched at the frame's start.
    */
  lemma FrameShowsCasts(tab: Tables, chunk: Chunk, o: Orch)
    requires Inv(tab, chunk, o) && InOrder(o) && |o.drawn| == NUM_PIXELS
    requires InChunk(o.view.pos.FloorAll()) && Read(chunk, o.view.pos.FloorAll()) == Air
    ensures forall row, column :: 0 <= row < 128 && 0 <= column < 160 ==>
      ShowsCast(tab, chunk, o.frame, o.view, row, column)
  {
    forall row, column | 0 <= row < 128 && 0 <= column < 160
      ensures ShowsCast(tab, chunk, o.frame, o.view, row, column)
    {
      var p := row * 160 + column;
      assert o.drawn[p] == p;
      PixelShowsCast(tab, chunk, o.frame, o.view, row, column, p);
    }
  }

  // ----- the time that a frame takes -----

  /** The most cycles that one pixel takes, from the draw before it to its own. */
  const PIXEL_CYCLES: int := LONGEST_JOB + 3

  lemma FrameTime()
    ensures PIXEL_CYCLES == 226 && (NUM_PIXELS + 1) * PIXEL_CYCLES == (160 * 128 + 1) * 226
  {
  }

  ghost function Left(o: Orch): int
    requires InRange(o) && |o.pipe.units| == 1
  {
    if o.pipe.units[0].init then PIXEL_CYCLES - 1 else CyclesLeft(o.pipe)
  }

  /** The most cycles until the last pixel of the frame is being drawn. */
  ghost function Budget(o: Orch): int
    requires InRange(o) && |o.pipe.units| == 1
  {
    if o.next == NUM_PIXELS then (NUM_PIXELS + 1) * PIXEL_CYCLES
    else (NUM_PIXELS - o.next) * PIXEL_CYCLES + Left(o)
  }

  lemma LeftIsBounded(tab: Tables, chunk: Chunk, o: Orch)
    requires Inv(tab, chunk, o) && InOrder(o) && o.next < NUM_PIXELS
    ensures 0 < Left(o) < PIXEL_CYCLES
  {
    var v := o.pipe.units[0];
    if !v.init {
      var last, normal :| Serves(tab, chunk, v, o.pipe.AskOf(0), Job(v.origin, v.direction, last, normal));
    }
  }

  /** With one unit every cycle within a frame either draws the next pixel or uses up some of the
    * time that the pixel has left.
    */
  lemma StepMakesProgress(tab: Tables, chunk: Chunk, o: Orch, pos: Vec3, heading: Vec3)
    requires Inv(tab, chunk, o) && InOrder(o) && o.next < NUM_PIXELS
    ensures var r := Step(tab, chunk, o, pos, heading, false);
      r.next == o.next + 1 || (r.next == o.next && Left(r) < Left(o))
  {
    var p := o.pipe;
    var v := p.units[0];
    var q := Cycle(tab, chunk, p, false);
    var r := Step(tab, chunk, o, pos, heading, false);
    if v.init {
      CycleServesJobs(tab, chunk, p, 0, JobAtStart(v));
    } else {
      var last, normal :| Serves(tab, chunk, v, p.AskOf(0), Job(v.origin, v.direction, last, normal));
      CycleMakesProgress(tab, chunk, p, Job(v.origin, v.direction, last, normal));
    }
    if !q.units[0].valid {
      assert r.pipe == Quiet(q) && CyclesLeft(Quiet(q)) == CyclesLeft(q);
    }
  }

  lemma BudgetIsBounded(tab: Tables, chunk: Chunk, o: Orch)
    requires Inv(tab, chunk, o) && InOrder(o)
    ensures 0 < Budget(o) <= (NUM_PIXELS + 1) * PIXEL_CYCLES
  {
    if o.next < NUM_PIXELS { LeftIsBounded(tab, chunk, o); }
    BudgetArithmetic(o, o.(next := NUM_PIXELS));
  }

  /** Each cycle uses up some of the budget, until the one that draws the last pixel. */
  lemma BudgetShrinks(tab: Tables, chunk: Chunk, o: Orch, pos: Vec3, heading: Vec3)
    requires Inv(tab, chunk, o) && InOrder(o)
    ensures var r := Step(tab, chunk, o, pos, heading, false);
      && 0 < Budget(o) <= (NUM_PIXELS + 1) * PIXEL_CYCLES
      && (r.next < NUM_PIXELS ==> Budget(r) < Budget(o))
      && r.done == (o.next == NUM_PIXELS - 1)
      && (r.next == NUM_PIXELS ==> o.next == NUM_PIXELS - 1)
  {
    var r := Step(tab, chunk, o, pos, heading, false);
    StepKeepsInv(tab, chunk, o, pos, heading, false);
    StepKeepsOrder(tab, chunk, o, pos, heading, false);
    if r.next < NUM_PIXELS { LeftIsBounded(tab, chunk, r); }
    if o.next < NUM_PIXELS {
      LeftIsBounded(tab, chunk, o);
      StepMakesProgress(tab, chunk, o, pos, heading);
    }
    BudgetArithmetic(o, r);
  }

  lemma BudgetArithmetic(o: Orch, r: Orch)
    requires InRange(o) && InRange(r) && |o.pipe.units| == |r.pipe.units| == 1
    requires o.next < NUM_PIXELS ==> 0 < Left(o) < PIXEL_CYCLES
    requires r.next < NUM_PIXELS ==> 0 < Left(r) < PIXEL_CYCLES
    ensures 0 < Budget(o) <= (NUM_PIXELS + 1) * PIXEL_CYCLES
    ensures r.next < NUM_PIXELS && (if o.next == NUM_PIXELS then r.next == 0
                                    else r.next == o.next + 1 || (r.next == o.next && Left(r) < Left(o)))
      ==> Budget(r) < Budget(o)
  {
  }
}
