/** The orchestrator as a register machine that owns the caches and the units, and the loop that
  * steps it until a frame is done.
  */
module Machine {
  import opened FixedPoint
  import opened Voxels
  import opened CacheModel
  import opened Caches
  import opened VtuModel
  import opened Units
  import opened Pipeline
  import opened OrchestratorModel
  import opened Orchestration

  class Orchestrator {
    const tab: Tables
    const l2: L2Cache
    const l3: L3Cache
    const vtu: seq<VoxelTraversalUnit>
    const frameBufferOut: array<Rgb565>

    var reset: bool
    var cameraPosIn: Vec3
    var cameraHeadingIn: Vec3
    var frameDoneOut: bool
    var cameraPos: Vec3
    var nextPixel: nat
    var pixel0Loc: Vec3
    var pixelDeltaU: Vec3
    var pixelDeltaV: Vec3
    /** The pixels drawn since the start of the frame. */
    ghost var drawn: seq<nat>

    constructor (tab: Tables, chunk: Chunk, units: nat, size: nat)
      requires 1 <= size
      ensures Wired() && |vtu| == units && this.tab == tab && l3.ddrRam == chunk && !reset
      ensures InRange(State()) && Sound(chunk, State().pipe)
      ensures fresh(l2) && fresh(l3) && (forall v :: v in vtu ==> fresh(v)) && fresh(frameBufferOut)
      ensures fresh(l2.addrIn) && fresh(l2.readEnableIn)
      ensures fresh(l2.voxelOut) && fresh(l2.validOut) && fresh(l2.entries)
    {
      var ram := new L3Cache(chunk);
      var cache := new L2Cache(units, size, ram);
      var made: seq<VoxelTraversalUnit> := [];
      for i := 0 to units
        invariant |made| == i
        invariant forall v :: v in made ==> fresh(v)
        invariant forall j :: 0 <= j < i ==> made[j].index == j && made[j].l2 == cache && made[j].tab == tab
        invariant forall j :: 0 <= j < i ==> made[j].State().pixel == 0
        invariant forall j, k :: 0 <= j < k < i ==> made[j] != made[k]
        invariant cache.Valid() && cache.State() == PowerOn(units, size).l2 && ram.State() == PowerOn(units, size).l3
      {
        var v := new VoxelTraversalUnit(i, tab, cache);
        made := made + [v];
      }
      this.tab, l2, l3, vtu := tab, cache, ram, made;
      frameBufferOut := new Rgb565[NUM_PIXELS](_ => 0);
      reset, cameraPosIn, cameraHeadingIn, frameDoneOut, cameraPos := false, ORIGIN, ORIGIN, false, ORIGIN;
      nextPixel, pixel0Loc, pixelDeltaU, pixelDeltaV, drawn := 0, ORIGIN, ORIGIN, ORIGIN, [];
    }

    /** The wiring: the units have the ports of the one L2 cache, in order. */
    ghost predicate Wired()
      reads l2
    {
      && l2.Valid() && l2.l3 == l3 && l2.addrIn.Length == |vtu|
      && frameBufferOut.Length == NUM_PIXELS
      && (forall i :: 0 <= i < |vtu| ==> vtu[i].index == i && vtu[i].l2 == l2 && vtu[i].tab == tab)
      && (forall i, j :: 0 <= i < j < |vtu| ==> vtu[i] != vtu[j])
    }

    ghost function UnitStates(): (r: seq<Vtu>)
      reads vtu
      ensures |r| == |vtu|
    {
      seq(|vtu|, i requires 0 <= i < |vtu| reads vtu => vtu[i].State())
    }

    ghost function Pipeline(): (p: Pipe)
      reads l2, l3, vtu, l2.addrIn, l2.readEnableIn, l2.voxelOut, l2.validOut, l2.entries
      requires Wired()
      ensures p.Shaped() && |p.units| == |vtu|
    {
      Pipe(l2.State(), l3.State(), UnitStates())
    }

    ghost function State(): (o: Orch)
      reads this, l2, l3, vtu, l2.addrIn, l2.readEnableIn, l2.voxelOut, l2.validOut, l2.entries, frameBufferOut
      requires Wired()
    {
      Orch(Pipeline(), View(cameraPos, pixel0Loc, pixelDeltaU, pixelDeltaV), nextPixel, frameDoneOut,
           frameBufferOut[..], drawn)
    }

    /** Steps the units one after the other: each sees the answer on its own port only. */
    method StepUnits()
      requires Wired()
      modifies vtu, l2.addrIn, l2.readEnableIn
      ensures Wired()
      ensures forall i :: 0 <= i < |vtu| ==>
        && vtu[i].reset == old(vtu[i].reset)
        && (vtu[i].State(), vtu[i].Request())
             == Edge(tab, old(vtu[i].State()), old(vtu[i].Request()), vtu[i].reset, l2.validOut[i], l2.voxelOut[i])
    {
      for i := 0 to |vtu|
        invariant Wired()
        invariant forall j :: 0 <= j < i ==>
          && vtu[j].reset == old(vtu[j].reset)
          && (vtu[j].State(), vtu[j].Request())
               == Edge(tab, old(vtu[j].State()), old(vtu[j].Request()), vtu[j].reset, l2.validOut[j], l2.voxelOut[j])
        invariant forall j :: i <= j < |vtu| ==>
          && vtu[j].reset == old(vtu[j].reset)
          && vtu[j].State() == old(vtu[j].State()) && vtu[j].Request() == old(vtu[j].Request())
      {
        vtu[i].RisingClkEdge();
      }
    }

    method PropagateReset()
      requires Wired()
      modifies l2`reset, l3`reset, vtu
      ensures Wired() && Pipeline() == old(Pipeline())
      ensures l2.reset == l3.reset == reset && forall i :: 0 <= i < |vtu| ==> vtu[i].reset == reset
    {
      l2.reset := reset;
      l3.reset := reset;
      for i := 0 to |vtu|
        invariant Wired() && l2.reset == l3.reset == reset
        invariant l2.State() == old(l2.State()) && l3.State() == old(l3.State())
        invariant forall j :: 0 <= j < |vtu| ==> vtu[j].State() == old(vtu[j].State())
        invariant forall j :: 0 <= j < i ==> vtu[j].reset == reset
      {
        vtu[i].reset := reset;
      }
      assert UnitStates() == old(UnitStates());
    }

    method StepCaches()
      requires Wired() && Sound(l3.ddrRam, Pipeline()) && l2.reset == l3.reset == reset
      modifies l2`nextReplacement, l2.voxelOut, l2.validOut, l2.entries,
        l3`addrIn, l3`readEnableIn, l3`voxelOut, l3`validOut
      ensures Wired()
      ensures var (l2', l3') := L2Edge(old(l2.State()), old(l3.State()), reset);
        l2.State() == l2' && l3.State() == L3Edge(l3.ddrRam, l3', reset)
    {
      l2.RisingClkEdge();
      l3.RisingClkEdge();
    }

    /** The clock edges of the parts: the L2 cache, the L3 cache, then the units. */
    method StepParts()
      requires Wired() && Sound(l3.ddrRam, Pipeline())
      modifies l2, l2.addrIn, l2.readEnableIn, l2.voxelOut, l2.validOut, l2.entries, l3, vtu
      ensures Wired() && Pipeline() == Cycle(tab, l3.ddrRam, old(Pipeline()), reset)
    {
      PropagateReset();
      ghost var p := Pipeline();
      StepCaches();
      ghost var l2', l3' := l2.State(), l3.State();
      assert UnitStates() == p.units;
      label clocked:
      StepUnits();
      assert l2.State() == l2'.(addr := l2.State().addr, enable := l2.State().enable) && l3.State() == l3';
      PartsAreCycle(p, l2', l3');
    }

    /** The parts' states after the units' edges, put together. */
    lemma PartsAreCycle(p: Pipe, l2': L2State, l3': L3State)
      requires Wired() && p.Shaped() && |p.units| == |vtu| && l2'.Shaped(|vtu|, |l2'.entries|)
      requires var (a, b) := L2Edge(p.l2, p.l3, reset); l2' == a && l3' == L3Edge(l3.ddrRam, b, reset)
      requires l2.State() == l2'.(addr := l2.State().addr, enable := l2.State().enable) && l3.State() == l3'
      requires forall i :: 0 <= i < |vtu| ==>
        (vtu[i].State(), vtu[i].Request()) == Edge(tab, p.units[i], p.AskOf(i), reset, l2'.valid[i], l2'.voxel[i])
      ensures Pipeline() == Cycle(tab, l3.ddrRam, p, reset)
    {
      var q := Cycle(tab, l3.ddrRam, p, reset);
      assert UnitStates() == q.units;
      assert l2.State().addr == q.l2.addr && l2.State().enable == q.l2.enable;
    }

    /** One edge of the whole machine. */
    method RisingClkEdge()
      requires Wired() && InRange(State()) && Sound(l3.ddrRam, Pipeline())
      modifies this, frameBufferOut, l2, l2.addrIn, l2.readEnableIn, l2.voxelOut, l2.validOut, l2.entries, l3, vtu
      ensures cameraPosIn == old(cameraPosIn) && cameraHeadingIn == old(cameraHeadingIn) && reset == old(reset)
      ensures Wired() && State() == Step(tab, l3.ddrRam, old(State()), cameraPosIn, cameraHeadingIn, reset)
    {
      StepParts();
      assert State() == Clocked(tab, l3.ddrRam, old(State()), reset);
      UpdateRegisters();
    }

    method UpdateRegisters()
      requires Wired() && InRange(State())
      modifies this, frameBufferOut, vtu
      ensures cameraPosIn == old(cameraPosIn) && cameraHeadingIn == old(cameraHeadingIn) && reset == old(reset)
      ensures Wired()
      ensures State() == Registers(tab, old(State()), cameraPosIn, cameraHeadingIn, reset)
    {
      if reset {
        Blacken();
      } else if nextPixel == NUM_PIXELS {
        BeginFrame();
      } else {
        QuietUnits();
        DrawUnits();
      }
    }

    method Blacken()
      requires Wired()
      modifies this`frameDoneOut, this`cameraPos, this`nextPixel, this`pixel0Loc, this`pixelDeltaU, this`pixelDeltaV,
        this`drawn, frameBufferOut
      ensures Wired() && State() == Blank(old(State()))
    {
      FillFrame();
      ClearCamera();
      frameDoneOut, nextPixel, drawn := false, NUM_PIXELS, [];
    }

    method FillFrame()
      modifies frameBufferOut
      ensures frameBufferOut[..] == seq(frameBufferOut.Length, _ => 0)
    {
      forall p | 0 <= p < frameBufferOut.Length { frameBufferOut[p] := 0; }
    }

    method ClearCamera()
      modifies this`cameraPos, this`pixel0Loc, this`pixelDeltaU, this`pixelDeltaV
      ensures View(cameraPos, pixel0Loc, pixelDeltaU, pixelDeltaV) == View(ORIGIN, ORIGIN, ORIGIN, ORIGIN)
    {
      cameraPos, pixel0Loc, pixelDeltaU, pixelDeltaV := ORIGIN, ORIGIN, ORIGIN, ORIGIN;
    }

    /** Latches the camera and starts every unit on the first pixel. */
    method BeginFrame()
      requires Wired()
      modifies this`frameDoneOut, this`cameraPos, this`nextPixel, this`pixel0Loc, this`pixelDeltaU, this`pixelDeltaV,
        this`drawn, vtu
      ensures Wired()
      ensures State() == StartFrame(old(State()), Latch(tab, cameraPosIn, cameraHeadingIn))
    {
      ghost var before := State();
      LatchCamera();
      ghost var view := View(cameraPos, pixel0Loc, pixelDeltaU, pixelDeltaV);
      StartUnits();
      frameDoneOut, nextPixel, drawn := false, 0, [];
      UnitsAreStarted(before, view, UnitStates());
    }

    lemma UnitsAreStarted(before: Orch, view: View, units: seq<Vtu>)
      requires |units| == |before.pipe.units|
      requires forall i :: 0 <= i < |units| ==> units[i] == before.pipe.units[i].(
        origin := view.pos, direction := view.pixel0.Minus(view.pos), init := true, pixel := 0)
      ensures before.(pipe := before.pipe.(units := units), view := view, next := 0, done := false, drawn := [])
           == StartFrame(before, view)
    {
      assert units == StartFrame(before, view).pipe.units;
    }

    method LatchCamera()
      modifies this`cameraPos, this`pixel0Loc, this`pixelDeltaU, this`pixelDeltaV
      ensures View(cameraPos, pixel0Loc, pixelDeltaU, pixelDeltaV) == Latch(tab, cameraPosIn, cameraHeadingIn)
    {
      cameraPos := cameraPosIn;
      var w := cameraHeadingIn.Normalized(tab);
      var u := UP.Cross(w).Normalized(tab);
      var v := w.Cross(u);
      var viewportU := u.Scale(VIEWPORT_WIDTH);
      var viewportV := v.Negated().Scale(VIEWPORT_HEIGHT);
      pixelDeltaU := u.Scale(PIXEL_SIZE);
      pixelDeltaV := v.Negated().Scale(PIXEL_SIZE);
      var corner := cameraPosIn.Minus(w.Scale(ONE)).Minus(viewportU.Plus(viewportV).Scale(HALF_UNIT));
      pixel0Loc := corner.Plus(pixelDeltaU.Plus(pixelDeltaV).Scale(HALF_UNIT));
    }

    method StartUnits()
      requires Wired()
      modifies vtu
      ensures Wired() && Pipeline() == old(Pipeline()).(units := UnitStates())
      ensures forall i :: 0 <= i < |vtu| ==> vtu[i].State() == old(vtu[i].State()).(
        origin := cameraPos, direction := pixel0Loc.Minus(cameraPos), init := true, pixel := 0)
    {
      for i := 0 to |vtu|
        invariant Wired() && l2.State() == old(l2.State())
        invariant forall j :: 0 <= j < i ==> vtu[j].State() == old(vtu[j].State()).(
          origin := cameraPos, direction := pixel0Loc.Minus(cameraPos), init := true, pixel := 0)
        invariant forall j :: i <= j < |vtu| ==> vtu[j].State() == old(vtu[j].State())
      {
        vtu[i].StartOn(cameraPos, pixel0Loc.Minus(cameraPos), 0);
      }
    }

    method QuietUnits()
      requires Wired()
      modifies vtu
      ensures Wired() && State() == old(State()).(pipe := Pipeline()) && Pipeline() == Quiet(old(Pipeline()))
    {
      for i := 0 to |vtu|
        invariant Wired() && l2.State() == old(l2.State())
        invariant forall j :: 0 <= j < i ==> vtu[j].State() == old(vtu[j].State()).(init := false)
        invariant forall j :: i <= j < |vtu| ==> vtu[j].State() == old(vtu[j].State())
      {
        vtu[i].rayInitIn := false;
      }
      assert UnitStates() == Quiet(old(Pipeline())).units;
    }

    /** Looks for a unit that is done, in order of priority, and services the first one. */
    method DrawUnits()
      requires Wired() && InRange(State()) && nextPixel < NUM_PIXELS
      modifies this`frameDoneOut, this`nextPixel, this`drawn, frameBufferOut, vtu
      ensures Wired() && State() == DrawFirstDone(tab, old(State()))
    {
      ghost var before := State();
      frameDoneOut := nextPixel == NUM_PIXELS - 1;
      assert State() == before.(done := nextPixel == NUM_PIXELS - 1);
      DrawDone();
    }

    method DrawDone()
      requires Wired() && InRange(State()) && nextPixel < NUM_PIXELS
      modifies this`nextPixel, this`drawn, frameBufferOut, vtu
      ensures Wired()
      ensures State() == match FirstDone(old(UnitStates()))
                         case Some(k) => Draw(tab, old(State()), k)
                         case None => old(State())
    {
      var i := FindDone();
      if i < |vtu| {
        assert vtu[i].State() == UnitStates()[i];
        DrawUnit(i);
      }
    }

    method FindDone() returns (i: nat)
      ensures match FirstDone(UnitStates())
        case Some(k) => i == k
        case None => i == |vtu|
    {
      ghost var units := UnitStates();
      i := 0;
      while i < |vtu|
        invariant i <= |vtu| && forall j :: 0 <= j < i ==> !units[j].valid
      {
        assert units[i] == vtu[i].State();
        if vtu[i].validOut {
          assert units[i].valid;
          break;
        }
        i := i + 1;
      }
    }

    method DrawUnit(i: nat)
      requires Wired() && nextPixel < NUM_PIXELS && i < |vtu| && vtu[i].currentPixel < NUM_PIXELS
      modifies this`nextPixel, this`drawn, frameBufferOut, vtu[i]
      ensures Wired() && State() == Draw(tab, old(State()), i)
    {
      Paint(i);
      HandOut(i);
    }

    method Paint(i: nat)
      requires Wired() && i < |vtu| && vtu[i].currentPixel < NUM_PIXELS
      modifies this`drawn, frameBufferOut
      ensures drawn == old(drawn) + [vtu[i].currentPixel]
      ensures frameBufferOut[..] ==
        old(frameBufferOut[..])[vtu[i].currentPixel := Shade(tab, vtu[i].voxelOut, vtu[i].normalOut)]
    {
      var colour := ColourUnit(i);
      frameBufferOut[vtu[i].currentPixel] := colour;
      drawn := drawn + [vtu[i].currentPixel];
    }

    method HandOut(i: nat)
      requires Wired() && i < |vtu| && nextPixel < NUM_PIXELS
      modifies this`nextPixel, vtu[i]
      ensures Wired() && nextPixel == old(nextPixel) + 1
      ensures Pipeline() == old(Pipeline()).(units := old(UnitStates())[i := old(vtu[i].State()).(
        origin := cameraPos, direction := RayOf(View(cameraPos, pixel0Loc, pixelDeltaU, pixelDeltaV), nextPixel),
        init := true, pixel := nextPixel)])
    {
      nextPixel := nextPixel + 1;
      vtu[i].StartOn(cameraPos, RayOf(View(cameraPos, pixel0Loc, pixelDeltaU, pixelDeltaV), nextPixel), nextPixel);
      assert l2.State() == old(l2.State());
    }

    method ColourUnit(i: nat) returns (colour: Rgb565)
      requires i < |vtu|
      ensures colour == Shade(tab, vtu[i].voxelOut, vtu[i].normalOut)
    {
      var light := Add(AMBIENT, Mul(DIFFUSE, vtu[i].normalOut.Dot(SUN.Normalized(tab))));
      colour := BaseColour(vtu[i].voxelOut);
      if vtu[i].voxelOut != Air {
        colour := Dimmed(colour, light);
      }
    }
  }

  /** A machine with one unit, some time after a reset. */
  ghost predicate Running(m: Orchestrator)
    reads m, m.l2, m.l3, m.vtu, m.l2.addrIn, m.l2.readEnableIn, m.l2.voxelOut, m.l2.validOut, m.l2.entries,
      m.frameBufferOut
  {
    m.Wired() && !m.reset && Inv(m.tab, m.l3.ddrRam, m.State()) && InOrder(m.State())
  }

  /** The camera that is at the machine's inputs, as a frame that starts now latches it. */
  ghost function CameraNow(m: Orchestrator): View
    reads m
  {
    Latch(m.tab, m.cameraPosIn, m.cameraHeadingIn)
  }

  /** The camera that the frame under way has latched. */
  ghost function CameraLatched(m: Orchestrator): View
    reads m
  {
    View(m.cameraPos, m.pixel0Loc, m.pixelDeltaU, m.pixelDeltaV)
  }

  /** What one cycle without reset does to the time that is left and to the frame. */
  ghost predicate Ticked(o: Orch, r: Orch, camera: View) {
    && InRange(o) && |o.pipe.units| == 1 && 0 < Budget(o) <= (NUM_PIXELS + 1) * PIXEL_CYCLES
    && InRange(r) && |r.pipe.units| == 1 && (r.next < NUM_PIXELS ==> Budget(r) < Budget(o))
    && r.done == (o.next == NUM_PIXELS - 1)
    && (r.next == NUM_PIXELS ==> o.next == NUM_PIXELS - 1)
    && (if o.next < NUM_PIXELS then r.view == o.view && r.next >= o.next
        else r.frame == o.frame && r.next == 0 && r.view == camera)
  }

  lemma StepTicks(tab: Tables, chunk: Chunk, o: Orch, pos: Vec3, heading: Vec3)
    requires Inv(tab, chunk, o) && InOrder(o)
    ensures var r := Step(tab, chunk, o, pos, heading, false);
      Inv(tab, chunk, r) && InOrder(r) && Ticked(o, r, Latch(tab, pos, heading))
  {
    BudgetShrinks(tab, chunk, o, pos, heading);
    StepKeepsInv(tab, chunk, o, pos, heading, false);
    StepKeepsOrder(tab, chunk, o, pos, heading, false);
    if o.next < NUM_PIXELS { StepDraws(tab, chunk, o, pos, heading, Quiet(Cycle(tab, chunk, o.pipe, false))); }
  }

  /** One cycle of a running machine. */
  method Tick(m: Orchestrator)
    requires Running(m)
    modifies m, m.frameBufferOut, m.l2, m.l2.addrIn, m.l2.readEnableIn, m.l2.voxelOut, m.l2.validOut, m.l2.entries,
      m.l3, m.vtu
    ensures Running(m) && CameraNow(m) == old(CameraNow(m))
    ensures Ticked(old(m.State()), m.State(), CameraNow(m))
  {
    StepTicks(m.tab, m.l3.ddrRam, m.State(), m.cameraPosIn, m.cameraHeadingIn);
    m.RisingClkEdge();
  }

  /** Whether a frame is about to start. */
  predicate BetweenFrames(m: Orchestrator)
    reads m
  {
    m.nextPixel == NUM_PIXELS && !m.frameDoneOut
  }

  /** The two loops that step the machine until a frame's last pixel is being drawn, and on until
    * the frame is complete. Both end, the first within a number of cycles known beforehand, and
    * every pixel of the frame then shown has the right colour for one and the same view: that of the
    * frame under way or, if none was, of the camera at the inputs. When the loops end the next frame
    * has been started, with the camera at the inputs.
    */
  method RenderFrame(m: Orchestrator) returns (cycles: nat, ghost view: View)
    requires Running(m)
    modifies m, m.frameBufferOut, m.l2, m.l2.addrIn, m.l2.readEnableIn, m.l2.voxelOut, m.l2.validOut, m.l2.entries,
      m.l3, m.vtu
    ensures Running(m) && CameraNow(m) == old(CameraNow(m))
    ensures !m.frameDoneOut && cycles <= (NUM_PIXELS + 1) * PIXEL_CYCLES
    ensures forall p :: 0 <= p < NUM_PIXELS ==> RightColour(m.tab, m.l3.ddrRam, view, p, m.frameBufferOut[p])
    ensures view == if old(BetweenFrames(m)) then CameraNow(m) else old(CameraLatched(m))
    ensures m.nextPixel < NUM_PIXELS && CameraLatched(m) == CameraNow(m)
  {
    cycles := RenderMost(m);
    view := CameraLatched(m);
    FinishFrame(m);
  }

  /** The second loop: the last pixel is drawn, and the next frame is started. */
  method FinishFrame(m: Orchestrator)
    requires Running(m) && m.frameDoneOut
    modifies m, m.frameBufferOut, m.l2, m.l2.addrIn, m.l2.readEnableIn, m.l2.voxelOut, m.l2.validOut, m.l2.entries,
      m.l3, m.vtu
    ensures Running(m) && CameraNow(m) == old(CameraNow(m)) && !m.frameDoneOut
    ensures forall p :: 0 <= p < NUM_PIXELS ==>
      RightColour(m.tab, m.l3.ddrRam, old(CameraLatched(m)), p, m.frameBufferOut[p])
    ensures m.nextPixel < NUM_PIXELS && CameraLatched(m) == CameraNow(m)
  {
    ghost var camera, view := CameraNow(m), CameraLatched(m);
    while m.frameDoneOut
      invariant Running(m) && CameraNow(m) == camera
      invariant if m.frameDoneOut then CameraLatched(m) == view
                else m.nextPixel < NUM_PIXELS && CameraLatched(m) == camera
      invariant m.frameDoneOut ||
        forall p :: 0 <= p < NUM_PIXELS ==> RightColour(m.tab, m.l3.ddrRam, view, p, m.State().frame[p])
      decreases m.frameDoneOut, NUM_PIXELS - m.nextPixel, if m.nextPixel < NUM_PIXELS then Budget(m.State()) else 0
    {
      if m.nextPixel == NUM_PIXELS {
        AllDrawn(m.tab, m.l3.ddrRam, m.State());
      }
      Tick(m);
    }
  }

  /** The first loop. */
  method RenderMost(m: Orchestrator) returns (cycles: nat)
    requires Running(m)
    modifies m, m.frameBufferOut, m.l2, m.l2.addrIn, m.l2.readEnableIn, m.l2.voxelOut, m.l2.validOut, m.l2.entries,
      m.l3, m.vtu
    ensures Running(m) && CameraNow(m) == old(CameraNow(m))
    ensures m.frameDoneOut && cycles <= (NUM_PIXELS + 1) * PIXEL_CYCLES
    ensures CameraLatched(m) == if old(BetweenFrames(m)) then CameraNow(m) else old(CameraLatched(m))
  {
    cycles := 0;
    ghost var starting, camera, latched := BetweenFrames(m), CameraNow(m), CameraLatched(m);
    BudgetIsBounded(m.tab, m.l3.ddrRam, m.State());
    while !m.frameDoneOut
      invariant Running(m) && CameraNow(m) == camera
      invariant cycles + (if m.frameDoneOut then 0 else Budget(m.State())) <= (NUM_PIXELS + 1) * PIXEL_CYCLES
      invariant BetweenFrames(m) ==> starting
      invariant CameraLatched(m) == if starting && !BetweenFrames(m) then camera else latched
      decreases !m.frameDoneOut, Budget(m.State())
    {
      Tick(m);
      cycles := cycles + 1;
    }
  }

  /** A machine as the program makes it: one unit, and one cycle with the reset held. */
  method PowerUp(tab: Tables, chunk: Chunk, size: nat) returns (m: Orchestrator)
    requires 1 <= size
    ensures Running(m) && BetweenFrames(m) && m.tab == tab && m.l3.ddrRam == chunk
  {
    m := new Orchestrator(tab, chunk, 1, size);
    m.reset := true;
    ResetEstablishes(tab, chunk, m.State(), m.cameraPosIn, m.cameraHeadingIn);
    m.RisingClkEdge();
    ghost var o := m.State();
    assert Inv(tab, chunk, o) && InOrder(o);
    m.reset := false;
    assert m.State() == o;
  }

  lemma AllDrawn(tab: Tables, chunk: Chunk, o: Orch)
    requires Inv(tab, chunk, o) && InOrder(o) && |o.drawn| == NUM_PIXELS
    ensures forall p :: 0 <= p < NUM_PIXELS ==> RightColour(tab, chunk, o.view, p, o.frame[p])
  {
    forall p | 0 <= p < NUM_PIXELS ensures RightColour(tab, chunk, o.view, p, o.frame[p]) {
      assert o.drawn[p] == p;
    }
  }
}
