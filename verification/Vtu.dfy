/** The voxel traversal unit as a register machine, and the reference ray cast beside it. */
module Units {
  import opened FixedPoint
  import opened Voxels
  import opened Traversal
  import opened VtuModel
  import opened Caches

  class VoxelTraversalUnit {
    const index: nat
    const tab: Tables
    const l2: L2Cache

    var reset: bool
    var currentPixel: nat
    var rayOriginIn: Vec3
    var rayDirectionIn: Vec3
    var rayInitIn: bool
    var voxelOut: Block
    var normalOut: Vec3
    var validOut: bool

    var rayDirection: Vec3
    var rayPosition: Vec3i
    var rayStep: Vec3i
    var rayTDelta: Vec3
    var rayDist: Vec3
    var rayTMax: Vec3
    var numSteps: nat
    var lastStep: Axis

    constructor (index: nat, tab: Tables, l2: L2Cache)
      ensures this.index == index && this.tab == tab && this.l2 == l2 && !reset
      ensures State() == Vtu(ORIGIN, ORIGIN, false, 0, Air, ORIGIN, false, ORIGIN, ORIGIN,
                             Ray(ORIGIN_I, ORIGIN), Walk(ORIGIN_I, ORIGIN, NoAxis), 0)
    {
      this.index, this.tab, this.l2 := index, tab, l2;
      reset, currentPixel, rayOriginIn, rayDirectionIn, rayInitIn := false, 0, ORIGIN, ORIGIN, false;
      voxelOut, normalOut, validOut := Air, ORIGIN, false;
      rayDirection, rayPosition, rayStep, rayTDelta := ORIGIN, ORIGIN_I, ORIGIN_I, ORIGIN;
      rayDist, rayTMax, numSteps, lastStep := ORIGIN, ORIGIN, 0, NoAxis;
    }

    function State(): Vtu
      reads this
    {
      Vtu(rayOriginIn, rayDirectionIn, rayInitIn, currentPixel, voxelOut, normalOut, validOut,
          rayDirection, rayDist, Ray(rayStep, rayTDelta), Walk(rayPosition, rayTMax, lastStep), numSteps)
    }

    /** The ray cast that reads the memory directly, without a clock. */
    method MockCast()
      modifies this`voxelOut, this`validOut, this`normalOut
      ensures var out := MockOutcome(tab, l2.l3.ddrRam, rayOriginIn, rayDirectionIn);
        && validOut && voxelOut == ShownVoxel(out)
        && normalOut == ShownNormal(Aim(tab, rayDirectionIn), out, old(normalOut))
    {
      var chunk := l2.l3.ddrRam;
      var dir := rayDirectionIn.Normalized(tab);
      var pos := rayOriginIn.FloorAll();
      var step := Steps(dir);
      var tDelta := Deltas(tab, dir);
      var tMax := FirstCrossings(dir, tDelta, Distances(step, rayOriginIn, pos));
      var steps: nat := 0;
      var last := NoAxis;

      ghost var ray := Aim(tab, rayDirectionIn);
      ghost var inside := InChunk(pos);
      ghost var expected := MockOutcome(tab, chunk, rayOriginIn, rayDirectionIn);
      while true
        invariant steps <= MOCK_LIMIT + 1
        invariant normalOut == old(normalOut)
        invariant Within(pos, HALF + steps) || !inside
        invariant if inside then
                    (InChunk(pos) || Gone(ray, pos))
                    && expected == FirstHit(chunk, ray, Walk(pos, tMax, last), steps, MOCK_LIMIT)
                  else steps == 0 && !InChunk(pos) && expected == Miss
        decreases MOCK_LIMIT + 1 - steps
      {
        ghost var w := Walk(pos, tMax, last);
        if steps > MOCK_LIMIT {
          voxelOut := Air;
          validOut := true;
          return;
        }
        var block := Query(chunk, pos);
        if block.None? {
          if inside { GoneMisses(chunk, ray, w, steps, MOCK_LIMIT); }
          voxelOut := Air;
          validOut := true;
          return;
        }
        if block.value != Air {
          voxelOut := block.value;
          validOut := true;
          normalOut := AxisNormal(step, last);
          return;
        }
        AdvanceLeavesForGood(ray, w, HALF + steps);
        pos, tMax, last := NextVoxel(step, tDelta, pos, tMax);
        assert Walk(pos, tMax, last) == Advance(ray, w);
        steps := steps + 1;
      }
    }

    ghost predicate Wired()
      reads this, l2
    {
      l2.Valid() && index < l2.addrIn.Length
    }

    /** What the unit drives into its cache port. */
    function Request(): Ask
      reads this, l2, l2.addrIn, l2.readEnableIn
      requires Wired()
    {
      Ask(l2.addrIn[index], l2.readEnableIn[index])
    }

    /** The registers, and the request on the unit's cache port, after one edge. */
    method RisingClkEdge()
      requires Wired()
      modifies this, l2.addrIn, l2.readEnableIn
      ensures reset == old(reset)
      ensures (State(), Request())
        == Edge(tab, old(State()), old(Request()), reset, l2.validOut[index], l2.voxelOut[index])
      ensures forall j :: 0 <= j < l2.addrIn.Length && j != index ==>
        l2.addrIn[j] == old(l2.addrIn[j]) && l2.readEnableIn[j] == old(l2.readEnableIn[j])
    {
      if reset {
        Clear();
        l2.readEnableIn[index] := false;
        return;
      }
      if rayInitIn {
        Initialize();
        l2.readEnableIn[index] := true;
        l2.addrIn[index] := rayPosition;
        return;
      }
      if validOut {
        return;
      }
      if numSteps > UNIT_LIMIT {
        GiveUp();
        l2.readEnableIn[index] := false;
        return;
      }
      if !l2.validOut[index] {
        return;
      }
      if l2.voxelOut[index] != Air {
        Finish(l2.voxelOut[index]);
        l2.readEnableIn[index] := false;
        return;
      }
      MoveOn();
      l2.readEnableIn[index] := true;
      l2.addrIn[index] := rayPosition;
    }

    /** Gives the unit a new pixel's ray to start on at its next edge. */
    method StartOn(origin: Vec3, direction: Vec3, pixel: nat)
      modifies this`rayOriginIn, this`rayDirectionIn, this`rayInitIn, this`currentPixel
      ensures State() == old(State()).(origin := origin, direction := direction, init := true, pixel := pixel)
    {
      rayDirectionIn := direction;
      rayOriginIn := origin;
      currentPixel := pixel;
      rayInitIn := true;
    }

    method Clear()
      modifies this
      ensures reset == old(reset)
      ensures State() == Cleared(old(State()))
    {
      voxelOut, validOut, normalOut := Air, false, FORWARD;
      ClearRegisters();
    }

    method ClearRegisters()
      modifies this`rayDirection, this`rayDist, this`rayStep, this`rayTDelta, this`rayPosition, this`rayTMax,
        this`lastStep, this`numSteps
      ensures State() == old(State()).(heading := FORWARD, dist := ORIGIN, ray := Ray(ORIGIN_I, ORIGIN),
                                       walk := Walk(ORIGIN_I, ORIGIN, NoAxis), taken := 0)
    {
      rayDirection, rayDist := FORWARD, ORIGIN;
      rayStep, rayTDelta := ORIGIN_I, ORIGIN;
      rayPosition, rayTMax, lastStep := ORIGIN_I, ORIGIN, NoAxis;
      numSteps := 0;
    }

    /** Takes up the ray on the inputs; the axis of the last step is left as it was. */
    method Initialize()
      modifies this
      ensures reset == old(reset)
      ensures State() == Initialized(tab, old(State()))
    {
      SetUpRay();
      rayTMax := FirstCrossings(rayDirection, rayTDelta, rayDist);
      numSteps := 0;
      validOut := false;
    }

    method SetUpRay()
      modifies this`rayDirection, this`rayDist, this`rayStep, this`rayTDelta, this`rayPosition
      ensures var v := old(State());
        State() == v.(heading := v.direction.Normalized(tab), ray := Aim(tab, v.direction),
                      dist := Distances(Steps(v.direction.Normalized(tab)), v.origin, v.origin.FloorAll()),
                      walk := v.walk.(pos := v.origin.FloorAll()))
    {
      rayDirection := rayDirectionIn.Normalized(tab);
      rayPosition := rayOriginIn.FloorAll();
      rayStep := Steps(rayDirection);
      rayTDelta := Deltas(tab, rayDirection);
      rayDist := Distances(rayStep, rayOriginIn, rayPosition);
    }

    method GiveUp()
      modifies this`voxelOut, this`validOut
      ensures State() == old(State()).(voxel := Air, valid := true)
    {
      voxelOut := Air;
      validOut := true;
    }

    method Finish(block: Block)
      modifies this`voxelOut, this`validOut, this`normalOut
      ensures State() == old(State()).(voxel := block, valid := true,
                                       normal := NormalOf(old(State().ray), old(State().walk.last)))
    {
      voxelOut := block;
      validOut := true;
      normalOut := AxisNormal(rayStep, lastStep);
    }

    method MoveOn()
      modifies this`rayPosition, this`rayTMax, this`lastStep, this`numSteps
      ensures State() == old(State()).(walk := Advance(old(State().ray), old(State().walk)), taken := old(numSteps) + 1)
    {
      rayPosition, rayTMax, lastStep := NextVoxel(rayStep, rayTDelta, rayPosition, rayTMax);
      numSteps := numSteps + 1;
    }
  }

  method AxisNormal(step: Vec3i, last: Axis) returns (normal: Vec3)
    ensures forall delta :: normal == NormalOf(Ray(step, delta), last)
  {
    match last
    case NoAxis => normal := ORIGIN;
    case AxisX => normal := RIGHT.Scale(FromInt(Wrap16(0 - step.x)));
    case AxisY => normal := UP.Scale(FromInt(Wrap16(0 - step.y)));
    case AxisZ => normal := FORWARD.Scale(FromInt(Wrap16(0 - step.z)));
  }

  /** The comparisons and additions of one step, as the original nests them. */
  method NextVoxel(step: Vec3i, delta: Vec3, pos: Vec3i, tMax: Vec3)
    returns (pos': Vec3i, tMax': Vec3, last: Axis)
    ensures forall before :: Walk(pos', tMax', last) == Advance(Ray(step, delta), Walk(pos, tMax, before))
  {
    pos', tMax' := pos, tMax;
    if tMax.x < tMax.y {
      if tMax.x < tMax.z {
        pos' := pos'.(x := Wrap16(pos.x + step.x));
        tMax' := tMax'.(x := Add(tMax.x, delta.x));
        last := AxisX;
      } else {
        pos' := pos'.(z := Wrap16(pos.z + step.z));
        tMax' := tMax'.(z := Add(tMax.z, delta.z));
        last := AxisZ;
      }
    } else {
      if tMax.y < tMax.z {
        pos' := pos'.(y := Wrap16(pos.y + step.y));
        tMax' := tMax'.(y := Add(tMax.y, delta.y));
        last := AxisY;
      } else {
        pos' := pos'.(z := Wrap16(pos.z + step.z));
        tMax' := tMax'.(z := Add(tMax.z, delta.z));
        last := AxisZ;
      }
    }
  }
}
