/** What one clock edge of a voxel traversal unit does, on values, and how it relates to the
  * reference ray cast that reads the memory directly.
  */
module VtuModel {
  import opened FixedPoint
  import opened Voxels
  import opened Traversal

  /** The last step count at which the unit, and the reference, still look at a voxel. */
  const UNIT_LIMIT: nat := 110
  const MOCK_LIMIT: nat := 220

  /** A unit's inputs, outputs and registers. */
  datatype Vtu = Vtu(origin: Vec3, direction: Vec3, init: bool, pixel: nat,
                     voxel: Block, normal: Vec3, valid: bool,
                     heading: Vec3, dist: Vec3, ray: Ray, walk: Walk, taken: nat)

  /** The voxel address and read enable that a unit drives into its cache port. */
  datatype Ask = Ask(addr: Vec3i, enable: bool)

  function NormalOf(ray: Ray, last: Axis): Vec3 {
    match last
    case NoAxis => ORIGIN
    case AxisX => RIGHT.Scale(FromInt(Wrap16(0 - ray.step.x)))
    case AxisY => UP.Scale(FromInt(Wrap16(0 - ray.step.y)))
    case AxisZ => FORWARD.Scale(FromInt(Wrap16(0 - ray.step.z)))
  }

  /** The normal of the face that a step crosses has length one and looks against the step. */
  lemma NormalFacesRay(ray: Ray)
    requires Unit(ray)
    ensures NormalOf(ray, AxisX) == Vec3(-0x100 * ray.step.x, 0, 0)
    ensures NormalOf(ray, AxisY) == Vec3(0, -0x100 * ray.step.y, 0)
    ensures NormalOf(ray, AxisZ) == Vec3(0, 0, -0x100 * ray.step.z)
    ensures NormalOf(ray, NoAxis) == Vec3(0, 0, 0)
  {
    assert Mul(ONE, FromInt(1)) == ONE && Mul(ONE, FromInt(-1)) == -0x100;
    assert Mul(ZERO, FromInt(1)) == 0 && Mul(ZERO, FromInt(-1)) == 0;
  }

  // ----- one clock edge, given the answer of the cache port -----

  function Cleared(v: Vtu): Vtu {
    v.(voxel := Air, valid := false, normal := FORWARD, heading := FORWARD, dist := ORIGIN,
       ray := Ray(ORIGIN_I, ORIGIN), walk := Walk(ORIGIN_I, ORIGIN, NoAxis), taken := 0)
  }

  function Initialized(tab: Tables, v: Vtu): Vtu {
    var d := v.direction.Normalized(tab);
    v.(heading := d, dist := Distances(Steps(d), v.origin, v.origin.FloorAll()),
       ray := Aim(tab, v.direction), walk := Start(tab, v.origin, v.direction, v.walk.last),
       taken := 0, valid := false)
  }

  function Edge(tab: Tables, v: Vtu, ask: Ask, reset: bool, valid: bool, voxel: Block): (Vtu, Ask) {
    if reset then (Cleared(v), ask.(enable := false))
    else if v.init then
      var v' := Initialized(tab, v);
      (v', Ask(v'.walk.pos, true))
    else if v.valid then (v, ask)
    else if v.taken > UNIT_LIMIT then (v.(voxel := Air, valid := true), ask.(enable := false))
    else if !valid then (v, ask)
    else if voxel != Air then
      (v.(voxel := voxel, valid := true, normal := NormalOf(v.ray, v.walk.last)), ask.(enable := false))
    else
      var v' := v.(walk := Advance(v.ray, v.walk), taken := v.taken + 1);
      (v', Ask(v'.walk.pos, true))
  }

  /** A unit that is started has its registers set up for the faces that the ray is to meet, and asks
    * for the voxel of the ray's origin.
    */
  lemma InitMeetsFaces(tab: Tables, v: Vtu, ask: Ask, valid: bool, voxel: Block, axis: Axis,
                      d: Vec3, v': Vtu, ask': Ask)
    requires v.init && d == v.direction.Normalized(tab) && (v', ask') == Edge(tab, v, ask, false, valid, voxel)
    requires RealAxis(axis)
    ensures MeetsFaces(tab.recip(On(d, axis)), On(d, axis), On(v.origin, axis), OnI(v'.walk.pos, axis),
                       OnI(v'.ray.step, axis), On(v'.ray.delta, axis), On(v'.walk.tMax, axis))
    ensures ask' == Ask(v'.walk.pos, true) && v'.taken == 0 && !v'.valid
  {
    StartMeetsFaces(tab, v.origin, v.direction, v.walk.last, axis, d, v'.ray, v'.walk);
  }

  /** A reset clears the outputs, and the unit asks for nothing. */
  lemma ResetClears(tab: Tables, v: Vtu, ask: Ask, valid: bool, voxel: Block)
    ensures var (v', ask') := Edge(tab, v, ask, true, valid, voxel);
      && v'.voxel == Air && !v'.valid && v'.normal == Vec3(0, 0, 0x100) && v'.taken == 0 && v'.walk.last == NoAxis
      && !ask'.enable && v'.origin == v.origin && v'.direction == v.direction && v'.init == v.init
  {
  }

  // ----- outcomes -----

  /** What the unit is to find, when its last step before the start was `last`. */
  function UnitOutcome(tab: Tables, chunk: Chunk, origin: Vec3, direction: Vec3, last: Axis): Outcome {
    FirstHit(chunk, Aim(tab, direction), Start(tab, origin, direction, last), 0, UNIT_LIMIT)
  }

  /** What the reference finds: it stops with a miss at the first voxel outside the chunk. */
  function MockOutcome(tab: Tables, chunk: Chunk, origin: Vec3, direction: Vec3): Outcome {
    if InChunk(origin.FloorAll()) then
      FirstHit(chunk, Aim(tab, direction), Start(tab, origin, direction, NoAxis), 0, MOCK_LIMIT)
    else Miss
  }

  /** Outputs that show an outcome; after a miss the normal is the one from before. */
  function ShownVoxel(out: Outcome): Block {
    match out case Miss => Air case Hit(_, b, _) => b
  }

  function ShownNormal(ray: Ray, out: Outcome, before: Vec3): Vec3 {
    match out case Miss => before case Hit(_, _, last) => NormalOf(ray, last)
  }

  /** The walk depends on the axis of the step before it only at its very start. */
  lemma {:induction false} LastAxisMattersOnlyAtStart(chunk: Chunk, ray: Ray, w: Walk, last: Axis, limit: nat)
    ensures var out, out' := FirstHit(chunk, ray, w, 0, limit), FirstHit(chunk, ray, w.(last := last), 0, limit);
      match out
      case Miss => out' == Miss
      case Hit(k, b, l) => out' == Hit(k, b, if k == 0 then last else l) && (k == 0 ==> l == w.last)
  {
    var w' := w.(last := last);
    assert Advance(ray, w') == Advance(ray, w);
    HitsComeLater(chunk, ray, Advance(ray, w), 1, limit);
  }

  /** Main result on outcomes. From any origin inside the chunk the unit finds what the reference
    * finds if that takes at most 110 steps, and a miss otherwise. The axis of the last step
    * agrees too, except for a hit at the origin voxel itself: there the reference has no axis
    * and the unit has the one left over from its previous ray.
    */
  lemma UnitFindsWhatMockFinds(tab: Tables, chunk: Chunk, origin: Vec3, direction: Vec3, last: Axis)
    requires InChunk(origin.FloorAll())
    ensures UnitOutcome(tab, chunk, origin, direction, last) ==
      match MockOutcome(tab, chunk, origin, direction)
      case Miss => Miss
      case Hit(k, b, l) => if k > 110 then Miss else Hit(k, b, if k == 0 then last else l)
  {
    var ray, w := Aim(tab, direction), Start(tab, origin, direction, NoAxis);
    LastAxisMattersOnlyAtStart(chunk, ray, w, last, UNIT_LIMIT);
    ShorterSearch(chunk, ray, w, 0, UNIT_LIMIT, MOCK_LIMIT);
  }

  /** The reference's own step guard never decides its answer from an origin inside the chunk. */
  lemma MockGuardNeverDecides(tab: Tables, chunk: Chunk, origin: Vec3, direction: Vec3, limit: nat)
    requires InChunk(origin.FloorAll()) && LONGEST_STAY <= limit <= 0x6000
    ensures MockOutcome(tab, chunk, origin, direction)
      == FirstHit(chunk, Aim(tab, direction), Start(tab, origin, direction, NoAxis), 0, limit)
  {
    var ray, w := Aim(tab, direction), Start(tab, origin, direction, NoAxis);
    StepGuardIsIdle(chunk, ray, w, MOCK_LIMIT);
    StepGuardIsIdle(chunk, ray, w, limit);
  }

  ghost predicate MeetsOnlyAir(chunk: Chunk, ray: Ray, w: Walk, limit: nat) {
    forall j :: 0 <= j <= limit ==> Read(chunk, At(ray, w, j).pos) == Air
  }

  ghost predicate StaysOutside(ray: Ray, w: Walk, limit: nat) {
    forall j :: 0 <= j <= limit ==> !InChunk(At(ray, w, j).pos)
  }

  ghost predicate OutcomesAgree(tab: Tables, chunk: Chunk, origin: Vec3, direction: Vec3, last: Axis) {
    ShownVoxel(UnitOutcome(tab, chunk, origin, direction, last))
      == ShownVoxel(MockOutcome(tab, chunk, origin, direction))
  }

  /** From an origin outside the chunk the reference misses at once, while the unit, to which the
    * outside is Air, goes on. So they show the same voxel exactly when the unit's walk meets
    * nothing but Air.
    */
  lemma OutsideOriginsAgreeOnlyOnMisses(tab: Tables, chunk: Chunk, origin: Vec3, direction: Vec3, last: Axis)
    requires !InChunk(origin.FloorAll())
    ensures OutcomesAgree(tab, chunk, origin, direction, last)
      <==> MeetsOnlyAir(chunk, Aim(tab, direction), Start(tab, origin, direction, last), UNIT_LIMIT)
  {
    MissesShowAir(chunk, Aim(tab, direction), Start(tab, origin, direction, last), UNIT_LIMIT);
    MockMissesOutside(tab, chunk, origin, direction);
  }

  lemma MockMissesOutside(tab: Tables, chunk: Chunk, origin: Vec3, direction: Vec3)
    requires !InChunk(origin.FloorAll())
    ensures ShownVoxel(MockOutcome(tab, chunk, origin, direction)) == Air
  {
  }

  const SOLID: Chunk := seq(SIZE * SIZE * SIZE, _ => Stone)

  lemma OnlyOutsideIsAlwaysAir(ray: Ray, w: Walk, limit: nat)
    ensures StaysOutside(ray, w, limit) ==> forall chunk :: MeetsOnlyAir(chunk, ray, w, limit)
    ensures MeetsOnlyAir(SOLID, ray, w, limit) ==> StaysOutside(ray, w, limit)
  {
    if MeetsOnlyAir(SOLID, ray, w, limit) {
      forall j | 0 <= j <= limit ensures !InChunk(At(ray, w, j).pos) {
        assert Read(SOLID, At(ray, w, j).pos) == Air;
      }
    }
  }

  /** Which rays from outside are safe whatever the memory holds can be told from the ray alone: those
    * that do not come into the chunk within 110 steps.
    */
  lemma OutsideOriginsAgreeIff(tab: Tables, origin: Vec3, direction: Vec3, last: Axis)
    requires !InChunk(origin.FloorAll())
    ensures (forall chunk :: OutcomesAgree(tab, chunk, origin, direction, last))
      <==> StaysOutside(Aim(tab, direction), Start(tab, origin, direction, last), UNIT_LIMIT)
  {
    OnlyOutsideIsAlwaysAir(Aim(tab, direction), Start(tab, origin, direction, last), UNIT_LIMIT);
    forall chunk
      ensures OutcomesAgree(tab, chunk, origin, direction, last)
        <==> MeetsOnlyAir(chunk, Aim(tab, direction), Start(tab, origin, direction, last), UNIT_LIMIT)
    {
      OutsideOriginsAgreeOnlyOnMisses(tab, chunk, origin, direction, last);
    }
    assert OutcomesAgree(tab, SOLID, origin, direction, last)
      <==> MeetsOnlyAir(SOLID, Aim(tab, direction), Start(tab, origin, direction, last), UNIT_LIMIT);
  }

  lemma MissesShowAir(chunk: Chunk, ray: Ray, w: Walk, limit: nat)
    ensures ShownVoxel(FirstHit(chunk, ray, w, 0, limit)) == Air <==> MeetsOnlyAir(chunk, ray, w, limit)
  {
    FirstHitIsFirst(chunk, ray, w, limit);
  }

  /** A concrete ray for which they do not: it starts one voxel in front of a solid chunk. */
  lemma OutsideOriginsCanDisagree(tab: Tables, chunk: Chunk)
    requires tab.invSqrt(ONE) == ONE && tab.recip(ONE) == ONE
    requires Read(chunk, Vec3i(-HALF, 0, 0)) == Stone
    ensures var origin := Vec3(-0x2100, ZERO, ZERO);
      && UnitOutcome(tab, chunk, origin, RIGHT, NoAxis) == Hit(1, Stone, AxisX)
      && MockOutcome(tab, chunk, origin, RIGHT) == Miss
  {
    var origin := Vec3(-0x2100, ZERO, ZERO);
    WalkOntoTheChunk(tab, origin);
    HitAfterOneStep(chunk, Aim(tab, RIGHT), Start(tab, origin, RIGHT, NoAxis), UNIT_LIMIT);
  }

  lemma RightIsNormal(tab: Tables)
    requires tab.invSqrt(ONE) == ONE
    ensures RIGHT.Normalized(tab) == RIGHT
  {
    MulByOne(ONE);
    assert RIGHT.Dot(RIGHT) == ONE;
    ScaleByOne(RIGHT);
  }

  lemma WalkOntoTheChunk(tab: Tables, origin: Vec3)
    requires tab.invSqrt(ONE) == ONE && tab.recip(ONE) == ONE
    requires origin == Vec3(-0x2100, ZERO, ZERO)
    ensures var w := Start(tab, origin, RIGHT, NoAxis);
      && origin.FloorAll() == w.pos == Vec3i(-HALF - 1, 0, 0)
      && Advance(Aim(tab, RIGHT), w).pos == Vec3i(-HALF, 0, 0)
      && Advance(Aim(tab, RIGHT), w).last == AxisX
  {
    RightIsNormal(tab);
    assert origin.FloorAll() == Vec3i(-HALF - 1, 0, 0);
    var delta, dist := Deltas(tab, RIGHT), Distances(Steps(RIGHT), origin, origin.FloorAll());
    OneVoxelAhead();
    CrossingsAlongX(delta, dist);
    StepAlongX(Aim(tab, RIGHT), Start(tab, origin, RIGHT, NoAxis));
  }

  lemma OneVoxelAhead()
    ensures Distance(1, -0x2100, -HALF - 1) == ONE
  {
    assert Sub(ONE, -0x2100) == 0x2200;
    assert FromInt(-HALF - 1) == -0x2100;
    assert Add(0x2200, -0x2100) == ONE;
  }

  lemma StepAlongX(ray: Ray, w: Walk)
    requires ray.step.x == 1 && w.tMax == Vec3(ONE, MAX, MAX) && w.pos == Vec3i(-HALF - 1, 0, 0)
    ensures Advance(ray, w).pos == Vec3i(-HALF, 0, 0) && Advance(ray, w).last == AxisX
  {
  }

  lemma CrossingsAlongX(delta: Vec3, dist: Vec3)
    requires delta.x == dist.x == ONE
    ensures FirstCrossings(RIGHT, delta, dist) == Vec3(ONE, MAX, MAX)
  {
  }

  lemma HitAfterOneStep(chunk: Chunk, ray: Ray, w: Walk, limit: nat)
    requires 1 <= limit && Read(chunk, w.pos) == Air && Read(chunk, Advance(ray, w).pos) != Air
    ensures FirstHit(chunk, ray, w, 0, limit) == Hit(1, Read(chunk, Advance(ray, w).pos), Advance(ray, w).last)
  {
  }

  /** The shown normals agree, for the hits that the unit reaches, exactly when the hit is not at
    * the origin voxel or the unit has no axis left over: a caller can check that before the ray
    * is started.
    */
  lemma NormalsAgreeUnlessStale(tab: Tables, chunk: Chunk, origin: Vec3, direction: Vec3, last: Axis, before: Vec3)
    requires InChunk(origin.FloorAll())
    requires MockOutcome(tab, chunk, origin, direction).Hit? ==>
      MockOutcome(tab, chunk, origin, direction).steps <= UNIT_LIMIT
    ensures var ray := Aim(tab, direction);
      ShownNormal(ray, UnitOutcome(tab, chunk, origin, direction, last), before)
        == ShownNormal(ray, MockOutcome(tab, chunk, origin, direction), before)
      <==> last == NoAxis || Read(chunk, origin.FloorAll()) == Air
  {
    var ray := Aim(tab, direction);
    UnitFindsWhatMockFinds(tab, chunk, origin, direction, last);
    HitAtStart(chunk, ray, Start(tab, origin, direction, NoAxis), MOCK_LIMIT);
    AxisNormalsAreNotZero(ray, last);
  }

  lemma HitAtStart(chunk: Chunk, ray: Ray, w: Walk, limit: nat)
    ensures match FirstHit(chunk, ray, w, 0, limit)
      case Miss => Read(chunk, w.pos) == Air
      case Hit(k, _, l) => (k == 0 <==> Read(chunk, w.pos) != Air) && (k == 0 ==> l == w.last)
  {
    HitsComeLater(chunk, ray, Advance(ray, w), 1, limit);
  }

  lemma AxisNormalsAreNotZero(ray: Ray, last: Axis)
    requires Unit(ray)
    ensures NormalOf(ray, last) == ORIGIN <==> last == NoAxis
  {
    NormalFacesRay(ray);
  }

  // ----- what a unit keeps from edge to edge -----

  /** A ray that a unit was started on, and what it had left over at that moment. */
  datatype Job = Job(origin: Vec3, direction: Vec3, last: Axis, normal: Vec3)

  /** The rest of the search gives what the whole search is to give. */
  ghost predicate Working(tab: Tables, chunk: Chunk, v: Vtu, ask: Ask, job: Job) {
    && !v.valid
    && v.taken <= UNIT_LIMIT + 1
    && v.ray == Aim(tab, job.direction)
    && v.normal == job.normal
    && ask == Ask(v.walk.pos, true)
    && FirstHit(chunk, v.ray, v.walk, v.taken, UNIT_LIMIT)
         == UnitOutcome(tab, chunk, job.origin, job.direction, job.last)
  }

  ghost predicate Done(tab: Tables, chunk: Chunk, v: Vtu, job: Job) {
    var out := UnitOutcome(tab, chunk, job.origin, job.direction, job.last);
    && v.valid
    && v.voxel == ShownVoxel(out)
    && v.normal == ShownNormal(Aim(tab, job.direction), out, job.normal)
  }

  ghost predicate Serves(tab: Tables, chunk: Chunk, v: Vtu, ask: Ask, job: Job) {
    Working(tab, chunk, v, ask, job) || Done(tab, chunk, v, job)
  }

  function JobAtStart(v: Vtu): Job { Job(v.origin, v.direction, v.walk.last, v.normal) }

  lemma InitStartsJob(tab: Tables, chunk: Chunk, v: Vtu, ask: Ask, valid: bool, voxel: Block)
    requires v.init
    ensures var (v', ask') := Edge(tab, v, ask, false, valid, voxel);
      Working(tab, chunk, v', ask', JobAtStart(v)) && v'.taken == 0
  {
  }

  /** With a truthful cache port, an edge without a start keeps the job. */
  lemma EdgeKeepsJob(tab: Tables, chunk: Chunk, v: Vtu, ask: Ask, job: Job, valid: bool, voxel: Block)
    requires !v.init && Serves(tab, chunk, v, ask, job)
    requires valid ==> voxel == Read(chunk, ask.addr)
    ensures var (v', ask') := Edge(tab, v, ask, false, valid, voxel);
      Serves(tab, chunk, v', ask', job)
  {
    if Working(tab, chunk, v, ask, job) {
      if v.taken > UNIT_LIMIT {
        assert Done(tab, chunk, Edge(tab, v, ask, false, valid, voxel).0, job);
      } else if valid && voxel == Air {
        var (v', ask') := Edge(tab, v, ask, false, valid, voxel);
        assert Working(tab, chunk, v', ask', job);
      }
    }
  }
}
