/** The voxel walk of a ray: where it starts, how it advances, and the first block it meets. */
module Traversal {
  import opened FixedPoint
  import opened Voxels

  datatype Axis = NoAxis | AxisX | AxisY | AxisZ

  /** What stays the same along a ray: the direction of each axis's steps and the time between two
    * crossings of that axis.
    */
  datatype Ray = Ray(step: Vec3i, delta: Vec3)

  /** Where a walk is: the voxel, the time of the next crossing on each axis, the last axis. */
  datatype Walk = Walk(pos: Vec3i, tMax: Vec3, last: Axis)

  // ----- the start -----

  function Steps(d: Vec3): Vec3i {
    Vec3i(if d.x > 0 then 1 else -1, if d.y > 0 then 1 else -1, if d.z > 0 then 1 else -1)
  }

  function Deltas(tab: Tables, d: Vec3): Vec3 {
    Vec3(Abs(tab.recip(d.x)), Abs(tab.recip(d.y)), Abs(tab.recip(d.z)))
  }

  /** The distance from `o` to the next boundary in the direction of the step. */
  function Distance(step: I16, o: Fixed, p: I16): Fixed {
    if step > 0 then Add(Sub(ONE, o), FromInt(p)) else Sub(o, FromInt(p))
  }

  function Distances(step: Vec3i, o: Vec3, p: Vec3i): Vec3 {
    Vec3(Distance(step.x, o.x, p.x), Distance(step.y, o.y, p.y), Distance(step.z, o.z, p.z))
  }

  function FirstCrossings(d: Vec3, delta: Vec3, dist: Vec3): Vec3 {
    Vec3(if d.x != ZERO then Mul(delta.x, dist.x) else MAX,
         if d.y != ZERO then Mul(delta.y, dist.y) else MAX,
         if d.z != ZERO then Mul(delta.z, dist.z) else MAX)
  }

  function Aim(tab: Tables, direction: Vec3): (r: Ray)
    ensures Unit(r)
  {
    var d := direction.Normalized(tab);
    Ray(Steps(d), Deltas(tab, d))
  }

  function Start(tab: Tables, origin: Vec3, direction: Vec3, last: Axis): Walk {
    var d, p := direction.Normalized(tab), origin.FloorAll();
    Walk(p, FirstCrossings(d, Deltas(tab, d), Distances(Steps(d), origin, p)), last)
  }

  /** How far it is from `o` to the next face of a voxel, ahead or behind. */
  function ToFace(o: Fixed, ahead: bool): (r: int)
    ensures 0 <= r <= 0x100 && (if ahead then o + r else o - r) % 0x100 == 0
  {
    if ahead then 0x100 - o % 0x100 else o % 0x100
  }

  /** On one axis: a ray with direction `d` is in the voxel that has its origin `o`, steps in the
    * direction's sense, crosses a face each `delta`, which is the size of the reciprocal, and
    * crosses the first one at time `t`, the reciprocal times the distance from there. It never
    * crosses any if the direction is 0.
    */
  ghost predicate MeetsFaces(recip: Fixed, d: Fixed, o: Fixed, p: I16, step: I16, delta: Fixed, t: Fixed) {
    && 0x100 * p <= o < 0x100 * p + 0x100
    && step == (if d > 0 then 1 else -1)
    && delta == Wrap(if recip < 0 then 0 - recip else recip)
    && t == (if d == 0 then MAX else Wrap(delta * ToFace(o, d > 0) / 0x100))
    && (t == MAX <==> d == 0 || (delta == MAX && ToFace(o, d > 0) == 0x100))
  }

  lemma DistanceAhead(o: Fixed, q: int)
    requires q <= o < q + 0x100
    ensures Add(Sub(ONE, o), Wrap(q)) == q + 0x100 - o
  {
    WrapOnce(ONE - o, q);
    WrapIs(ONE - o + q, q + 0x100 - o, 0);
  }

  lemma DistanceBehind(o: Fixed, q: int)
    requires q <= o < q + 0x100
    ensures Sub(o, Wrap(q)) == o - q
  {
    WrapLater(o, q);
    WrapIs(o - q, o - q, 0);
  }

  lemma DistanceToFace(step: I16, o: Fixed)
    ensures Distance(step, o, Floor(o)) == ToFace(o, step > 0)
    ensures 0x100 * Floor(o) <= o < 0x100 * Floor(o) + 0x100
  {
    var q := 0x100 * Floor(o);
    assert o == q + o % 0x100;
    DistanceAhead(o, q);
    DistanceBehind(o, q);
  }

  lemma FirstCrossing(delta: Fixed, r: nat)
    requires r <= 0x100
    ensures Mul(delta, r) == MAX <==> delta == MAX && r == 0x100
  {
    if delta < 0 {
      assert -0x100 * 0x80000 <= delta * r <= 0;
    } else {
      assert 0 <= delta * r <= 0x100 * delta;
      if delta < MAX || r < 0x100 { assert delta * r < 0x100 * MAX; }
    }
  }

  lemma MeetsFacesOn(recip: Fixed, d: Fixed, o: Fixed, step: I16, delta: Fixed)
    requires step == (if d > 0 then 1 else -1) && delta == Abs(recip)
    ensures MeetsFaces(recip, d, o, Floor(o), step, delta,
                       if d != ZERO then Mul(delta, Distance(step, o, Floor(o))) else MAX)
  {
    DistanceToFace(step, o);
    FirstCrossing(delta, ToFace(o, d > 0));
    WrapIsCongruent(recip);
  }

  /** A ray is set up so that on every axis it meets the faces of the voxels as it should. */
  lemma StartMeetsFaces(tab: Tables, origin: Vec3, direction: Vec3, last: Axis, axis: Axis, d: Vec3, ray: Ray, w: Walk)
    requires d == direction.Normalized(tab) && ray == Aim(tab, direction) && w == Start(tab, origin, direction, last)
    requires RealAxis(axis)
    ensures MeetsFaces(tab.recip(On(d, axis)), On(d, axis), On(origin, axis), OnI(w.pos, axis), OnI(ray.step, axis),
                       On(ray.delta, axis), On(w.tMax, axis))
  {
    MeetsFacesOn(tab.recip(On(d, axis)), On(d, axis), On(origin, axis), OnI(ray.step, axis), On(ray.delta, axis));
  }

  ghost predicate Unit(ray: Ray) {
    && (ray.step.x == 1 || ray.step.x == -1)
    && (ray.step.y == 1 || ray.step.y == -1)
    && (ray.step.z == 1 || ray.step.z == -1)
  }

  // ----- advancing -----

  function Choose(t: Vec3): Axis {
    if t.x < t.y then (if t.x < t.z then AxisX else AxisZ)
    else (if t.y < t.z then AxisY else AxisZ)
  }

  function Cross(ray: Ray, w: Walk, axis: Axis): Walk {
    match axis
    case NoAxis => w
    case AxisX => Walk(w.pos.(x := Wrap16(w.pos.x + ray.step.x)), w.tMax.(x := Add(w.tMax.x, ray.delta.x)), AxisX)
    case AxisY => Walk(w.pos.(y := Wrap16(w.pos.y + ray.step.y)), w.tMax.(y := Add(w.tMax.y, ray.delta.y)), AxisY)
    case AxisZ => Walk(w.pos.(z := Wrap16(w.pos.z + ray.step.z)), w.tMax.(z := Add(w.tMax.z, ray.delta.z)), AxisZ)
  }

  function Advance(ray: Ray, w: Walk): Walk {
    Cross(ray, w, Choose(w.tMax))
  }

  /** The walk after `n` steps. */
  function At(ray: Ray, w: Walk, n: nat): Walk {
    if n == 0 then w else Advance(ray, At(ray, w, n - 1))
  }

  // ----- the first block met -----

  datatype Outcome = Miss | Hit(steps: nat, block: Block, last: Axis)

  /** The first voxel that is not Air, among those that the walk visits after `taken`..`limit`
    * steps, where `w` is the walk after `taken` steps.
    */
  function FirstHit(chunk: Chunk, ray: Ray, w: Walk, taken: nat, limit: nat): Outcome
    decreases limit + 1 - taken
  {
    if taken > limit then Miss
    else if Read(chunk, w.pos) != Air then Hit(taken, Read(chunk, w.pos), w.last)
    else FirstHit(chunk, ray, Advance(ray, w), taken + 1, limit)
  }

  lemma {:induction false} FirstHitFrom(chunk: Chunk, ray: Ray, w: Walk, taken: nat, limit: nat)
    requires taken <= limit + 1
    requires forall j :: 0 <= j < taken ==> Read(chunk, At(ray, w, j).pos) == Air
    ensures match FirstHit(chunk, ray, At(ray, w, taken), taken, limit)
      case Miss => forall j :: 0 <= j <= limit ==> Read(chunk, At(ray, w, j).pos) == Air
      case Hit(k, b, last) =>
        && taken <= k <= limit && last == At(ray, w, k).last
        && b == Read(chunk, At(ray, w, k).pos) != Air
        && forall j :: 0 <= j < k ==> Read(chunk, At(ray, w, j).pos) == Air
    decreases limit + 1 - taken
  {
    if taken <= limit && Read(chunk, At(ray, w, taken).pos) == Air {
      FirstHitFrom(chunk, ray, w, taken + 1, limit);
    }
  }

  /** FirstHit is the first: every voxel before the hit is Air, and a miss means that every voxel
    * up to the limit is.
    */
  lemma FirstHitIsFirst(chunk: Chunk, ray: Ray, w: Walk, limit: nat)
    ensures match FirstHit(chunk, ray, w, 0, limit)
      case Miss => forall j :: 0 <= j <= limit ==> Read(chunk, At(ray, w, j).pos) == Air
      case Hit(k, b, last) =>
        && k <= limit && last == At(ray, w, k).last
        && b == Read(chunk, At(ray, w, k).pos) != Air
        && forall j :: 0 <= j < k ==> Read(chunk, At(ray, w, j).pos) == Air
  {
    FirstHitFrom(chunk, ray, w, 0, limit);
  }

  /** A shorter search gives the same hit if it reaches it, and otherwise a miss. */
  lemma {:induction false} ShorterSearch(chunk: Chunk, ray: Ray, w: Walk, taken: nat, short: nat, long: nat)
    requires taken <= short + 1 && short <= long
    ensures FirstHit(chunk, ray, w, taken, short) ==
      (match FirstHit(chunk, ray, w, taken, long)
       case Miss => Miss
       case Hit(k, b, last) => if k <= short then Hit(k, b, last) else Miss)
    decreases short + 1 - taken
  {
    if taken > short {
      HitsComeLater(chunk, ray, w, taken, long);
    } else if Read(chunk, w.pos) == Air {
      ShorterSearch(chunk, ray, Advance(ray, w), taken + 1, short, long);
    }
  }

  lemma {:induction false} HitsComeLater(chunk: Chunk, ray: Ray, w: Walk, taken: nat, limit: nat)
    ensures FirstHit(chunk, ray, w, taken, limit).Hit? ==> taken <= FirstHit(chunk, ray, w, taken, limit).steps
    decreases limit + 1 - taken
  {
    if taken <= limit && Read(chunk, w.pos) == Air {
      HitsComeLater(chunk, ray, Advance(ray, w), taken + 1, limit);
    }
  }

  // ----- a walk that has left the chunk never comes back -----

  /** Past the face of the chunk towards which some axis moves. */
  ghost predicate Gone(ray: Ray, p: Vec3i) {
    || (if ray.step.x > 0 then p.x >= HALF else p.x < -HALF)
    || (if ray.step.y > 0 then p.y >= HALF else p.y < -HALF)
    || (if ray.step.z > 0 then p.z >= HALF else p.z < -HALF)
  }

  /** No coordinate is farther from zero than `d`. */
  ghost predicate Within(p: Vec3i, d: int) {
    -d <= p.x <= d && -d <= p.y <= d && -d <= p.z <= d
  }

  /** The longest walk for which the 16-bit coordinates cannot wrap around. */
  const FAR: int := 0x7000

  lemma AdvanceLeavesForGood(ray: Ray, w: Walk, d: nat)
    requires Unit(ray) && Within(w.pos, d) && d <= FAR
    ensures Within(Advance(ray, w).pos, d + 1)
    ensures InChunk(w.pos) ==> InChunk(Advance(ray, w).pos) || Gone(ray, Advance(ray, w).pos)
    ensures Gone(ray, w.pos) ==> Gone(ray, Advance(ray, w).pos)
  {
    match Choose(w.tMax)
    case AxisX => StepFits(w.pos.x, ray.step.x);
    case AxisY => StepFits(w.pos.y, ray.step.y);
    case AxisZ => StepFits(w.pos.z, ray.step.z);
  }

  lemma StepFits(p: I16, step: I16)
    requires -FAR <= p <= FAR && -1 <= step <= 1
    ensures Wrap16(p + step) == p + step
  {
  }

  /** From outside on the far side there is nothing to hit. */
  lemma {:induction false} GoneMisses(chunk: Chunk, ray: Ray, w: Walk, taken: nat, limit: nat)
    requires Unit(ray) && Gone(ray, w.pos) && limit <= 0x6000 && taken <= limit + 1
    requires Within(w.pos, HALF + taken)
    ensures FirstHit(chunk, ray, w, taken, limit) == Miss
    decreases limit + 1 - taken
  {
    if taken <= limit {
      AdvanceLeavesForGood(ray, w, HALF + taken);
      GoneMisses(chunk, ray, Advance(ray, w), taken + 1, limit);
    }
  }

  /** A walk that starts inside the chunk and has left it never re-enters it. */
  lemma {:induction false} NeverReenters(ray: Ray, w: Walk, left: nat, later: nat)
    requires Unit(ray) && InChunk(w.pos) && left <= later <= 0x6000
    requires !InChunk(At(ray, w, left).pos)
    ensures !InChunk(At(ray, w, later).pos)
  {
    StaysInOrGone(ray, w, left);
    StaysInOrGone(ray, w, later);
    GoneStaysGone(ray, w, left, later);
  }

  lemma {:induction false} StaysInOrGone(ray: Ray, w: Walk, n: nat)
    requires Unit(ray) && InChunk(w.pos) && n <= 0x6000
    ensures Within(At(ray, w, n).pos, HALF + n)
    ensures InChunk(At(ray, w, n).pos) || Gone(ray, At(ray, w, n).pos)
  {
    if n > 0 {
      StaysInOrGone(ray, w, n - 1);
      AdvanceLeavesForGood(ray, At(ray, w, n - 1), HALF + n - 1);
    }
  }

  lemma {:induction false} GoneStaysGone(ray: Ray, w: Walk, left: nat, later: nat)
    requires Unit(ray) && InChunk(w.pos) && left <= later <= 0x6000
    requires Gone(ray, At(ray, w, left).pos)
    ensures Gone(ray, At(ray, w, later).pos)
    decreases later
  {
    if left < later {
      GoneStaysGone(ray, w, left, later - 1);
      StaysInOrGone(ray, w, later - 1);
      AdvanceLeavesForGood(ray, At(ray, w, later - 1), HALF + later - 1);
    }
  }

  /** How many steps along one axis keep the coordinate inside. */
  ghost function Room(step: I16, p: I16): int {
    if step > 0 then HALF - 1 - p else p + HALF
  }

  ghost function RoomAhead(ray: Ray, p: Vec3i): int {
    Room(ray.step.x, p.x) + Room(ray.step.y, p.y) + Room(ray.step.z, p.z)
  }

  /** The longest stay inside the chunk: 63 steps along each axis. */
  const LONGEST_STAY: nat := 189

  lemma RoomShrinks(ray: Ray, w: Walk)
    requires Unit(ray) && Within(w.pos, FAR)
    ensures RoomAhead(ray, Advance(ray, w).pos) == RoomAhead(ray, w.pos) - 1
  {
    match Choose(w.tMax)
    case AxisX => StepFits(w.pos.x, ray.step.x);
    case AxisY => StepFits(w.pos.y, ray.step.y);
    case AxisZ => StepFits(w.pos.z, ray.step.z);
  }

  lemma {:induction false} LeavesInTime(chunk: Chunk, ray: Ray, w: Walk, taken: nat, limit: nat)
    requires Unit(ray) && LONGEST_STAY <= limit <= 0x6000 && taken <= LONGEST_STAY + 1
    requires InChunk(w.pos) ==> taken + RoomAhead(ray, w.pos) <= LONGEST_STAY
    requires !InChunk(w.pos) ==> Gone(ray, w.pos)
    requires Within(w.pos, HALF + taken)
    ensures FirstHit(chunk, ray, w, taken, limit) == FirstHit(chunk, ray, w, taken, LONGEST_STAY)
    decreases LONGEST_STAY + 1 - taken
  {
    if Gone(ray, w.pos) {
      GoneMisses(chunk, ray, w, taken, limit);
      GoneMisses(chunk, ray, w, taken, LONGEST_STAY);
    } else {
      AdvanceLeavesForGood(ray, w, HALF + taken);
      RoomShrinks(ray, w);
      if Read(chunk, w.pos) == Air {
        LeavesInTime(chunk, ray, Advance(ray, w), taken + 1, limit);
      }
    }
  }

  /** A ray that starts inside leaves the chunk within 190 steps, so a search with any limit from
    * 189 on (the reference's is 220) finds what an unlimited one would.
    */
  lemma StepGuardIsIdle(chunk: Chunk, ray: Ray, w: Walk, limit: nat)
    requires Unit(ray) && InChunk(w.pos) && LONGEST_STAY <= limit <= 0x6000
    ensures FirstHit(chunk, ray, w, 0, limit) == FirstHit(chunk, ray, w, 0, LONGEST_STAY)
  {
    LeavesInTime(chunk, ray, w, 0, limit);
  }

  // ----- the walk is a sorted merge of three progressions -----

  function On(v: Vec3, axis: Axis): Fixed {
    match axis
    case NoAxis => ZERO
    case AxisX => v.x
    case AxisY => v.y
    case AxisZ => v.z
  }

  function OnI(v: Vec3i, axis: Axis): I16 {
    match axis
    case NoAxis => 0
    case AxisX => v.x
    case AxisY => v.y
    case AxisZ => v.z
  }

  /** The axis of step number `n` (from 0) and the time at which that step crosses it. */
  function AxisOf(ray: Ray, w: Walk, n: nat): Axis { Choose(At(ray, w, n).tMax) }

  function TimeOf(ray: Ray, w: Walk, n: nat): Fixed { On(At(ray, w, n).tMax, AxisOf(ray, w, n)) }

  /** How many of the first `n` steps are along `axis`. */
  function Count(ray: Ray, w: Walk, n: nat, axis: Axis): nat {
    if n == 0 then 0 else Count(ray, w, n - 1, axis) + if AxisOf(ray, w, n - 1) == axis then 1 else 0
  }

  /** The additions to the crossing times of the first `n` steps stay within the 20 bits. */
  ghost predicate NoOverflow(ray: Ray, w: Walk, n: nat) {
    forall i :: 0 <= i < n ==> TimeOf(ray, w, i) + On(ray.delta, AxisOf(ray, w, i)) <= MAX
  }

  ghost predicate Forward(ray: Ray) {
    ray.delta.x >= 0 && ray.delta.y >= 0 && ray.delta.z >= 0
  }

  ghost predicate RealAxis(axis: Axis) { axis != NoAxis }

  lemma {:induction false} CountsAddUp(ray: Ray, w: Walk, n: nat)
    ensures Count(ray, w, n, AxisX) + Count(ray, w, n, AxisY) + Count(ray, w, n, AxisZ) == n
  {
    if n > 0 { CountsAddUp(ray, w, n - 1); }
  }

  /** One step moves one axis by its step and its delta, and leaves the other two alone. */
  lemma AdvanceMovesOneAxis(ray: Ray, w: Walk, axis: Axis)
    requires RealAxis(axis)
    ensures axis != Choose(w.tMax) ==>
      On(Advance(ray, w).tMax, axis) == On(w.tMax, axis) && OnI(Advance(ray, w).pos, axis) == OnI(w.pos, axis)
    ensures axis == Choose(w.tMax) && 0 <= On(ray.delta, axis) <= MAX - On(w.tMax, axis) ==>
      On(Advance(ray, w).tMax, axis) == On(w.tMax, axis) + On(ray.delta, axis)
    ensures axis == Choose(w.tMax) && Unit(ray) && Within(w.pos, FAR) ==>
      OnI(Advance(ray, w).pos, axis) == OnI(w.pos, axis) + OnI(ray.step, axis)
    ensures RealAxis(Choose(w.tMax)) && On(w.tMax, Choose(w.tMax)) <= On(w.tMax, axis)
  {
  }

  lemma OneMore(c: int, c': int, d: int)
    ensures c' == c ==> c' * d == c * d
    ensures c' == c + 1 ==> c' * d == c * d + d
  {
    assert (c + 1) * d == c * d + d;
  }

  /** The position is the start plus the signed number of steps on each axis. */
  lemma {:induction false} PositionsCount(ray: Ray, w: Walk, n: nat, axis: Axis)
    requires Unit(ray) && RealAxis(axis) && Within(w.pos, FAR - n)
    ensures OnI(At(ray, w, n).pos, axis) == OnI(w.pos, axis) + Count(ray, w, n, axis) * OnI(ray.step, axis)
    ensures Within(At(ray, w, n).pos, FAR)
  {
    NearAfter(ray, w, n, FAR - n);
    if n > 0 {
      PositionsCount(ray, w, n - 1, axis);
      AdvanceMovesOneAxis(ray, At(ray, w, n - 1), axis);
      OneMore(Count(ray, w, n - 1, axis), Count(ray, w, n, axis), OnI(ray.step, axis));
    }
  }

  lemma {:induction false} NearAfter(ray: Ray, w: Walk, m: nat, d: int)
    requires Unit(ray) && Within(w.pos, d) && d + m <= FAR
    ensures Within(At(ray, w, m).pos, d + m)
  {
    if m > 0 {
      NearAfter(ray, w, m - 1, d);
      AdvanceLeavesForGood(ray, At(ray, w, m - 1), d + m - 1);
    }
  }

  /** The next crossing of each axis is its first one plus a whole number of deltas. */
  lemma {:induction false} CrossingsProgress(ray: Ray, w: Walk, n: nat, axis: Axis)
    requires Forward(ray) && RealAxis(axis) && NoOverflow(ray, w, n)
    ensures On(At(ray, w, n).tMax, axis) == On(w.tMax, axis) + Count(ray, w, n, axis) * On(ray.delta, axis)
  {
    if n > 0 {
      CrossingsProgress(ray, w, n - 1, axis);
      assert TimeOf(ray, w, n - 1) + On(ray.delta, AxisOf(ray, w, n - 1)) <= MAX;
      AdvanceMovesOneAxis(ray, At(ray, w, n - 1), axis);
      OneMore(Count(ray, w, n - 1, axis), Count(ray, w, n, axis), On(ray.delta, axis));
    }
  }

  /** Each step crosses the axis whose next crossing is earliest, and the times never go back. */
  lemma {:induction false} TimesAreSorted(ray: Ray, w: Walk, i: nat, j: nat, axis: Axis)
    requires Forward(ray) && NoOverflow(ray, w, j) && i <= j && RealAxis(axis)
    ensures TimeOf(ray, w, i) <= On(At(ray, w, j).tMax, axis)
    ensures TimeOf(ray, w, i) <= TimeOf(ray, w, j)
    decreases j
  {
    EarliestIsTaken(At(ray, w, j), axis);
    if i < j {
      assert TimeOf(ray, w, j - 1) + On(ray.delta, AxisOf(ray, w, j - 1)) <= MAX;
      TimesAreSorted(ray, w, i, j - 1, axis);
      AdvanceMovesOneAxis(ray, At(ray, w, j - 1), axis);
      TimesAreSorted(ray, w, i, j - 1, AxisOf(ray, w, j));
      AdvanceMovesOneAxis(ray, At(ray, w, j - 1), AxisOf(ray, w, j));
    }
  }

  /** Main result on the walk: while the times do not overflow, it is a sorted merge of the three
    * progressions of crossings. The last crossing on any axis is no later than the next one on
    * every axis, the earliest is always taken (z before y before x when equal), and the position
    * counts the crossings.
    */
  lemma WalkIsSortedMerge(ray: Ray, w: Walk, n: nat, a: Axis, b: Axis)
    requires Unit(ray) && Forward(ray) && NoOverflow(ray, w, n) && Within(w.pos, FAR - n)
    requires RealAxis(a) && RealAxis(b)
    ensures On(At(ray, w, n).tMax, a) == On(w.tMax, a) + Count(ray, w, n, a) * On(ray.delta, a)
    ensures OnI(At(ray, w, n).pos, a) == OnI(w.pos, a) + Count(ray, w, n, a) * OnI(ray.step, a)
    ensures Count(ray, w, n, AxisX) + Count(ray, w, n, AxisY) + Count(ray, w, n, AxisZ) == n
    ensures Count(ray, w, n, a) > 0 ==>
      On(w.tMax, a) + (Count(ray, w, n, a) - 1) * On(ray.delta, a) <= On(At(ray, w, n).tMax, b)
    ensures TimeOf(ray, w, n) <= On(At(ray, w, n).tMax, b)
    ensures On(At(ray, w, n).tMax, b) == TimeOf(ray, w, n) ==>
      AxisOf(ray, w, n) == AxisZ || AxisOf(ray, w, n) == b || (AxisOf(ray, w, n) == AxisY && b == AxisX)
    ensures forall i, j :: 0 <= i <= j <= n ==> TimeOf(ray, w, i) <= TimeOf(ray, w, j)
  {
    CrossingsProgress(ray, w, n, a);
    PositionsCount(ray, w, n, a);
    CountsAddUp(ray, w, n);
    EarliestIsTaken(At(ray, w, n), b);
    LastIsBeforeNext(ray, w, n, a, b);
    forall i, j | 0 <= i <= j <= n ensures TimeOf(ray, w, i) <= TimeOf(ray, w, j) {
      TimesAreSorted(ray, w, i, j, AxisX);
    }
  }

  lemma EarliestIsTaken(w: Walk, b: Axis)
    requires RealAxis(b)
    ensures var axis := Choose(w.tMax);
      && On(w.tMax, axis) <= On(w.tMax, b)
      && (On(w.tMax, b) == On(w.tMax, axis) ==> axis == AxisZ || axis == b || (axis == AxisY && b == AxisX))
  {
  }

  lemma TimeOfCrossing(ray: Ray, w: Walk, i: nat, a: Axis, c: nat)
    requires Forward(ray) && RealAxis(a) && NoOverflow(ray, w, i) && AxisOf(ray, w, i) == a && Count(ray, w, i, a) == c
    ensures TimeOf(ray, w, i) == On(w.tMax, a) + c * On(ray.delta, a)
  {
    CrossingsProgress(ray, w, i, a);
  }

  lemma LastIsBeforeNext(ray: Ray, w: Walk, n: nat, a: Axis, b: Axis)
    requires Forward(ray) && NoOverflow(ray, w, n) && RealAxis(a) && RealAxis(b)
    ensures Count(ray, w, n, a) > 0 ==>
      On(w.tMax, a) + (Count(ray, w, n, a) - 1) * On(ray.delta, a) <= On(At(ray, w, n).tMax, b)
  {
    if Count(ray, w, n, a) > 0 {
      var i := LastCrossing(ray, w, n, a);
      TimeOfCrossing(ray, w, i, a, Count(ray, w, n, a) - 1);
      TimesAreSorted(ray, w, i, n, b);
    }
  }

  lemma {:induction false} LastCrossing(ray: Ray, w: Walk, n: nat, a: Axis) returns (i: nat)
    requires Count(ray, w, n, a) > 0
    ensures i < n && AxisOf(ray, w, i) == a && Count(ray, w, i, a) == Count(ray, w, n, a) - 1
  {
    if AxisOf(ray, w, n - 1) == a {
      i := n - 1;
    } else {
      i := LastCrossing(ray, w, n - 1, a);
    }
  }
}
