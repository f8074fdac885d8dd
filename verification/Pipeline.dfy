/** Any number of traversal units over the shared caches: what they keep, and how long the unit
  * with the highest priority takes.
  */
module Pipeline {
  import opened FixedPoint
  import opened Voxels
  import opened Traversal
  import opened CacheModel
  import opened VtuModel

  datatype Pipe = Pipe(l2: L2State, l3: L3State, units: seq<Vtu>) {
    ghost predicate Shaped() {
      l2.Shaped(|units|, |l2.entries|)
    }

    function AskOf(i: nat): Ask
      requires i < |units| && |l2.addr| == |l2.enable| == |units|
    {
      Ask(l2.addr[i], l2.enable[i])
    }
  }

  /** One cycle: first the L2 cache, then the L3 cache, then the units. */
  function Cycle(tab: Tables, chunk: Chunk, p: Pipe, reset: bool): (r: Pipe)
    requires p.Shaped()
    ensures r.Shaped() && |r.units| == |p.units| && |r.l2.entries| == |p.l2.entries|
  {
    var (l2, l3) := L2Edge(p.l2, p.l3, reset);
    var n := |p.units|;
    Pipe(l2.(addr := seq(n, i requires 0 <= i < n =>
                       Edge(tab, p.units[i], p.AskOf(i), reset, l2.valid[i], l2.voxel[i]).1.addr),
             enable := seq(n, i requires 0 <= i < n =>
                         Edge(tab, p.units[i], p.AskOf(i), reset, l2.valid[i], l2.voxel[i]).1.enable)),
         L3Edge(chunk, l3, reset),
         seq(n, i requires 0 <= i < n => Edge(tab, p.units[i], p.AskOf(i), reset, l2.valid[i], l2.voxel[i]).0))
  }

  ghost predicate Sound(chunk: Chunk, p: Pipe) {
    p.Shaped() && Coherent(chunk, p.l2, p.l3)
  }

  /** A cycle keeps the caches coherent, and the ports' answers that the units see are truthful. */
  lemma CycleIsSound(tab: Tables, chunk: Chunk, p: Pipe, reset: bool)
    requires Sound(chunk, p)
    ensures Sound(chunk, Cycle(tab, chunk, p, reset))
    ensures !reset ==> Answers(chunk, L2Edge(p.l2, p.l3, false).0)
  {
    EdgeKeepsCoherence(chunk, p.l2, p.l3, reset, reset);
  }

  /** Safety for every number of units: a started unit takes up its ray, and a unit that is not
    * restarted keeps to its ray until it shows the right outcome, whatever the others do.
    */
  lemma CycleServesJobs(tab: Tables, chunk: Chunk, p: Pipe, i: nat, job: Job)
    requires Sound(chunk, p) && i < |p.units|
    ensures var q := Cycle(tab, chunk, p, false);
      && (p.units[i].init ==>
             Working(tab, chunk, q.units[i], q.AskOf(i), JobAtStart(p.units[i])) && q.units[i].taken == 0)
      && (!p.units[i].init && Serves(tab, chunk, p.units[i], p.AskOf(i), job) ==>
            Serves(tab, chunk, q.units[i], q.AskOf(i), job))
  {
    var (l2, l3) := L2Edge(p.l2, p.l3, false);
    CycleIsSound(tab, chunk, p, false);
    var v, ask := p.units[i], p.AskOf(i);
    assert Cycle(tab, chunk, p, false).units[i] == Edge(tab, v, ask, false, l2.valid[i], l2.voxel[i]).0;
    assert Cycle(tab, chunk, p, false).AskOf(i) == Edge(tab, v, ask, false, l2.valid[i], l2.voxel[i]).1;
    if v.init {
      InitStartsJob(tab, chunk, v, ask, l2.valid[i], l2.voxel[i]);
    } else if Serves(tab, chunk, v, ask, job) {
      EdgeKeepsJob(tab, chunk, v, ask, job, l2.valid[i], l2.voxel[i]);
    }
  }

  // ----- the time that unit 0 takes -----

  /** At the next edge port 0 gets the answer for its address: either it is the one that the L3
    * cache has ready, or it is cached and nothing comes in that could push it out.
    */
  ghost predicate AnswerIsComing(l2: L2State, l3: L3State)
    requires |l2.addr| > 0
  {
    if l3.valid then l3.addr == l2.addr[0] else HasKey(l2.entries, l2.addr[0])
  }

  /** What the caches do for port 0 in one cycle: an answer that is coming arrives, and otherwise
    * the port's address goes to the L3 cache before anybody else's.
    */
  lemma PortZeroIsServed(chunk: Chunk, l2: L2State, l3: L3State)
    requires Coherent(chunk, l2, l3) && |l2.addr| > 0 && l2.enable[0]
    ensures var (l2', l3') := L2Edge(l2, l3, false);
      l2'.valid[0] || (!AnswerIsComing(l2, l3) && AnswerIsComing(l2', L3Edge(chunk, l3', false)))
  {
    EdgeKeepsCoherence(chunk, l2, l3, false, false);
    FillKeepsCoherence(chunk, l2, l3);
  }

  /** How many more cycles unit 0 can need: two for each voxel that it may still look at, less one
    * if the answer for the current one is coming, and one to give up.
    */
  ghost function CyclesLeft(p: Pipe): int
    requires p.Shaped() && |p.units| > 0
  {
    2 * (UNIT_LIMIT + 1 - p.units[0].taken) + 1
      - if p.units[0].taken <= UNIT_LIMIT && AnswerIsComing(p.l2, p.l3) then 1 else 0
  }

  /** The most cycles after the edge that starts a ray until its outcome shows. */
  const LONGEST_JOB: int := 2 * (UNIT_LIMIT + 1) + 1

  lemma CycleMakesProgress(tab: Tables, chunk: Chunk, p: Pipe, job: Job)
    requires Sound(chunk, p) && |p.units| > 0 && !p.units[0].init
    requires Working(tab, chunk, p.units[0], p.AskOf(0), job)
    ensures var q := Cycle(tab, chunk, p, false);
      || Done(tab, chunk, q.units[0], job)
      || (Working(tab, chunk, q.units[0], q.AskOf(0), job) && CyclesLeft(q) < CyclesLeft(p))
  {
    var (l2, l3) := L2Edge(p.l2, p.l3, false);
    var q := Cycle(tab, chunk, p, false);
    CycleServesJobs(tab, chunk, p, 0, job);
    PortZeroIsServed(chunk, p.l2, p.l3);
    assert q.units[0] == Edge(tab, p.units[0], p.AskOf(0), false, l2.valid[0], l2.voxel[0]).0;
    if !l2.valid[0] && p.units[0].taken <= UNIT_LIMIT {
      assert q.l2.addr[0] == p.l2.addr[0];
    }
  }

  // ----- whole runs -----

  /** The inputs of one unit during a cycle. */
  datatype Drive = Drive(origin: Vec3, direction: Vec3, init: bool, pixel: nat)

  function Driven(p: Pipe, ins: seq<Drive>): (r: Pipe)
    requires |ins| == |p.units|
    ensures |r.units| == |p.units|
  {
    p.(units := seq(|ins|, i requires 0 <= i < |ins| =>
      p.units[i].(origin := ins[i].origin, direction := ins[i].direction, init := ins[i].init, pixel := ins[i].pixel)))
  }

  /** The pipeline after cycles with these inputs, none of them a reset. */
  function RunPipe(tab: Tables, chunk: Chunk, p: Pipe, ins: seq<seq<Drive>>): (r: Pipe)
    requires p.Shaped() && forall t :: 0 <= t < |ins| ==> |ins[t]| == |p.units|
    ensures r.Shaped() && |r.units| == |p.units|
  {
    if ins == [] then p
    else Cycle(tab, chunk, Driven(RunPipe(tab, chunk, p, ins[..|ins| - 1]), ins[|ins| - 1]), false)
  }

  /** The inputs that start unit 0 on a ray in the first cycle and leave it alone afterwards; the
    * other units may be driven in any way.
    */
  ghost predicate StartsUnitZero(p: Pipe, ins: seq<seq<Drive>>) {
    && |p.units| > 0 && |ins| > 0
    && (forall t :: 0 <= t < |ins| ==> |ins[t]| == |p.units|)
    && ins[0][0].init
    && forall t :: 1 <= t < |ins| ==> !ins[t][0].init
  }

  /** After the first cycle unit 0 is done, or has used up one cycle of its budget for each further
    * cycle; once done it stays done.
    */
  lemma {:induction false} RunServesUnitZero(tab: Tables, chunk: Chunk, p: Pipe, ins: seq<seq<Drive>>, job: Job)
    requires Sound(chunk, p) && StartsUnitZero(p, ins)
    requires job == Job(ins[0][0].origin, ins[0][0].direction, p.units[0].walk.last, p.units[0].normal)
    ensures var r := RunPipe(tab, chunk, p, ins);
      && Sound(chunk, r)
      && (Done(tab, chunk, r.units[0], job)
          || (Working(tab, chunk, r.units[0], r.AskOf(0), job) && CyclesLeft(r) + |ins| - 1 <= LONGEST_JOB))
  {
    var before, last := ins[..|ins| - 1], ins[|ins| - 1];
    var g := RunPipe(tab, chunk, p, before);
    if |ins| == 1 {
      assert g == p;
    } else {
      RunServesUnitZero(tab, chunk, p, before, job);
    }
    var d := Driven(g, last);
    assert d.AskOf(0) == g.AskOf(0);
    CycleIsSound(tab, chunk, d, false);
    CycleServesJobs(tab, chunk, d, 0, job);
    if |ins| > 1 && !Done(tab, chunk, g.units[0], job) {
      CycleMakesProgress(tab, chunk, d, job);
    }
  }

  /** Main result on the pipeline, for every number of units, every cache capacity, every memory,
    * every state that a run can leave and every ray from inside the chunk: unit 0, started once,
    * shows an outcome no later than 224 edges after it was started, starting edge included. From
    * then on it shows what the reference finds within 110 steps, or Air; and for a hit after at
    * least one step its normal is the reference's too.
    */
  lemma UnitZeroRefinesMock(tab: Tables, chunk: Chunk, p: Pipe, ins: seq<seq<Drive>>, before: Vec3)
    requires Sound(chunk, p) && StartsUnitZero(p, ins)
    requires InChunk(ins[0][0].origin.FloorAll())
    ensures var u := RunPipe(tab, chunk, p, ins).units[0];
      var mock := MockOutcome(tab, chunk, ins[0][0].origin, ins[0][0].direction);
      && (|ins| >= 224 ==> u.valid)
      && (u.valid ==>
            && u.voxel == (if mock.Hit? && mock.steps <= 110 then mock.block else Air)
            && (mock.Hit? && 1 <= mock.steps <= 110 ==>
                  u.normal == ShownNormal(Aim(tab, ins[0][0].direction), mock, before)))
  {
    var job := Job(ins[0][0].origin, ins[0][0].direction, p.units[0].walk.last, p.units[0].normal);
    RunServesUnitZero(tab, chunk, p, ins, job);
    UnitFindsWhatMockFinds(tab, chunk, job.origin, job.direction, job.last);
  }

  /** Once shown, the outcome stays until the next start. */
  lemma {:induction false} OutcomeStays(tab: Tables, chunk: Chunk, p: Pipe, ins: seq<seq<Drive>>, n: nat)
    requires Sound(chunk, p) && StartsUnitZero(p, ins) && 1 <= n <= |ins|
    requires RunPipe(tab, chunk, p, ins[..n]).units[0].valid
    ensures RunPipe(tab, chunk, p, ins).units[0].valid
    ensures RunPipe(tab, chunk, p, ins).units[0].voxel == RunPipe(tab, chunk, p, ins[..n]).units[0].voxel
    ensures RunPipe(tab, chunk, p, ins).units[0].normal == RunPipe(tab, chunk, p, ins[..n]).units[0].normal
    decreases |ins|
  {
    if n < |ins| {
      var before := ins[..|ins| - 1];
      assert before[..n] == ins[..n];
      OutcomeStays(tab, chunk, p, before, n);
    } else {
      assert ins[..n] == ins;
    }
  }
}
