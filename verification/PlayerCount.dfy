/** The player counter, which threads change by compare-and-exchange: all interleavings of their steps. */
module PlayerCount {

  const U32 := 0x1_0000_0000

  /** Where a thread is: about to load, or having loaded a count, or with a player, or without one. */
  datatype Thread = Loading | Loaded(current: nat) | Rejected | Admitted | Left

  /** The shared counter, the threads (those not in the map are loading), and how many players have
    * been admitted and removed so far.
    */
  datatype State = State(count: nat, threads: map<nat, Thread>, admitted: nat, removed: nat)

  const START := State(0, map[], 0, 0)

  datatype Step = Load(thread: nat) | Exchange(thread: nat) | Remove(thread: nat)

  function At(s: State, t: nat): Thread { if t in s.threads then s.threads[t] else Loading }

  /** The count plus one, as an unsigned number of 32 bits. */
  function Next(current: nat): nat { (current + 1) % U32 }

  function Previous(current: nat): nat { (current + U32 - 1) % U32 }

  /** Whether a thread can take a step; a player is removed once, and only after it was admitted. */
  predicate Enabled(s: State, step: Step) {
    match step
    case Load(t) => At(s, t).Loading?
    case Exchange(t) => At(s, t).Loaded?
    case Remove(t) => At(s, t).Admitted?
  }

  /** Loading rejects the player if the server is full; exchanging starts over if the count is not the
    * one that was loaded.
    */
  function Take(max: nat, s: State, step: Step): State
    requires Enabled(s, step)
  {
    match step
    case Load(t) =>
      if Next(s.count) > max then s.(threads := s.threads[t := Rejected])
      else s.(threads := s.threads[t := Loaded(s.count)])
    case Exchange(t) =>
      if s.count == At(s, t).current then
        State(Next(s.count), s.threads[t := Admitted], s.admitted + 1, s.removed)
      else s.(threads := s.threads[t := Loading])
    case Remove(t) =>
      State(Previous(s.count), s.threads[t := Left], s.admitted, s.removed + 1)
  }

  ghost predicate IsRun(max: nat, s: State, steps: seq<Step>)
    decreases |steps|
  {
    steps == [] || (Enabled(s, steps[0]) && IsRun(max, Take(max, s, steps[0]), steps[1..]))
  }

  function After(max: nat, s: State, steps: seq<Step>): State
    requires IsRun(max, s, steps)
    decreases |steps|
  {
    if steps == [] then s else After(max, Take(max, s, steps[0]), steps[1..])
  }

  /** What the counter is for: it is the number of players that are there, and never too large. */
  ghost predicate Exact(max: nat, s: State) {
    s.removed <= s.admitted && s.count == s.admitted - s.removed && s.count <= max
  }

  // ----- as long as the largest count is not the largest number -----

  /** The threads that have a player. */
  function Present(s: State): set<nat> { set t | t in s.threads && s.threads[t].Admitted? }

  ghost predicate Inv(max: nat, s: State) {
    && Exact(max, s) && s.count == |Present(s)|
    && (forall t :: t in s.threads && s.threads[t].Loaded? ==> s.threads[t].current < max)
  }

  lemma PresentAfter(s: State, t: nat, thread: Thread)
    ensures Present(s.(threads := s.threads[t := thread]))
         == if thread.Admitted? then Present(s) + {t} else Present(s) - {t}
    ensures t in Present(s) <==> At(s, t).Admitted?
  {
  }

  lemma NoWrap(current: nat)
    requires current < U32
    ensures current < U32 - 1 ==> Next(current) == current + 1
    ensures current > 0 ==> Previous(current) == current - 1
  {
  }

  lemma LoadKeepsInv(max: nat, s: State, t: nat)
    requires max < U32 - 1 && Inv(max, s) && Enabled(s, Load(t))
    ensures Inv(max, Take(max, s, Load(t)))
  {
    PresentAfter(s, t, At(Take(max, s, Load(t)), t));
    NoWrap(s.count);
  }

  lemma ExchangeKeepsInv(max: nat, s: State, t: nat)
    requires max < U32 - 1 && Inv(max, s) && Enabled(s, Exchange(t))
    ensures Inv(max, Take(max, s, Exchange(t)))
  {
    PresentAfter(s, t, At(Take(max, s, Exchange(t)), t));
    NoWrap(s.count);
  }

  lemma RemoveKeepsInv(max: nat, s: State, t: nat)
    requires max < U32 - 1 && Inv(max, s) && Enabled(s, Remove(t))
    ensures Inv(max, Take(max, s, Remove(t)))
  {
    PresentAfter(s, t, Left);
    assert t in Present(s);
    NoWrap(s.count);
  }

  lemma StepKeepsInv(max: nat, s: State, step: Step)
    requires max < U32 - 1 && Inv(max, s) && Enabled(s, step)
    ensures Inv(max, Take(max, s, step))
  {
    match step
    case Load(t) => LoadKeepsInv(max, s, t);
    case Exchange(t) => ExchangeKeepsInv(max, s, t);
    case Remove(t) => RemoveKeepsInv(max, s, t);
  }

  lemma {:induction false} RunKeepsInv(max: nat, s: State, steps: seq<Step>)
    requires max < U32 - 1 && Inv(max, s) && IsRun(max, s, steps)
    ensures Inv(max, After(max, s, steps))
    decreases |steps|
  {
    if steps != [] {
      StepKeepsInv(max, s, steps[0]);
      RunKeepsInv(max, Take(max, s, steps[0]), steps[1..]);
    }
  }

  // ----- if it is, the next player makes the count zero -----

  /** `n` players, one after the other. */
  function Joining(from: nat, n: nat): seq<Step>
    decreases n
  {
    if n == 0 then [] else [Load(from), Exchange(from)] + Joining(from + 1, n - 1)
  }

  lemma {:induction false} EveryoneJoins(max: nat, s: State, from: nat, n: nat)
    requires max == U32 - 1 && s.count < U32 && s.count + n <= U32 && forall t :: t in s.threads ==> t < from
    ensures IsRun(max, s, Joining(from, n))
    ensures var s' := After(max, s, Joining(from, n));
      s'.count == (s.count + n) % U32 && s'.admitted == s.admitted + n && s'.removed == s.removed
    decreases n
  {
    if n > 0 {
      var loaded := Take(max, s, Load(from));
      var joined := Take(max, loaded, Exchange(from));
      var steps := Joining(from, n);
      assert steps[0] == Load(from) && steps[1..][0] == Exchange(from) && steps[1..][1..] == Joining(from + 1, n - 1);
      EveryoneJoins(max, joined, from + 1, n - 1);
    }
  }

  /** Main result on the counter: under every interleaving of any number of threads the count is the
    * number of players, and at most the maximum, if and only if the maximum is not the largest
    * number of 32 bits.
    */
  lemma ExactIff(max: nat)
    requires max < U32
    ensures (forall steps :: IsRun(max, START, steps) ==> Exact(max, After(max, START, steps))) <==> max < U32 - 1
  {
    if max < U32 - 1 {
      forall steps | IsRun(max, START, steps) ensures Exact(max, After(max, START, steps)) {
        assert Present(START) == {};
        RunKeepsInv(max, START, steps);
      }
    } else {
      EveryoneJoins(max, START, 0, U32);
      assert !Exact(max, After(max, START, Joining(0, U32)));
    }
  }

  /** Whatever the maximum, the count never loses a player: up to a multiple of the number of values. */
  ghost predicate Congruent(s: State) {
    s.count < U32 && (s.count - s.admitted + s.removed) % U32 == 0
  }

  lemma StepIsCongruent(max: nat, s: State, step: Step)
    requires Congruent(s) && Enabled(s, step)
    ensures Congruent(Take(max, s, step))
  {
  }

  lemma {:induction false} RunIsCongruent(max: nat, s: State, steps: seq<Step>)
    requires Congruent(s) && IsRun(max, s, steps)
    ensures Congruent(After(max, s, steps))
    decreases |steps|
  {
    if steps != [] {
      StepIsCongruent(max, s, steps[0]);
      RunIsCongruent(max, Take(max, s, steps[0]), steps[1..]);
    }
  }

  // ----- no player is sent away, and no thread made to wait, without a reason -----

  /** A player is rejected only when the server was full. */
  lemma RejectedOnlyWhenFull(max: nat, s: State, t: nat)
    requires max < U32 - 1 && Inv(max, s) && Enabled(s, Load(t))
    ensures At(Take(max, s, Load(t)), t).Rejected? <==> |Present(s)| == max
  {
  }

  /** The states that a run goes through. */
  lemma {:induction false} SomeStepChanges(max: nat, s: State, steps: seq<Step>) returns (k: nat)
    requires IsRun(max, s, steps) && After(max, s, steps).count != s.count
    ensures k < |steps| && IsRun(max, s, steps[..k]) && Enabled(After(max, s, steps[..k]), steps[k])
    ensures var before := After(max, s, steps[..k]); Take(max, before, steps[k]).count != before.count
    decreases |steps|
  {
    var next := Take(max, s, steps[0]);
    if next.count != s.count {
      k := 0;
    } else {
      var j := SomeStepChanges(max, next, steps[1..]);
      k := j + 1;
      assert steps[..k][0] == steps[0] && steps[..k][1..] == steps[1..][..j];
    }
  }

  lemma {:induction false} OthersLeaveThread(max: nat, s: State, steps: seq<Step>, t: nat)
    requires IsRun(max, s, steps) && forall k :: 0 <= k < |steps| ==> steps[k].thread != t
    ensures At(After(max, s, steps), t) == At(s, t)
    decreases |steps|
  {
    if steps != [] {
      assert steps[0].thread != t;
      OthersLeaveThread(max, Take(max, s, steps[0]), steps[1..], t);
    }
  }

  /** An exchange fails only if another thread has changed the count since it was loaded. */
  lemma FailedExchange(max: nat, s: State, t: nat, steps: seq<Step>) returns (k: nat)
    requires Enabled(s, Load(t)) && !At(Take(max, s, Load(t)), t).Rejected?
    requires var loaded := Take(max, s, Load(t));
      && IsRun(max, loaded, steps) && (forall k :: 0 <= k < |steps| ==> steps[k].thread != t)
      && Enabled(After(max, loaded, steps), Exchange(t))
      && At(Take(max, After(max, loaded, steps), Exchange(t)), t).Loading?
    ensures var loaded := Take(max, s, Load(t));
      && k < |steps| && steps[k].thread != t && IsRun(max, loaded, steps[..k])
      && Enabled(After(max, loaded, steps[..k]), steps[k])
      && Take(max, After(max, loaded, steps[..k]), steps[k]).count != After(max, loaded, steps[..k]).count
  {
    var loaded := Take(max, s, Load(t));
    OthersLeaveThread(max, loaded, steps, t);
    k := SomeStepChanges(max, loaded, steps);
  }
}
