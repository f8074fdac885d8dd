/** What the systems do about the view of one player, tick by tick, and to which chunks the player's
  * client is subscribed as a result.
  */
module Subscribers {
  import opened Components
  import opened Options
  import opened Views
  import Ecs = EcsModel
  import EventRuns

  /** A player's entity: where it is, its view, its pending events, and which of the systems have the
    * view update in their lists of events to remove.
    */
  datatype Player = Player(client: ClientId, chunk: Chunk, view: View,
                           update: Option<ViewUpdate>, joining: bool, leaving: bool,
                           inListOfMoves: bool, inListOfJoins: bool)

  // ----- the systems, in the order in which they run -----

  /** Before a system runs, the events in its list are removed. */
  function BeforeUpdateViews(p: Player): Player {
    if p.inListOfMoves then p.(update := None, inListOfMoves := false) else p
  }

  /** In whole runs of `n` systems: what a system inserts for a player in run `g` makes it remove,
    * before its next run, whatever view update the system before it has inserted in between, and
    * the systems after it find none. This is what the view update on joining does to one of a move.
    */
  lemma UpdateIsLost(n: nat, s: Ecs.State, does: Ecs.Doing, g: nat, h: nat, e: Ecs.Entity, kind: Ecs.Kind,
                     value: Value)
    requires n > 1 && EventRuns.Orderly(does) && g + n <= h < g + 2 * n - 1
    requires Ecs.RemoveComponent(e, kind) in EventRuns.RecordsIn(n, s, does, g)
    requires forall x: nat :: g + n <= x < h ==> LeavesComponent(n, s, does, x, e, kind)
    ensures EventRuns.Clash(n, s, does, g + n - 1, g, e, kind, value)
    ensures Ecs.Get(Ecs.Start(n, s, does, h).world, e, kind) == None
    decreases h
  {
    if h == g + n {
      EventRuns.GoneAtNextRun(n, s, does, g, e, kind);
    } else {
      UpdateIsLost(n, s, does, g, h - 1, e, kind, value);
      assert LeavesComponent(n, s, does, h - 1, e, kind);
      EventRuns.FoundAtStart(n, s, does, h, e, kind);
    }
  }

  ghost predicate LeavesComponent(n: nat, s: Ecs.State, does: Ecs.Doing, x: nat, e: Ecs.Entity, kind: Ecs.Kind)
    requires n > 0
  {
    Ecs.Get(Ecs.After(n, s, does, x + 1).world, e, kind) == Ecs.Get(Ecs.Start(n, s, does, x).world, e, kind)
  }

  /** Players that have changed chunks get a new view. */
  function UpdateView(p: Player): Player {
    if p.chunk != p.view.center then
      var v := View(p.chunk, p.view.distance);
      p.(update := Some(ViewUpdate(p.view, v)), view := v, inListOfMoves := true)
    else p
  }

  function BeforeUpdateOnJoin(p: Player): Player {
    if p.inListOfJoins then p.(update := None, inListOfJoins := false) else p
  }

  /** Players that have joined get a view update from nothing; it replaces one that is there. */
  function UpdateOnJoin(p: Player): Player {
    if p.joining then p.(update := Some(ViewUpdate(EMPTY_VIEW, p.view)), inListOfJoins := true) else p
  }

  /** The join event is in the list of the system that polls for new players. */
  function BeforePoll(p: Player): Player { p.(joining := false) }

  /** The packets of a player may move it anywhere. */
  function HandlePackets(p: Player, chunk: Chunk): Player { p.(chunk := chunk) }

  /** How often a client is in a chunk's list, after a view update. */
  function Updated(n: nat, c: Chunk, u: Option<ViewUpdate>): nat {
    if u.None? then n
    else if c in Difference(u.value.newView, u.value.oldView) then n + 1
    else if c in Difference(u.value.oldView, u.value.newView) then Minus1(n)
    else n
  }

  /** How often a client is in a chunk's list, after the subscriptions of a view have been removed. */
  function Cleared(n: nat, c: Chunk, v: View): nat { if c in Chunks(v) then Minus1(n) else n }

  function Minus1(n: nat): nat { if n == 0 then 0 else n - 1 }

  type Counts = Chunk -> nat

  /** What the subscription system does for one player. */
  function Subscribed(n: nat, c: Chunk, p: Player): nat {
    var m := Updated(n, c, p.update);
    if p.leaving then Cleared(m, c, p.view) else m
  }

  function Subscribe(counts: Counts, p: Player): Counts {
    (c: Chunk) => Subscribed(counts(c), c, p)
  }

  /** The player up to the system that polls for new players, and up to the subscription system. */
  function UntilPoll(p: Player): Player {
    BeforePoll(UpdateOnJoin(BeforeUpdateOnJoin(UpdateView(BeforeUpdateViews(p)))))
  }

  function UntilSubscribe(p: Player, chunk: Chunk): Player { HandlePackets(UntilPoll(p), chunk) }

  /** A player that has been spawned in this tick, with the view around the default position. */
  predicate Spawned(p: Player) {
    p.update.None? && p.joining && !p.leaving && !p.inListOfMoves && !p.inListOfJoins
  }

  /** The player after ticks in which its packets have moved it to these chunks. */
  function After(p: Player, moves: seq<Chunk>): Player {
    if moves == [] then p else UntilSubscribe(After(p, moves[..|moves| - 1]), moves[|moves| - 1])
  }

  /** How often the client is in the lists after these ticks, if it is in them as given before. */
  function CountsFrom(counts: Counts, p: Player, moves: seq<Chunk>): Counts {
    if moves == [] then counts else Subscribe(CountsFrom(counts, p, moves[..|moves| - 1]), After(p, moves))
  }

  /** A client is in the lists of the chunks in view, once in each, and in no others. */
  ghost predicate Agrees(counts: Counts, v: View) {
    forall c :: counts(c) == if v.Shows(c) then 1 else 0
  }

  /** A client is in no list. */
  ghost predicate InNone(counts: Counts) {
    forall c :: counts(c) == 0
  }

  // ----- the first ticks, and the later ones -----

  /** In the tick after joining, the client is added to the lists of its view. */
  lemma FirstTick(counts: Counts, p: Player, chunk: Chunk, c: Chunk)
    requires Spawned(p)
    ensures var q := After(p, [chunk]);
      && q.view == View(p.chunk, p.view.distance) && q.chunk == chunk && q.inListOfJoins && !q.joining && !q.leaving
      && CountsFrom(counts, p, [chunk])(c) == counts(c) + if q.view.Shows(c) then 1 else 0
  {
    assert [chunk][..0] == [];
    assert After(p, [chunk]) == UntilSubscribe(p, chunk);
    var q := After(p, [chunk]);
    assert CountsFrom(counts, p, [chunk]) == Subscribe(counts, q);
    assert q.update == Some(ViewUpdate(EMPTY_VIEW, q.view));
  }

  /** A player that has been there for a while: its view updates come from moves only. */
  ghost predicate Settled(p: Player) {
    !p.joining && !p.leaving && !p.inListOfJoins && (p.update.Some? ==> p.inListOfMoves)
  }

  /** A settled player's view updates reach the subscriptions. */
  lemma SettledTick(p: Player, chunk: Chunk)
    requires Settled(p)
    ensures var q := UntilSubscribe(p, chunk);
      && Settled(q) && q.chunk == chunk && q.view == View(p.chunk, p.view.distance)
      && (q.update.None? ==> q.view == p.view)
      && (q.update.Some? ==> q.update.value == ViewUpdate(p.view, q.view))
  {
  }

  /** In the second tick after joining, a view update is removed before it is delivered: the list of
    * the second system still has the player, because of the update on joining.
    */
  lemma SecondTick(counts: Counts, p: Player, first: Chunk, second: Chunk, c: Chunk)
    requires Spawned(p)
    ensures var q := After(p, [first, second]);
      && Settled(q) && q.update == None && q.chunk == second && q.view == View(first, p.view.distance)
      && CountsFrom(counts, p, [first, second])(c)
         == counts(c) + if View(p.chunk, p.view.distance).Shows(c) then 1 else 0
  {
    FirstTick(counts, p, first, c);
    assert [first, second][..1] == [first];
    assert After(p, [first, second]) == UntilSubscribe(After(p, [first]), second);
    assert CountsFrom(counts, p, [first, second])
        == Subscribe(CountsFrom(counts, p, [first]), After(p, [first, second]));
  }

  /** More subscriptions of a chunk than its view asks for. */
  ghost predicate Stale(counts: Counts, v: View, c: Chunk) {
    counts(c) > if v.Shows(c) then 1 else 0
  }

  /** From the second tick on, agreement is kept, and so is a stale subscription. */
  lemma {:induction false} LaterTicks(counts: Counts, p: Player, moves: seq<Chunk>, c: Chunk)
    requires Spawned(p) && |moves| >= 2
    ensures var q := After(p, moves);
      && Settled(q) && q.view.distance == p.view.distance
      && (Agrees(CountsFrom(counts, p, moves[..2]), After(p, moves[..2]).view) ==>
            Agrees(CountsFrom(counts, p, moves), q.view))
      && (Stale(CountsFrom(counts, p, moves[..2]), After(p, moves[..2]).view, c) ==>
            Stale(CountsFrom(counts, p, moves), q.view, c))
    decreases |moves|
  {
    if |moves| == 2 {
      assert moves[..2] == moves == [moves[0], moves[1]];
      SecondTick(counts, p, moves[0], moves[1], c);
    } else {
      var front := moves[..|moves| - 1];
      assert front[..2] == moves[..2];
      LaterTicks(counts, p, front, c);
      SettledTick(After(p, front), moves[|moves| - 1]);
    }
  }

  // ----- lives of players -----

  /** A player as it was when the tick in which it was spawned had ended, and the chunks to which its
    * packets have moved it in the ticks since then.
    */
  datatype Life = Life(born: Player, moves: seq<Chunk>)

  /** The player did not change chunks between its first two ticks, or sees nothing, or has not had
    * two ticks.
    */
  predicate Clean(life: Life) {
    |life.moves| <= 1 || life.moves[0] == life.born.chunk || life.born.view.distance == 0
  }

  lemma AgreesIfClean(counts: Counts, life: Life)
    requires Spawned(life.born) && life.moves != [] && Clean(life) && InNone(counts)
    ensures Agrees(CountsFrom(counts, life.born, life.moves), After(life.born, life.moves).view)
  {
    var p, moves := life.born, life.moves;
    if |moves| == 1 {
      assert moves == [moves[0]];
      forall c
        ensures CountsFrom(counts, p, moves)(c) == if After(p, moves).view.Shows(c) then 1 else 0
      {
        FirstTick(counts, p, moves[0], c);
      }
    } else {
      assert moves[..2] == [moves[0], moves[1]];
      forall c
        ensures CountsFrom(counts, p, moves[..2])(c) == if After(p, moves[..2]).view.Shows(c) then 1 else 0
      {
        SecondTick(counts, p, moves[0], moves[1], c);
      }
      LaterTicks(counts, p, moves, p.chunk);
    }
  }

  lemma StaleIfNot(counts: Counts, life: Life) returns (c: Chunk)
    requires Spawned(life.born) && life.moves != [] && !(Clean(life) && InNone(counts))
    ensures Stale(CountsFrom(counts, life.born, life.moves), After(life.born, life.moves).view, c)
  {
    var p, moves := life.born, life.moves;
    if Clean(life) {
      c :| counts(c) > 0;
    } else {
      c := ViewsDiffer(View(p.chunk, p.view.distance), View(moves[0], p.view.distance));
    }
    if |moves| == 1 {
      assert moves == [moves[0]];
      FirstTick(counts, p, moves[0], c);
    } else {
      assert moves[..2] == [moves[0], moves[1]];
      SecondTick(counts, p, moves[0], moves[1], c);
      LaterTicks(counts, p, moves, c);
    }
  }

  /** Main result on the subscriptions of one player: after any number of ticks after the one in
    * which it has been spawned, its client is in the lists of exactly the chunks in view, once in
    * each, if and only if it had not changed chunks between its first two ticks (or sees nothing),
    * and the client was in no list when the player was spawned.
    */
  lemma AgreesIff(counts: Counts, life: Life)
    requires Spawned(life.born) && life.moves != []
    ensures Agrees(CountsFrom(counts, life.born, life.moves), After(life.born, life.moves).view)
       <==> Clean(life) && InNone(counts)
  {
    if Clean(life) && InNone(counts) {
      AgreesIfClean(counts, life);
    } else {
      var c := StaleIfNot(counts, life);
    }
  }

  lemma LeavingTick(p: Player, chunk: Chunk)
    ensures UntilSubscribe(p.(leaving := true), chunk) == UntilSubscribe(p, chunk).(leaving := true)
    ensures UntilSubscribe(p, chunk).leaving == p.leaving
  {
  }

  lemma {:induction false} NotLeaving(p: Player, moves: seq<Chunk>)
    requires !p.leaving
    ensures !After(p, moves).leaving && After(p, moves).client == p.client
  {
    if moves != [] {
      NotLeaving(p, moves[..|moves| - 1]);
      LeavingTick(After(p, moves[..|moves| - 1]), moves[|moves| - 1]);
    }
  }

  lemma SubscribeLeaving(counts: Counts, q: Player, c: Chunk)
    requires !q.leaving
    ensures Subscribe(counts, q.(leaving := true))(c) == Cleared(Subscribe(counts, q)(c), c, q.view)
  {
  }

  /** What is left in the lists of the client of a player that is gone: in the last of its ticks the
    * subscription system has seen it as leaving.
    */
  function LeftBehind(counts: Counts, life: Life): Counts {
    (c: Chunk) => Cleared(CountsFrom(counts, life.born, life.moves)(c), c, After(life.born, life.moves).view)
  }

  /** This is what the subscription system does with the leaving player. */
  lemma LeftBehindIs(counts: Counts, p: Player, moves: seq<Chunk>, chunk: Chunk, c: Chunk)
    requires !p.leaving
    ensures LeftBehind(counts, Life(p, moves + [chunk]))(c)
         == Subscribe(CountsFrom(counts, p, moves), UntilSubscribe(After(p, moves).(leaving := true), chunk))(c)
  {
    var next := moves + [chunk];
    assert next[..|next| - 1] == moves && next[|next| - 1] == chunk;
    var q, before := After(p, next), CountsFrom(counts, p, moves);
    assert CountsFrom(counts, p, next) == Subscribe(before, q);
    NotLeaving(p, next);
    SubscribeLeaving(before, q, c);
    assert UntilSubscribe(After(p, moves).(leaving := true), chunk) == q.(leaving := true) by {
      LeavingTick(After(p, moves), chunk);
    }
  }

  /** The other half: after a player has left, its client is in no list if and only if the player had
    * not changed chunks between its first two ticks, or left before its first view update was due,
    * or saw nothing, and the client was in no list when the player was spawned.
    */
  lemma NoneLeftBehindIff(counts: Counts, life: Life)
    requires Spawned(life.born) && life.moves != []
    ensures InNone(LeftBehind(counts, life)) <==> Clean(life) && InNone(counts)
  {
    if Clean(life) && InNone(counts) {
      AgreesIfClean(counts, life);
    } else {
      var c := StaleIfNot(counts, life);
      assert LeftBehind(counts, life)(c) > 0;
    }
  }

  // ----- clients whose numbers are used again -----

  /** What the earlier holders of a client's number have left behind, one after the other. */
  function Residue(lives: seq<Life>): Counts {
    if lives == [] then (_: Chunk) => 0 else LeftBehind(Residue(lives[..|lives| - 1]), lives[|lives| - 1])
  }

  ghost predicate Past(lives: seq<Life>) {
    forall k :: 0 <= k < |lives| ==> Spawned(lives[k].born) && lives[k].moves != []
  }

  ghost predicate AllClean(lives: seq<Life>) {
    forall k :: 0 <= k < |lives| ==> Clean(lives[k])
  }

  /** Nothing is left of a number's holders if and only if none of them has left anything behind: no
    * later one makes up for it.
    */
  lemma {:induction false} ResidueIff(lives: seq<Life>)
    requires Past(lives)
    ensures InNone(Residue(lives)) <==> AllClean(lives)
  {
    if lives != [] {
      var front, last := lives[..|lives| - 1], lives[|lives| - 1];
      ResidueIff(front);
      NoneLeftBehindIff(Residue(front), last);
      assert AllClean(lives) <==> AllClean(front) && Clean(last);
    }
  }

  /** So a live player's client is in the right lists if and only if neither the player nor any of
    * the earlier holders of the client's number changed chunks between its first two ticks while it
    * saw anything.
    */
  lemma AgreesAfterIff(past: seq<Life>, life: Life)
    requires Past(past) && Spawned(life.born) && life.moves != []
    ensures Agrees(CountsFrom(Residue(past), life.born, life.moves), After(life.born, life.moves).view)
       <==> Clean(life) && AllClean(past)
  {
    ResidueIff(past);
    AgreesIff(Residue(past), life);
  }

  /** A player at this chunk that has just been spawned, with a view of the chunks next to it. */
  function NewAt(chunk: Chunk): Player {
    Player(0, chunk, View(chunk, 1), None, true, false, false, false)
  }

  /** The first holder of a number goes five chunks away in its second tick and leaves. The second one
    * never moves, and is subscribed to chunks that it does not see.
    */
  lemma ReusedNumberIsWrong()
    ensures var here, there := Chunk(0, 0), Chunk(5, 0);
      var first, second := Life(NewAt(here), [there, there]), Life(NewAt(here), [here]);
      && Clean(second)
      && !Agrees(CountsFrom(Residue([first]), second.born, second.moves), After(second.born, second.moves).view)
  {
    var here, there := Chunk(0, 0), Chunk(5, 0);
    var first, second := Life(NewAt(here), [there, there]), Life(NewAt(here), [here]);
    AgreesAfterIff([first], second);
    assert !Clean([first][0]);
  }
}
