/** The index from chunks to the clients that are to receive updates of them. */
module Subscriptions {
  import opened Components
  import opened Options
  import opened Players
  import opened Subscribers
  import opened Views

  ghost predicate NoEmptyLists(index: Index) {
    forall c :: c in index ==> index[c] != []
  }

  /** Removes an item, once, by putting the last one in its place. */
  method VecRemoveItem(vec: seq<ClientId>, item: ClientId) returns (r: seq<ClientId>)
    ensures multiset(r) == multiset(vec)[item := Minus1(multiset(vec)[item])]
  {
    var index := 0;
    while index < |vec| && vec[index] != item
      invariant index <= |vec| && item !in vec[..index]
    {
      index := index + 1;
    }
    if index == |vec| {
      assert vec[..index] == vec;
      return vec;
    }
    r := SwapRemove(vec, index);
  }

  method SwapRemove(vec: seq<ClientId>, index: nat) returns (r: seq<ClientId>)
    requires index < |vec|
    ensures multiset(r) == multiset(vec) - multiset{vec[index]}
  {
    var last := |vec| - 1;
    r := if index == last then vec[..last] else vec[..last][index := vec[last]];
    assert vec == vec[..last] + [vec[last]];
    assert multiset(vec) == multiset(vec[..last]) + multiset{vec[last]};
  }

  /** What the view updates of a tick do to the number of times a client is in a chunk's list. */
  function AfterUpdates(n: nat, c: Chunk, client: ClientId, updates: seq<(ViewUpdate, ClientId)>): nat {
    if updates == [] then n
    else
      var m := AfterUpdates(n, c, client, updates[..|updates| - 1]);
      var last := updates[|updates| - 1];
      if last.1 == client then Updated(m, c, Some(last.0)) else m
  }

  function AfterLeaving(n: nat, c: Chunk, client: ClientId, leaving: seq<(ClientId, View)>): nat {
    if leaving == [] then n
    else
      var m := AfterLeaving(n, c, client, leaving[..|leaving| - 1]);
      var last := leaving[|leaving| - 1];
      if last.0 == client then Cleared(m, c, last.1) else m
  }

  class ChunkSubscriptions {
    var chunks: Index

    constructor ()
      ensures chunks == map[]
    {
      chunks := map[];
    }

    method Push(c: Chunk, client: ClientId)
      requires NoEmptyLists(chunks)
      modifies this
      ensures NoEmptyLists(chunks)
      ensures forall d, b :: Count(chunks, d, b) == Count(old(chunks), d, b) + if d == c && b == client then 1 else 0
    {
      var vec := if c in chunks then chunks[c] else [];
      chunks := chunks[c := vec + [client]];
    }

    method RemoveSubscription(c: Chunk, client: ClientId)
      requires NoEmptyLists(chunks)
      modifies this
      ensures NoEmptyLists(chunks)
      ensures forall d, b ::
        Count(chunks, d, b)
          == if d == c && b == client then Minus1(Count(old(chunks), d, b)) else Count(old(chunks), d, b)
    {
      if c in chunks {
        var vec := VecRemoveItem(chunks[c], client);
        if vec == [] {
          assert multiset(vec) == multiset{};
          chunks := chunks - {c};
        } else {
          chunks := chunks[c := vec];
        }
      }
    }

    /** Moves a client's subscriptions from one view to another. The chunks of a difference come in
      * no particular order.
      */
    method UpdateView(u: ViewUpdate, client: ClientId)
      requires NoEmptyLists(chunks)
      modifies this
      ensures NoEmptyLists(chunks)
      ensures forall d, b ::
        Count(chunks, d, b)
          == if b == client then Updated(Count(old(chunks), d, b), d, Some(u)) else Count(old(chunks), d, b)
    {
      var todo := Difference(u.newView, u.oldView);
      while todo != {}
        invariant NoEmptyLists(chunks) && todo <= Difference(u.newView, u.oldView)
        invariant forall d, b ::
          Count(chunks, d, b) == Count(old(chunks), d, b)
            + if b == client && d in Difference(u.newView, u.oldView) - todo then 1 else 0
        decreases |todo|
      {
        var c :| c in todo;
        Push(c, client);
        todo := todo - {c};
      }
      RemoveAll(Difference(u.oldView, u.newView), client);
    }

    method RemoveAll(gone: set<Chunk>, client: ClientId)
      requires NoEmptyLists(chunks)
      modifies this
      ensures NoEmptyLists(chunks)
      ensures forall d, b ::
        Count(chunks, d, b)
          == if b == client && d in gone then Minus1(Count(old(chunks), d, b)) else Count(old(chunks), d, b)
    {
      var todo := gone;
      while todo != {}
        invariant NoEmptyLists(chunks) && todo <= gone
        invariant forall d, b ::
          Count(chunks, d, b) == if b == client && d in gone - todo then Minus1(Count(old(chunks), d, b))
                                 else Count(old(chunks), d, b)
        decreases |todo|
      {
        var c :| c in todo;
        RemoveSubscription(c, client);
        todo := todo - {c};
      }
    }

    /** Removes the subscriptions of a view, chunk by chunk. */
    method Leave(client: ClientId, view: View)
      requires NoEmptyLists(chunks)
      modifies this
      ensures NoEmptyLists(chunks)
      ensures forall d, b ::
        Count(chunks, d, b)
          == if b == client then Cleared(Count(old(chunks), d, b), d, view) else Count(old(chunks), d, b)
    {
      IterIsSquare(view);
      var iter := view.Iter();
      for k := 0 to |iter|
        invariant NoEmptyLists(chunks)
        invariant forall d, b ::
          Count(chunks, d, b) == if b == client && d in iter[..k] then Minus1(Count(old(chunks), d, b))
                                 else Count(old(chunks), d, b)
      {
        assert iter[..k + 1] == iter[..k] + [iter[k]];
        assert iter[k] !in iter[..k];
        RemoveSubscription(iter[k], client);
      }
      assert iter[..|iter|] == iter;
    }

    /** One tick: the view updates that are there, then the players that are leaving. */
    method UpdateChunkSubscriptions(updates: seq<(ViewUpdate, ClientId)>, leaving: seq<(ClientId, View)>)
      requires NoEmptyLists(chunks)
      modifies this
      ensures NoEmptyLists(chunks)
      ensures forall c, client ::
        Count(chunks, c, client)
          == AfterLeaving(AfterUpdates(Count(old(chunks), c, client), c, client, updates), c, client, leaving)
    {
      for k := 0 to |updates|
        invariant NoEmptyLists(chunks)
        invariant forall c, client ::
          Count(chunks, c, client) == AfterUpdates(Count(old(chunks), c, client), c, client, updates[..k])
      {
        assert updates[..k + 1][..k] == updates[..k];
        UpdateView(updates[k].0, updates[k].1);
      }
      assert updates[..|updates|] == updates;
      ghost var updated := chunks;
      for k := 0 to |leaving|
        invariant NoEmptyLists(chunks)
        invariant forall c, client ::
          Count(chunks, c, client) == AfterLeaving(Count(updated, c, client), c, client, leaving[..k])
      {
        assert leaving[..k + 1][..k] == leaving[..k];
        Leave(leaving[k].0, leaving[k].1);
      }
      assert leaving[..|leaving|] == leaving;
    }
  }

  // ----- all players together -----

  /** The view updates that a query finds. */
  function UpdatesOf(players: seq<Player>): seq<(ViewUpdate, ClientId)> {
    if players == [] then []
    else
      var last := players[|players| - 1];
      UpdatesOf(players[..|players| - 1]) + if last.update.Some? then [(last.update.value, last.client)] else []
  }

  /** The players that are leaving. */
  function LeavingOf(players: seq<Player>): seq<(ClientId, View)> {
    if players == [] then []
    else
      var last := players[|players| - 1];
      LeavingOf(players[..|players| - 1]) + if last.leaving then [(last.client, last.view)] else []
  }

  lemma AppendedUpdate(n: nat, c: Chunk, client: ClientId, updates: seq<(ViewUpdate, ClientId)>, p: Player)
    ensures AfterUpdates(n, c, client, updates + if p.update.Some? then [(p.update.value, p.client)] else [])
         == var m := AfterUpdates(n, c, client, updates); if p.client == client then Updated(m, c, p.update) else m
  {
    if p.update.Some? {
      assert (updates + [(p.update.value, p.client)])[..|updates|] == updates;
    } else {
      assert updates + [] == updates;
    }
  }

  lemma AppendedLeaving(n: nat, c: Chunk, client: ClientId, leaving: seq<(ClientId, View)>, p: Player)
    ensures AfterLeaving(n, c, client, leaving + if p.leaving then [(p.client, p.view)] else [])
         == var m := AfterLeaving(n, c, client, leaving);
            if p.client == client && p.leaving then Cleared(m, c, p.view) else m
  {
    if p.leaving {
      assert (leaving + [(p.client, p.view)])[..|leaving|] == leaving;
    } else {
      assert leaving + [] == leaving;
    }
  }

  lemma {:induction false} StrangersAreNotTouched(players: seq<Player>, client: ClientId, n: nat, c: Chunk)
    requires forall i :: 0 <= i < |players| && Touches(players[i]) ==> players[i].client != client
    ensures AfterUpdates(n, c, client, UpdatesOf(players)) == n
    ensures AfterLeaving(n, c, client, LeavingOf(players)) == n
  {
    if players != [] {
      var front, last := players[..|players| - 1], players[|players| - 1];
      StrangersAreNotTouched(front, client, n, c);
      assert Touches(last) ==> last.client != client;
      AppendedUpdate(n, c, client, UpdatesOf(front), last);
      AppendedLeaving(n, c, client, LeavingOf(front), last);
    }
  }

  /** As long as no other player that is leaving or has a view update has the same client, what
    * happens to a client's subscriptions depends on its own player only.
    */
  lemma {:induction false} OwnPlayerOnly(players: seq<Player>, i: nat, n: nat, c: Chunk)
    requires i < |players|
    requires forall j :: 0 <= j < |players| && j != i && Touches(players[j]) ==> players[j].client != players[i].client
    ensures AfterUpdates(n, c, players[i].client, UpdatesOf(players)) == Updated(n, c, players[i].update)
    ensures AfterLeaving(n, c, players[i].client, LeavingOf(players))
         == if players[i].leaving then Cleared(n, c, players[i].view) else n
  {
    var front, last := players[..|players| - 1], players[|players| - 1];
    var client := players[i].client;
    AppendedUpdate(n, c, client, UpdatesOf(front), last);
    AppendedLeaving(n, c, client, LeavingOf(front), last);
    if i == |players| - 1 {
      StrangersAreNotTouched(front, client, n, c);
    } else {
      OwnPlayerOnly(front, i, n, c);
      assert Touches(last) ==> last.client != client;
    }
  }

  /** The players in the order in which a query finds them. */
  function Along(players: Roster, order: seq<Entity>): (r: seq<Player>)
    requires forall k :: 0 <= k < |order| ==> order[k] in players
    ensures |r| == |order| && forall k :: 0 <= k < |order| ==> r[k] == players[order[k]]
  {
    seq(|order|, k requires 0 <= k < |order| => players[order[k]])
  }

  ghost predicate IsOrder(players: Roster, order: seq<Entity>) {
    && (forall e :: e in order <==> e in players)
    && (forall j, k :: 0 <= j < k < |order| ==> order[j] != order[k])
  }

  lemma OwnPlayerIsSubscribed(players: Roster, order: seq<Entity>, e: Entity, n: nat, c: Chunk)
    requires IsOrder(players, order) && DistinctTouched(players) && e in players && Touches(players[e])
    ensures var ps, client := Along(players, order), players[e].client;
      AfterLeaving(AfterUpdates(n, c, client, UpdatesOf(ps)), c, client, LeavingOf(ps)) == Subscribed(n, c, players[e])
  {
    var ps := Along(players, order);
    var i: nat :| i < |order| && order[i] == e;
    forall j | 0 <= j < |ps| && j != i && Touches(ps[j]) ensures ps[j].client != ps[i].client {
      assert order[j] in players && order[j] != e;
    }
    OwnPlayerOnly(ps, i, n, c);
    OwnPlayerOnly(ps, i, Updated(n, c, players[e].update), c);
  }

  lemma AllAreSubscribed(players: Roster, order: seq<Entity>, before: Index, after: Index)
    requires IsOrder(players, order) && DistinctTouched(players)
    requires var ps := Along(players, order);
      forall c, client :: Count(after, c, client)
        == AfterLeaving(AfterUpdates(Count(before, c, client), c, client, UpdatesOf(ps)), c, client, LeavingOf(ps))
    ensures Subscribes(before, players, after)
  {
    var ps := Along(players, order);
    forall e, c | e in players && Touches(players[e])
      ensures Count(after, c, players[e].client) == Subscribed(Count(before, c, players[e].client), c, players[e])
    {
      OwnPlayerIsSubscribed(players, order, e, Count(before, c, players[e].client), c);
    }
    forall client, c | !Touched(players, client) ensures Count(after, c, client) == Count(before, c, client) {
      forall i | 0 <= i < |ps| && Touches(ps[i]) ensures ps[i].client != client {
        assert order[i] in players;
      }
      StrangersAreNotTouched(ps, client, Count(before, c, client), c);
    }
  }
}
