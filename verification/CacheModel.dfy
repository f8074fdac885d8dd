/** What one clock edge of the two caches does, on values, and what every run of them keeps. */
module CacheModel {
  import opened Options
  import opened FixedPoint
  import opened Voxels

  datatype Entry = Entry(key: Vec3i, value: Block)

  /** The registers of the L3 cache. */
  datatype L3State = L3State(addr: Vec3i, enable: bool, voxel: Block, valid: bool)

  /** The registers of the L2 cache; the first four have one element for each port. */
  datatype L2State = L2State(addr: seq<Vec3i>, enable: seq<bool>, voxel: seq<Block>, valid: seq<bool>,
                             entries: seq<Option<Entry>>, next: nat)
  {
    ghost predicate Shaped(ports: nat, size: nat) {
      && |addr| == |enable| == |voxel| == |valid| == ports
      && |entries| == size && next < size
    }
  }

  // ----- one clock edge -----

  function L3Edge(chunk: Chunk, s: L3State, reset: bool): L3State {
    if reset then s.(voxel := Air, valid := false)
    else if !s.enable then s.(valid := false)
    else s.(voxel := Read(chunk, s.addr), valid := true)
  }

  ghost predicate HasKey(entries: seq<Option<Entry>>, key: Vec3i) {
    exists i :: 0 <= i < |entries| && entries[i].Some? && entries[i].value.key == key
  }

  /** The value of the first entry with this key. */
  function Lookup(entries: seq<Option<Entry>>, key: Vec3i): (r: Option<Block>)
    ensures r.Some? <==> HasKey(entries, key)
    ensures r.Some? ==> Some(Entry(key, r.value)) in entries
  {
    if entries == [] then None
    else if entries[0].Some? && entries[0].value.key == key then Some(entries[0].value.value)
    else
      var r := Lookup(entries[1..], key);
      assert forall i :: 1 <= i < |entries| ==> entries[i] == entries[1..][i - 1];
      r
  }

  /** The fill from the last L3 answer: it goes over the oldest entry. */
  function Fill(l2: L2State, l3: L3State): L2State
    requires l2.next < |l2.entries|
  {
    if l3.valid then
      l2.(entries := l2.entries[l2.next := Some(Entry(l3.addr, l3.voxel))],
          next := (l2.next + 1) % |l2.entries|)
    else l2
  }

  /** The answers to the ports: a port without an answer keeps its last voxel. */
  function Serve(l2: L2State): L2State
    requires |l2.addr| == |l2.enable| == |l2.voxel|
  {
    l2.(valid := seq(|l2.addr|, p requires 0 <= p < |l2.addr| =>
                   l2.enable[p] && Lookup(l2.entries, l2.addr[p]).Some?),
        voxel := seq(|l2.addr|, p requires 0 <= p < |l2.addr| =>
                   if l2.enable[p] && Lookup(l2.entries, l2.addr[p]).Some?
                   then Lookup(l2.entries, l2.addr[p]).value else l2.voxel[p]))
  }

  /** The first port, in order of priority, that asked and got no answer. */
  function FirstMiss(enable: seq<bool>, valid: seq<bool>): (r: Option<nat>)
    requires |enable| == |valid|
    ensures match r
      case Some(p) => p < |enable| && enable[p] && !valid[p]
        && forall q :: 0 <= q < p ==> !(enable[q] && !valid[q])
      case None => forall q :: 0 <= q < |enable| ==> !(enable[q] && !valid[q])
  {
    if enable == [] then None
    else if enable[0] && !valid[0] then Some(0)
    else
      match FirstMiss(enable[1..], valid[1..])
      case Some(p) =>
        assert forall q :: 1 <= q < |enable| ==> enable[q] == enable[1..][q - 1] && valid[q] == valid[1..][q - 1];
        Some(p + 1)
      case None =>
        assert forall q :: 1 <= q < |enable| ==> enable[q] == enable[1..][q - 1] && valid[q] == valid[1..][q - 1];
        None
  }

  /** The request that the L2 cache leaves for the L3 cache. */
  function Request(l2: L2State, l3: L3State): L3State
    requires |l2.addr| == |l2.enable| == |l2.valid|
  {
    match FirstMiss(l2.enable, l2.valid)
    case Some(p) => l3.(addr := l2.addr[p], enable := true)
    case None => l3.(enable := false)
  }

  function L2Edge(l2: L2State, l3: L3State, reset: bool): (r: (L2State, L3State))
    requires |l2.addr| == |l2.enable| == |l2.voxel| == |l2.valid| && l2.next < |l2.entries|
    ensures r.0.Shaped(|l2.addr|, |l2.entries|)
    ensures r.0.addr == l2.addr && r.0.enable == l2.enable
  {
    if reset then
      (l2.(voxel := seq(|l2.voxel|, _ => Air), valid := seq(|l2.valid|, _ => false),
           entries := seq(|l2.entries|, _ => None), next := 0), l3)
    else
      var served := Serve(Fill(l2, l3));
      (served, Request(served, l3))
  }

  /** Static priority: after an edge the L3 cache is asked exactly if some port has asked and got no
    * answer, and then for the address of the first such port.
    */
  lemma FirstMissIsRequested(l2: L2State, l3: L3State, p: nat)
    requires l2.Shaped(|l2.addr|, |l2.entries|) && p < |l2.addr|
    ensures var (l2', l3') := L2Edge(l2, l3, false);
      && (l3'.enable <==> exists q :: 0 <= q < |l2.addr| && l2'.enable[q] && !l2'.valid[q])
      && (l2'.enable[p] && !l2'.valid[p] && (forall q :: 0 <= q < p ==> !(l2'.enable[q] && !l2'.valid[q])) ==>
            l3'.addr == l2.addr[p])
      && l3'.valid == l3.valid && l3'.voxel == l3.voxel
  {
    var (l2', l3') := L2Edge(l2, l3, false);
    match FirstMiss(l2'.enable, l2'.valid)
    case Some(m) => assert l2'.enable[m] && !l2'.valid[m];
    case None =>
  }

  // ----- coherence -----

  ghost predicate DistinctKeys(entries: seq<Option<Entry>>) {
    forall i, j :: 0 <= i < j < |entries| && entries[i].Some? && entries[j].Some?
      ==> entries[i].value.key != entries[j].value.key
  }

  ghost predicate TrueValues(chunk: Chunk, entries: seq<Option<Entry>>) {
    forall i :: 0 <= i < |entries| && entries[i].Some?
      ==> entries[i].value.value == Read(chunk, entries[i].value.key)
  }

  /** What holds between clock cycles. The last conjunct is what the duplicate check of the next
    * fill relies on.
    */
  ghost predicate Coherent(chunk: Chunk, l2: L2State, l3: L3State) {
    && l2.Shaped(|l2.addr|, |l2.entries|)
    && DistinctKeys(l2.entries)
    && TrueValues(chunk, l2.entries)
    && (l3.valid ==> l3.voxel == Read(chunk, l3.addr) && !HasKey(l2.entries, l3.addr))
  }

  /** Each port's answer is the truth about its address, and there is one exactly if the address
    * is cached.
    */
  ghost predicate Answers(chunk: Chunk, l2: L2State)
    requires |l2.addr| == |l2.enable| == |l2.voxel| == |l2.valid|
  {
    forall p :: 0 <= p < |l2.addr| ==>
      && (l2.valid[p] <==> l2.enable[p] && HasKey(l2.entries, l2.addr[p]))
      && (l2.valid[p] ==> l2.voxel[p] == Read(chunk, l2.addr[p]))
  }

  lemma FillKeepsCoherence(chunk: Chunk, l2: L2State, l3: L3State)
    requires Coherent(chunk, l2, l3)
    ensures DistinctKeys(Fill(l2, l3).entries) && TrueValues(chunk, Fill(l2, l3).entries)
    ensures l3.valid ==> HasKey(Fill(l2, l3).entries, l3.addr)
  {
    if l3.valid {
      assert Fill(l2, l3).entries[l2.next] == Some(Entry(l3.addr, l3.voxel));
    }
  }

  lemma ServeAnswers(chunk: Chunk, l2: L2State)
    requires l2.Shaped(|l2.addr|, |l2.entries|)
    requires TrueValues(chunk, l2.entries)
    ensures Answers(chunk, Serve(l2))
  {
    forall p | 0 <= p < |l2.addr|
      ensures Serve(l2).valid[p] ==> Serve(l2).voxel[p] == Read(chunk, l2.addr[p])
    {
      var r := Lookup(l2.entries, l2.addr[p]);
      if l2.enable[p] && r.Some? {
        var i :| 0 <= i < |l2.entries| && l2.entries[i] == Some(Entry(l2.addr[p], r.value));
      }
    }
  }

  /** One joint clock edge, with the two resets in any combination, keeps the caches coherent and
    * answers every port truthfully.
    */
  lemma EdgeKeepsCoherence(chunk: Chunk, l2: L2State, l3: L3State, reset2: bool, reset3: bool)
    requires Coherent(chunk, l2, l3)
    ensures var (l2', l3') := L2Edge(l2, l3, reset2);
      Coherent(chunk, l2', L3Edge(chunk, l3', reset3)) && (!reset2 ==> Answers(chunk, l2'))
    ensures reset2 ==> forall p :: 0 <= p < |l2.addr| ==> !L2Edge(l2, l3, reset2).0.valid[p]
  {
    if !reset2 {
      FillKeepsCoherence(chunk, l2, l3);
      ServeAnswers(chunk, Fill(l2, l3));
    }
  }

  // ----- whole runs -----

  /** What the two caches are driven with during one clock cycle. */
  datatype CacheDrive = CacheDrive(addr: seq<Vec3i>, enable: seq<bool>, resetL2: bool, resetL3: bool)

  /** The caches together with the fills since the last reset of the L2 cache, oldest first. */
  datatype History = History(l2: L2State, l3: L3State, fills: seq<Entry>)

  function PowerOn(ports: nat, size: nat): History {
    History(L2State(seq(ports, _ => ORIGIN_I), seq(ports, _ => false), seq(ports, _ => Air),
                    seq(ports, _ => false), seq(size, _ => None), 0),
            L3State(ORIGIN_I, false, Air, false), [])
  }

  function CacheCycle(chunk: Chunk, h: History, d: CacheDrive): (r: History)
    requires h.l2.Shaped(|d.addr|, |h.l2.entries|) && |d.enable| == |d.addr|
    ensures r.l2.Shaped(|d.addr|, |h.l2.entries|)
  {
    var (l2, l3) := L2Edge(h.l2.(addr := d.addr, enable := d.enable), h.l3, d.resetL2);
    History(l2, L3Edge(chunk, l3, d.resetL3),
            if d.resetL2 then [] else if h.l3.valid then h.fills + [Entry(h.l3.addr, h.l3.voxel)] else h.fills)
  }

  function RunCaches(chunk: Chunk, ports: nat, size: nat, drives: seq<CacheDrive>): (r: History)
    requires 1 <= size
    requires forall d :: d in drives ==> |d.addr| == |d.enable| == ports
    ensures r.l2.Shaped(ports, size)
  {
    if drives == [] then PowerOn(ports, size)
    else
      var last := drives[|drives| - 1];
      assert last in drives;
      CacheCycle(chunk, RunCaches(chunk, ports, size, drives[..|drives| - 1]), last)
  }

  /** The entries are the most recent fills, as many as there is room for, each at the place that
    * its number gives it; the places that no fill has reached are empty.
    */
  ghost predicate MostRecentFills(entries: seq<Option<Entry>>, next: nat, fills: seq<Entry>)
    requires 1 <= |entries|
  {
    var n, size := |fills|, |entries|;
    && next == n % size
    && (forall j :: 0 <= j < n && n - size <= j ==> entries[j % size] == Some(fills[j]))
    && (forall i :: n <= i < size ==> entries[i] == None)
  }

  lemma DistinctPlaces(i: nat, j: nat, size: nat)
    requires 1 <= size && i < j < i + size
    ensures i % size != j % size
  {
    var d := j / size - i / size;
    assert j - i == d * size + j % size - i % size;
    assert d >= 1 ==> d * size >= size;
    assert d <= 0 ==> d * size <= 0;
  }

  lemma NextPlace(n: nat, size: nat)
    requires 1 <= size
    ensures (n % size + 1) % size == (n + 1) % size
  {
    NextOf(n / size, n % size, size, n + 1);
  }

  lemma NextOf(q: nat, r: nat, size: nat, n: nat)
    requires r < size && n == q * size + r + 1
    ensures (r + 1) % size == n % size
  {
    if r + 1 < size {
      DivMod(q, r + 1, size);
      DivMod(0, r + 1, size);
    } else {
      assert (q + 1) * size == q * size + size;
      DivMod(q + 1, 0, size);
      DivMod(1, 0, size);
    }
  }

  lemma DivMod(q: nat, r: nat, size: nat)
    requires r < size
    ensures (q * size + r) % size == r
  {
    var x := q * size + r;
    assert x == (x / size) * size + x % size;
    var d := x / size - q;
    assert d * size == r - x % size;
    assert d >= 1 ==> d * size >= size;
    assert d <= -1 ==> d * size <= 0 - size;
  }

  lemma FillKeepsOrder(entries: seq<Option<Entry>>, next: nat, fills: seq<Entry>, e: Entry)
    requires 1 <= |entries| && next < |entries|
    requires MostRecentFills(entries, next, fills)
    ensures MostRecentFills(entries[next := Some(e)], (next + 1) % |entries|, fills + [e])
  {
    var n, size := |fills|, |entries|;
    var entries', fills' := entries[next := Some(e)], fills + [e];
    NextPlace(n, size);
    forall j | 0 <= j < n + 1 && n + 1 - size <= j
      ensures entries'[j % size] == Some(fills'[j])
    {
      if j < n { DistinctPlaces(j, n, size); }
    }
    if n < size { DivMod(0, n, size); }
  }

  /** Main result on the caches, for every number of ports, every capacity of at least one entry
    * and every run of requests and resets: the caches stay coherent (so the duplicate check of
    * the next fill cannot fail), the entries are the most recent fills in first-in-first-out
    * order with distinct keys, and after a cycle without reset every port's answer is the
    * memory's.
    */
  lemma {:induction false} EveryRunIsCoherent(chunk: Chunk, ports: nat, size: nat, drives: seq<CacheDrive>)
    requires 1 <= size
    requires forall d :: d in drives ==> |d.addr| == |d.enable| == ports
    ensures var h := RunCaches(chunk, ports, size, drives);
      && Coherent(chunk, h.l2, h.l3)
      && MostRecentFills(h.l2.entries, h.l2.next, h.fills)
      && (forall i, j :: 0 <= i < j < |h.fills| && |h.fills| - size <= i ==> h.fills[i].key != h.fills[j].key)
      && (drives != [] && !drives[|drives| - 1].resetL2 ==>
            && Answers(chunk, h.l2)
            && h.l2.addr == drives[|drives| - 1].addr
            && h.l2.enable == drives[|drives| - 1].enable)
  {
    var h := RunCaches(chunk, ports, size, drives);
    if drives == [] {
    } else {
      var before, last := drives[..|drives| - 1], drives[|drives| - 1];
      assert last in drives;
      EveryRunIsCoherent(chunk, ports, size, before);
      StepIsCoherent(chunk, RunCaches(chunk, ports, size, before), last);
    }
    RecentKeysDiffer(h.l2.entries, h.l2.next, h.fills);
  }

  lemma StepIsCoherent(chunk: Chunk, g: History, d: CacheDrive)
    requires g.l2.Shaped(|d.addr|, |g.l2.entries|) && |d.enable| == |d.addr|
    requires Coherent(chunk, g.l2, g.l3) && MostRecentFills(g.l2.entries, g.l2.next, g.fills)
    ensures var h := CacheCycle(chunk, g, d);
      && Coherent(chunk, h.l2, h.l3) && MostRecentFills(h.l2.entries, h.l2.next, h.fills)
      && h.l2.addr == d.addr && h.l2.enable == d.enable
      && (!d.resetL2 ==> Answers(chunk, h.l2))
  {
    var l2 := g.l2.(addr := d.addr, enable := d.enable);
    EdgeKeepsCoherence(chunk, l2, g.l3, d.resetL2, d.resetL3);
    if !d.resetL2 && g.l3.valid {
      FillKeepsOrder(l2.entries, l2.next, g.fills, Entry(g.l3.addr, g.l3.voxel));
    }
  }

  lemma RecentKeysDiffer(entries: seq<Option<Entry>>, next: nat, fills: seq<Entry>)
    requires 1 <= |entries|
    requires MostRecentFills(entries, next, fills) && DistinctKeys(entries)
    ensures forall i, j :: 0 <= i < j < |fills| && |fills| - |entries| <= i ==> fills[i].key != fills[j].key
  {
    forall i, j | 0 <= i < j < |fills| && |fills| - |entries| <= i
      ensures fills[i].key != fills[j].key
    {
      DistinctPlaces(i, j, |entries|);
      assert entries[i % |entries|] == Some(fills[i]) && entries[j % |entries|] == Some(fills[j]);
    }
  }
}
