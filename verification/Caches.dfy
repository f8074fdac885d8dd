/** The L2 and L3 caches as register machines that change in place at each clock edge. */
module Caches {
  import opened Options
  import opened FixedPoint
  import opened Voxels
  import opened CacheModel

  class L3Cache {
    var reset: bool
    var addrIn: Vec3i
    var readEnableIn: bool
    var voxelOut: Block
    var validOut: bool
    const ddrRam: Chunk

    constructor (chunk: Chunk)
      ensures ddrRam == chunk && !reset && State() == L3State(ORIGIN_I, false, Air, false)
    {
      reset, addrIn, readEnableIn, voxelOut, validOut := false, ORIGIN_I, false, Air, false;
      ddrRam := chunk;
    }

    function State(): L3State
      reads this
    {
      L3State(addrIn, readEnableIn, voxelOut, validOut)
    }

    method RisingClkEdge()
      modifies this`voxelOut, this`validOut
      ensures State() == L3Edge(ddrRam, old(State()), reset)
    {
      if reset {
        voxelOut := Air;
        validOut := false;
        return;
      }
      if !readEnableIn {
        validOut := false;
        return;
      }
      voxelOut := match Query(ddrRam, addrIn) case Some(b) => b case None => Air;
      validOut := true;
    }
  }

  class L2Cache {
    var reset: bool
    const addrIn: array<Vec3i>
    const readEnableIn: array<bool>
    const voxelOut: array<Block>
    const validOut: array<bool>
    const l3: L3Cache
    const entries: array<Option<Entry>>
    var nextReplacement: nat

    constructor (ports: nat, size: nat, l3: L3Cache)
      requires 1 <= size
      ensures Valid() && this.l3 == l3 && addrIn.Length == ports && entries.Length == size
      ensures !reset && State() == PowerOn(ports, size).l2
      ensures fresh(addrIn) && fresh(readEnableIn) && fresh(voxelOut) && fresh(validOut) && fresh(entries)
    {
      reset := false;
      addrIn := new Vec3i[ports](_ => ORIGIN_I);
      readEnableIn := new bool[ports](_ => false);
      voxelOut := new Block[ports](_ => Air);
      validOut := new bool[ports](_ => false);
      entries := new Option<Entry>[size](_ => None);
      nextReplacement := 0;
      this.l3 := l3;
    }

    ghost predicate Valid()
      reads this
    {
      && addrIn.Length == readEnableIn.Length == voxelOut.Length == validOut.Length
      && readEnableIn != validOut
      && nextReplacement < entries.Length
    }

    ghost function State(): (s: L2State)
      reads this, addrIn, readEnableIn, voxelOut, validOut, entries
      requires Valid()
      ensures s.Shaped(addrIn.Length, entries.Length)
    {
      L2State(addrIn[..], readEnableIn[..], voxelOut[..], validOut[..], entries[..], nextReplacement)
    }

    /** The registers after one edge. The coherence that the duplicate check needs is what every
      * run keeps (EveryRunIsCoherent).
      */
    method RisingClkEdge()
      requires Valid() && Coherent(l3.ddrRam, State(), l3.State())
      modifies this`nextReplacement, voxelOut, validOut, entries, l3`addrIn, l3`readEnableIn
      ensures Valid() && (State(), l3.State()) == L2Edge(old(State()), old(l3.State()), reset)
    {
      if reset {
        Clear();
        return;
      }
      if l3.validOut {
        CheckNoDuplicates();
        entries[nextReplacement] := Some(Entry(l3.addrIn, l3.voxelOut));
        nextReplacement := (nextReplacement + 1) % entries.Length;
      }
      assert State() == Fill(old(State()), old(l3.State()));
      ServePorts();
      Arbitrate();
    }

    method Clear()
      requires Valid()
      modifies this`nextReplacement, voxelOut, validOut, entries
      ensures Valid() && (State(), l3.State()) == L2Edge(old(State()), old(l3.State()), true)
    {
      forall p | 0 <= p < voxelOut.Length { voxelOut[p] := Air; }
      forall p | 0 <= p < validOut.Length { validOut[p] := false; }
      forall i | 0 <= i < entries.Length { entries[i] := None; }
      nextReplacement := 0;
      ghost var cleared := L2Edge(old(State()), old(l3.State()), true).0;
      assert entries[..] == cleared.entries && voxelOut[..] == cleared.voxel && validOut[..] == cleared.valid;
      assert addrIn[..] == cleared.addr && readEnableIn[..] == cleared.enable;
      assert l3.State() == old(l3.State());
    }

    /** The original's run-time assertion, searched entry by entry. */
    method CheckNoDuplicates()
      requires Valid() && !HasKey(entries[..], l3.addrIn)
    {
      for i := 0 to entries.Length {
        var entry := entries[i];
        assert !(entry.Some? && entry.value.key == l3.addrIn);
      }
    }

    method ServePorts()
      requires Valid()
      modifies voxelOut, validOut
      ensures Valid() && State() == Serve(old(State()))
    {
      ghost var before := State();
      for p := 0 to addrIn.Length
        invariant entries[..] == before.entries && addrIn[..] == before.addr && readEnableIn[..] == before.enable
        invariant forall q :: 0 <= q < p ==>
          validOut[q] == Serve(before).valid[q] && voxelOut[q] == Serve(before).voxel[q]
        invariant forall q :: p <= q < addrIn.Length ==> voxelOut[q] == before.voxel[q]
      {
        validOut[p] := false;
        if readEnableIn[p] {
          ServePort(p);
        }
      }
      assert voxelOut[..] == Serve(before).voxel && validOut[..] == Serve(before).valid;
    }

    /** Searches the entries for one port's address, stopping at the first hit. */
    method ServePort(p: nat)
      requires Valid() && p < addrIn.Length && !validOut[p]
      modifies voxelOut, validOut
      ensures Valid()
      ensures forall q :: 0 <= q < addrIn.Length && q != p ==>
        validOut[q] == old(validOut[q]) && voxelOut[q] == old(voxelOut[q])
      ensures var r := Lookup(entries[..], addrIn[p]);
        validOut[p] == r.Some? && voxelOut[p] == if r.Some? then r.value else old(voxelOut[p])
    {
      assert entries[0..] == entries[..];
      for i := 0 to entries.Length
        invariant Lookup(entries[..], addrIn[p]) == Lookup(entries[i..], addrIn[p])
        invariant forall q :: 0 <= q < addrIn.Length ==>
          validOut[q] == old(validOut[q]) && voxelOut[q] == old(voxelOut[q])
      {
        assert entries[i..][0] == entries[i] && entries[i..][1..] == entries[i + 1..];
        if entries[i].Some? && entries[i].value.key == addrIn[p] {
          validOut[p] := true;
          voxelOut[p] := entries[i].value.value;
          break;
        }
      }
    }

    /** Static priority: the first port that misses has its address sent to the L3 cache. */
    method Arbitrate()
      requires Valid()
      modifies l3`addrIn, l3`readEnableIn
      ensures l3.State() == Request(State(), old(l3.State()))
    {
      assert readEnableIn[0..] == readEnableIn[..] && validOut[0..] == validOut[..];
      for p := 0 to addrIn.Length
        invariant forall q :: 0 <= q < p ==> !(readEnableIn[q] && !validOut[q])
        invariant l3.State() == old(l3.State())
      {
        if readEnableIn[p] && !validOut[p] {
          assert FirstMiss(readEnableIn[..], validOut[..]) == Some(p);
          l3.addrIn := addrIn[p];
          l3.readEnableIn := true;
          return;
        }
      }
      assert FirstMiss(readEnableIn[..], validOut[..]) == None;
      l3.readEnableIn := false;
    }
  }
}
