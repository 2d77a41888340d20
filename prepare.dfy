/** The render-side instance buffer and its per-frame preparation
    (`GpuCubes` and `prepare_cubes` in examples/cubes/main.rs). The GPU
    calls themselves are abstracted away: the model keeps the CPU-side
    contents of the instance buffer, the contents the index buffer was
    created with, and the index count. */
module Prepare {
  import opened Base
  import opened CubeData
  import opened IndexPattern
  import opened Extraction

  /** The value of a `GpuCubes` resource. */
  datatype GpuState = GpuState(instances: seq<GpuCube>, indexBuffer: Option<seq<u32>>, indexCount: u32)

  /** `GpuCubes::default()`. */
  const InitialGpuState: GpuState := GpuState([], None, 0)

  /** The cubes `prepare_cubes` takes from one snapshot: none when its flag
      is set (`continue`), all of them otherwise. */
  function Taken(snapshot: CubesValue): seq<Cube>
  {
    if snapshot.extracted then [] else snapshot.data
  }

  /** The cubes `prepare_cubes` takes from a run of snapshots, in query order. */
  function Pending(snapshots: seq<CubesValue>): seq<Cube>
  {
    if snapshots == [] then [] else Taken(snapshots[0]) + Pending(snapshots[1..])
  }

  /** Some snapshot of the run is unextracted, so `prepare_cubes` does work. */
  predicate AnyUnextracted(snapshots: seq<CubesValue>)
  {
    snapshots != [] && (!snapshots[0].extracted || AnyUnextracted(snapshots[1..]))
  }

  /** The records after preparing a run still number at most `MaxCubes`, so
      `index_count` and every index value fit in a `u32`. */
  predicate Fits(s: GpuState, snapshots: seq<CubesValue>)
  {
    |s.instances| + |Pending(snapshots)| <= MaxCubes
  }

  /** One iteration of `prepare_cubes`: a snapshot with the flag set is
      skipped; any other has its cubes packed and appended after the
      existing records (the buffer is not cleared), and the index count and
      index buffer are rebuilt for the new record count. */
  function PrepareOne(s: GpuState, snapshot: CubesValue): (r: GpuState)
    requires |s.instances| + |Taken(snapshot)| <= MaxCubes
    ensures snapshot.extracted ==> r == s
    ensures !snapshot.extracted ==> r.instances == s.instances + PackAll(snapshot.data)
    ensures !snapshot.extracted ==>
      r.indexCount == |r.instances| * 18 &&
      r.indexBuffer == Some(GenerateIndexBufferData(|r.instances|))
  {
    if snapshot.extracted then s
    else
      var instances := s.instances + PackAll(snapshot.data);
      GpuState(instances, Some(GenerateIndexBufferData(|instances|)), (|instances| * 18) as u32)
  }

  /** `prepare_cubes` over a run of snapshots, in query order. */
  function PrepareAll(s: GpuState, snapshots: seq<CubesValue>): (r: GpuState)
    requires Fits(s, snapshots)
    ensures PreparedFrom(s, snapshots, r)
    decreases |snapshots|
  {
    if snapshots == [] then s
    else
      var t := PrepareOne(s, snapshots[0]);
      var r := PrepareAll(t, snapshots[1..]);
      PrepareStep(s, snapshots, r);
      r
  }

  /** What `prepare_cubes` over `snapshots` leaves, starting from `s`: the
      packed records of every unextracted snapshot appended in order; if any
      snapshot was unextracted, an index count and an index buffer rebuilt
      for the final record count; otherwise no change at all. */
  predicate PreparedFrom(s: GpuState, snapshots: seq<CubesValue>, r: GpuState)
  {
    r.instances == s.instances + PackAll(Pending(snapshots)) &&
    (!AnyUnextracted(snapshots) ==> r == s) &&
    (AnyUnextracted(snapshots) ==>
      r.indexCount == |r.instances| * 18 &&
      r.indexBuffer == Some(GenerateIndexBufferData(|r.instances|)))
  }

  /** Preparing the first snapshot and then the rest is preparing the run. */
  lemma PrepareStep(s: GpuState, snapshots: seq<CubesValue>, r: GpuState)
    requires snapshots != [] && Fits(s, snapshots)
    requires PreparedFrom(PrepareOne(s, snapshots[0]), snapshots[1..], r)
    ensures PreparedFrom(s, snapshots, r)
  {
    var first, rest := snapshots[0], snapshots[1..];
    var t := PrepareOne(s, first);
    PackAllAppend(Taken(first), Pending(rest));
    AppendAssoc(s.instances, PackAll(Taken(first)), PackAll(Pending(rest)));
    assert t.instances == s.instances + PackAll(Taken(first));
  }

  lemma AppendAssoc<T>(a: seq<T>, b: seq<T>, c: seq<T>)
    ensures (a + b) + c == a + (b + c)
  {
  }

  /** The relation every reachable `GpuCubes` keeps between its fields: the
      index count covers every record, an index buffer, once created, holds
      exactly the generator's output for the current record count, and
      records exist only once an index buffer does. */
  predicate Coherent(s: GpuState)
  {
    s.indexCount == |s.instances| * 18 &&
    |s.instances| <= MaxCubes &&
    (s.indexBuffer.Some? ==> s.indexBuffer.value == GenerateIndexBufferData(|s.instances|)) &&
    (s.indexBuffer.None? ==> s.instances == [])
  }

  lemma InitialCoherent()
    ensures Coherent(InitialGpuState)
  {
  }

  /** `prepare_cubes` keeps the fields coherent. */
  lemma PrepareKeepsCoherent(s: GpuState, snapshots: seq<CubesValue>)
    requires Coherent(s) && Fits(s, snapshots)
    ensures Coherent(PrepareAll(s, snapshots))
  {
  }

  /** In a coherent state every index the draw call reads lies inside the
      records uploaded: index `k` pulls corner `ib[k] % 8` of record
      `ib[k] / 8`, and that record exists. */
  lemma IndicesAddressLoadedRecords(s: GpuState)
    requires Coherent(s) && s.indexBuffer.Some?
    ensures |s.indexBuffer.value| == s.indexCount
    ensures forall k :: 0 <= k < s.indexCount ==> s.indexBuffer.value[k] / 8 < |s.instances|
  {
    GenerateBounds(|s.instances|);
  }

  /** The `GpuCubes` resource, updated in place by `prepare_cubes`. */
  class GpuCubes {
    var instances: seq<GpuCube>
    var indexBuffer: Option<seq<u32>>
    var indexCount: u32

    function State(): GpuState
      reads this
    {
      GpuState(instances, indexBuffer, indexCount)
    }

    /** `GpuCubes::default()`: no records, no index buffer, count 0. */
    constructor Default()
      ensures State() == InitialGpuState
    {
      instances := [];
      indexBuffer := None;
      indexCount := 0;
    }

    /** The inner loop of `prepare_cubes`: `instances.push(GpuCube::from(cube))`
      for each cube, in order. */
    method PushPacked(cubes: seq<Cube>)
      modifies this
      ensures instances == old(instances) + PackAll(cubes)
      ensures indexBuffer == old(indexBuffer) && indexCount == old(indexCount)
    {
      var j := 0;
      while j < |cubes|
        invariant 0 <= j <= |cubes|
        invariant instances == old(instances) + PackAll(cubes[..j])
        invariant indexBuffer == old(indexBuffer) && indexCount == old(indexCount)
      {
        PackAllSnoc(cubes, j);
        instances := instances + [Pack(cubes[j])];
        j := j + 1;
      }
      assert cubes[..j] == cubes;
    }

    /** `prepare_cubes`: for each snapshot, skip it when its flag is set;
      otherwise push its packed cubes onto the instance buffer one by one,
      then set the index count and recreate the index buffer for the new
      record count. */
    method PrepareCubes(snapshots: seq<CubesValue>)
      requires Fits(State(), snapshots)
      modifies this
      ensures State() == PrepareAll(old(State()), snapshots)
    {
      var i := 0;
      while i < |snapshots|
        invariant 0 <= i <= |snapshots|
        invariant Fits(State(), snapshots[i..])
        invariant PrepareAll(State(), snapshots[i..]) == PrepareAll(old(State()), snapshots)
      {
        var cubes := snapshots[i];
        assert snapshots[i..][0] == cubes && snapshots[i..][1..] == snapshots[i + 1..];
        ghost var next := PrepareOne(State(), cubes);
        if !cubes.extracted {
          PushPacked(cubes.data);
          indexCount := (|instances| * 18) as u32;
          indexBuffer := Some(GenerateIndexBufferData(|instances|));
        }
        assert State() == next;
        i := i + 1;
      }
    }
  }
}
