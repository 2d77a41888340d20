/** One rendered frame of the cubes example: the extract stage
    (`extract_cubes`) followed by the prepare stage (`prepare_cubes`), as
    `CubesPlugin::build` schedules them, and what a sequence of frames does
    to the instance buffer. */
module Frame {
  import opened Base
  import opened CubeData
  import opened IndexPattern
  import opened Extraction
  import opened Prepare
  import opened Draw

  /** The values of the simulation world's `Cubes` components. */
  function Values(world: seq<Cubes>): (vs: seq<CubesValue>)
    reads set c | c in world
    ensures |vs| == |world|
    ensures forall i :: 0 <= i < |world| ==> vs[i] == world[i].Value()
  {
    if world == [] then [] else [world[0].Value()] + Values(world[1..])
  }

  /** The snapshots `extract_cubes` publishes for a world of values. They
      carry exactly the cubes of the collections that were dirty, so the
      prepare stage takes from them the same cubes it would take from the
      world itself. */
  function Snapshots(vs: seq<CubesValue>): (ss: seq<CubesValue>)
    ensures |ss| == |vs|
    ensures forall i :: 0 <= i < |vs| ==> ss[i] == ExtractStep(vs[i]).snapshot
    ensures Pending(ss) == Pending(vs)
    ensures AnyUnextracted(ss) == AnyUnextracted(vs)
  {
    if vs == [] then []
    else
      var ss := [ExtractStep(vs[0]).snapshot] + Snapshots(vs[1..]);
      assert ss[1..] == Snapshots(vs[1..]);
      ss
  }

  /** The extract stage, then the prepare stage, of one frame. */
  method RunFrame(world: seq<Cubes>, gpu: GpuCubes) returns (render: seq<CubesValue>)
    requires Distinct(world)
    requires Fits(gpu.State(), Values(world))
    modifies set c | c in world
    modifies gpu
    ensures render == Snapshots(old(Values(world)))
    ensures forall i :: 0 <= i < |world| ==> world[i].Value() == ExtractStep(old(world[i].Value())).source
    ensures gpu.State() == PrepareAll(old(gpu.State()), render)
  {
    ghost var before := Values(world);
    render := ExtractCubes(world);
    assert render == Snapshots(before);
    gpu.PrepareCubes(render);
  }

  /** The first frame after `setup`: a dirty collection is extracted whole,
      its cubes become exactly the instance records, and the index buffer
      covers them. */
  lemma FirstFrame(v: CubesValue)
    requires !v.extracted && |v.data| <= MaxCubes
    ensures var o := ExtractStep(v);
      o.source.extracted &&
      Fits(InitialGpuState, [o.snapshot]) &&
      var g := PrepareAll(InitialGpuState, [o.snapshot]);
      g.instances == PackAll(v.data) &&
      g.indexCount == 18 * |v.data| &&
      g.indexBuffer == Some(GenerateIndexBufferData(|v.data|))
  {
    var o := ExtractStep(v);
    assert Pending([o.snapshot]) == v.data by {
      assert [o.snapshot][1..] == [];
    }
    assert AnyUnextracted([o.snapshot]);
  }

  /** A frame with no mutation since the last one uploads nothing: whatever
      the instance buffer held, it holds unchanged. */
  lemma UnchangedFrameIsNoOp(v: CubesValue, g: GpuState)
    requires |g.instances| <= MaxCubes
    ensures var second := ExtractStep(ExtractStep(v).source).snapshot;
      Fits(g, [second]) && PrepareAll(g, [second]) == g
  {
    var second := ExtractStep(ExtractStep(v).source).snapshot;
    assert [second][1..] == [];
    assert Pending([second]) == [];
    assert !AnyUnextracted([second]);
  }

  /** Because the instance buffer is never cleared, a frame after a mutation
      appends the mutated cubes after the records already there: the
      earlier records stay and are drawn too. */
  lemma MutationAppends(v: CubesValue, g: GpuState)
    requires |g.instances| + |v.data| <= MaxCubes
    ensures var w := MutateStep(v);
      var snapshot := ExtractStep(w).snapshot;
      Fits(g, [snapshot]) &&
      PrepareAll(g, [snapshot]).instances == g.instances + PackAll(w.data) &&
      |PrepareAll(g, [snapshot]).instances| == |g.instances| + |v.data|
  {
    var snapshot := ExtractStep(MutateStep(v)).snapshot;
    assert [snapshot][1..] == [];
    assert Pending([snapshot]) == MutateStep(v).data;
  }

  /** Setup, a frame, one mutation and another frame: the buffer then holds
      every cube twice over, old positions first. */
  lemma TwoFramesDoubleTheRecords(v: CubesValue)
    requires !v.extracted && 2 * |v.data| <= MaxCubes
    ensures var o1 := ExtractStep(v);
      Fits(InitialGpuState, [o1.snapshot]) &&
      var g1 := PrepareAll(InitialGpuState, [o1.snapshot]);
      var w := MutateStep(o1.source);
      var o2 := ExtractStep(w);
      Fits(g1, [o2.snapshot]) &&
      PrepareAll(g1, [o2.snapshot]).instances == PackAll(v.data) + PackAll(w.data) &&
      |PrepareAll(g1, [o2.snapshot]).instances| == 2 * |v.data|
  {
    FirstFrame(v);
    var o1 := ExtractStep(v);
    var g1 := PrepareAll(InitialGpuState, [o1.snapshot]);
    MutationAppends(o1.source, g1);
  }

  /** One white unit cube at the origin: one packed record, 18 indices, all
      naming corners of that one cube, and a draw of indices 0..18. */
  lemma OneCubeScenario()
    ensures var c := Cube(Rgba(1.0, 1.0, 1.0, 1.0), Vec3(0.0, 0.0, 0.0), Vec3(1.0, 1.0, 1.0));
      var snapshot := ExtractStep(CubesValue([c], false)).snapshot;
      Fits(InitialGpuState, [snapshot]) &&
      var g := PrepareAll(InitialGpuState, [snapshot]);
      g.instances == [GpuCube(Vec4(0.0, 0.0, 0.0, 1.0), Vec4(1.0, 1.0, 1.0, 0.0), [1.0, 1.0, 1.0, 1.0])] &&
      g.indexBuffer.Some? && |g.indexBuffer.value| == 18 &&
      (forall k :: 0 <= k < 18 ==> g.indexBuffer.value[k] < 8) &&
      DrawCubes(true, g) == Drawn(DrawIndexed(g.indexBuffer.value, 0, 18, 0, 0, 1))
  {
    var c := Cube(Rgba(1.0, 1.0, 1.0, 1.0), Vec3(0.0, 0.0, 0.0), Vec3(1.0, 1.0, 1.0));
    FirstFrame(CubesValue([c], false));
    assert [c][..0] == [];
    var snapshot := ExtractStep(CubesValue([c], false)).snapshot;
    var g := PrepareAll(InitialGpuState, [snapshot]);
    GenerateBounds(1);
  }

  /** An empty collection: no records, a zero index count, and (as the code
      is written) an index buffer created empty, so the draw command records
      a draw of zero indices. */
  lemma EmptyScenario()
    ensures var snapshot := ExtractStep(CubesValue([], false)).snapshot;
      Fits(InitialGpuState, [snapshot]) &&
      var g := PrepareAll(InitialGpuState, [snapshot]);
      g.instances == [] && g.indexCount == 0 && g.indexBuffer == Some([]) &&
      DrawCubes(true, g) == Drawn(DrawIndexed([], 0, 0, 0, 0, 1))
  {
    FirstFrame(CubesValue([], false));
  }
}
