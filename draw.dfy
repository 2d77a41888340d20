/** The draw side of the cubes pass (`CubesPassNode::run`, `SetCubesPipeline`
    and `DrawVertexPulledCubes` in examples/cubes/main.rs), over the state
    `prepare_cubes` leaves. The render pass itself is abstracted to the list
    of indexed draw calls it records. */
module Draw {
  import opened Base
  import opened IndexPattern
  import opened Prepare

  /** `pass.set_index_buffer(buffer, 0, Uint32)` followed by
      `pass.draw_indexed(firstIndex..endIndex, baseVertex, firstInstance..endInstance)`. */
  datatype DrawIndexed = DrawIndexed(
    indexBuffer: seq<u32>, firstIndex: nat, endIndex: nat,
    baseVertex: int, firstInstance: nat, endInstance: nat)

  /** What the `DrawCubes` command tuple does for one phase item. */
  datatype DrawOutcome =
    | Drawn(call: DrawIndexed)
    | Skipped     // a command returned `RenderCommandResult::Failure`
    | Panicked    // an `unwrap` on `None`

  /** One phase item: the render-world entity holding the cube snapshot. */
  type Entity = nat

  /** `DrawCubes` for one item: `SetCubesPipeline` fails while the pipeline
      is not cached, which ends the item without drawing; otherwise
      `DrawVertexPulledCubes` unwraps the index buffer and draws indices
      `0..index_count` with base vertex 0 over the single instance `0..1`. */
  function DrawCubes(pipelineCached: bool, gpu: GpuState): (o: DrawOutcome)
    ensures o.Skipped? <==> !pipelineCached
    ensures o.Panicked? <==> pipelineCached && gpu.indexBuffer.None?
    ensures o.Drawn? ==>
      o.call.indexBuffer == gpu.indexBuffer.value &&
      o.call.firstIndex == 0 && o.call.endIndex == gpu.indexCount &&
      o.call.baseVertex == 0 && o.call.firstInstance == 0 && o.call.endInstance == 1
  {
    if !pipelineCached then Skipped
    else if gpu.indexBuffer.None? then Panicked
    else Drawn(DrawIndexed(gpu.indexBuffer.value, 0, gpu.indexCount, 0, 0, 1))
  }

  /** A draw call that stays inside its index buffer and whose every index
      pulls a record that exists: record `index / 8` of `records`. */
  predicate ReadsOnlyLoaded(call: DrawIndexed, records: nat)
  {
    call.firstIndex <= call.endIndex <= |call.indexBuffer| &&
    forall k :: call.firstIndex <= k < call.endIndex ==> call.indexBuffer[k] / 8 < records
  }

  /** Whatever coherent state `prepare_cubes` left, the draw call it leads to
      reads only loaded records, and draws exactly one pattern per record. */
  lemma DrawReadsLoadedRecords(pipelineCached: bool, gpu: GpuState)
    requires Coherent(gpu)
    ensures DrawCubes(pipelineCached, gpu).Drawn? ==>
      ReadsOnlyLoaded(DrawCubes(pipelineCached, gpu).call, |gpu.instances|) &&
      DrawCubes(pipelineCached, gpu).call.endIndex == 18 * |gpu.instances|
  {
    if DrawCubes(pipelineCached, gpu).Drawn? {
      IndicesAddressLoadedRecords(gpu);
    }
  }

  /** The outcome of the cubes pass over one view. */
  datatype PassResult = Ok(draws: seq<DrawIndexed>) | Panic

  /** `CubesPassNode::run`: a view without its phase, colour target or depth
      target returns `Ok(())` with nothing drawn; otherwise each phase item's
      `DrawCubes` runs in queued order, recording its draw call. A panic
      ends the pass. */
  method RunCubesPass(viewReady: bool, items: seq<Entity>, pipelineCached: bool, gpu: GpuState)
    returns (r: PassResult)
    ensures !viewReady || !pipelineCached ==> r == Ok([])
    ensures viewReady && pipelineCached && gpu.indexBuffer.None? ==> r == (if items == [] then Ok([]) else Panic)
    ensures viewReady && pipelineCached && gpu.indexBuffer.Some? ==>
      r.Ok? && |r.draws| == |items| &&
      forall k :: 0 <= k < |items| ==> Drawn(r.draws[k]) == DrawCubes(pipelineCached, gpu)
  {
    if !viewReady {
      return Ok([]);
    }
    var draws: seq<DrawIndexed> := [];
    var i := 0;
    while i < |items|
      invariant 0 <= i <= |items|
      invariant !pipelineCached ==> draws == []
      invariant pipelineCached && gpu.indexBuffer.Some? ==> |draws| == i
      invariant forall k :: 0 <= k < |draws| ==> Drawn(draws[k]) == DrawCubes(pipelineCached, gpu)
      invariant pipelineCached && gpu.indexBuffer.None? ==> i == 0 && draws == []
    {
      var outcome := DrawCubes(pipelineCached, gpu);
      if outcome.Panicked? {
        return Panic;
      }
      if outcome.Drawn? {
        draws := draws + [outcome.call];
      }
      i := i + 1;
    }
    r := Ok(draws);
  }
}
