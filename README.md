# Vertex-pulled cubes: a verified model

This project models the data path of the `cubes` example of the
vertex-pulling renderer (`examples/cubes/main.rs`). That path has four parts:

- The app world keeps a `Cubes` component, which holds cube records and an
  `extracted` flag.
- Each frame, `extract_cubes` copies a not-yet-extracted component into the
  render world and then sets the flag. An already-extracted component gets an
  empty placeholder instead.
- `prepare_cubes` packs every extracted cube into a 48-byte `GpuCube` record.
  It then sets the index count and rebuilds the `u32` index buffer. For this,
  `generate_index_buffer_data` repeats an 18-index triangle template for
  every cube, shifting it by 8 vertices per cube.
- The cubes pass draws indices `0..index_count` from that buffer. The buffer
  gives every cube 8 vertex slots (`NUM_CUBE_VERTICES`, main.rs:344), and
  index `cube * 8 + corner` (main.rs:371) names corner `corner` of record
  `cube`.

Startup rounds the requested cube count up to a perfect square. The model
covers that rounding too.

Modules, one per concern:

- `Base`: `Option`, and the `u32`/`usize` integer ranges.
- `CubeData`: `Cube`, `GpuCube`, and the `From<&Cube>` packing with its
  inverse.
- `IndexPattern`: the index constants and table, `generate_index_buffer_data`,
  and a recursive reference definition of the same buffer.
- `Extraction`: the `Cubes` component as a class; `extract_cubes` and the flag
  reset of `dynamic_cubes` as methods over all components. The same steps are
  also written as functions on values, and over traces of frames.
- `Prepare`: the `GpuCubes` resource as a class. `prepare_cubes` is a method
  proved against a specification function on values. The module also defines
  a coherence invariant between records, index count and index buffer.
- `Draw`: the `DrawCubes` command tuple and `CubesPassNode::run`, abstracted
  to the indexed draw calls they record.
- `CubeCount`: parsing the first command-line argument as `usize`, with the
  default of 700, and rounding up to a square.
- `Frame`: one frame (extract, then prepare), plus multi-frame consequences and
  concrete scenarios.

Three behaviours of the code that are easy to misread:

- The code does not clear `instances` before repacking; the clear at
  main.rs:386 is commented out. So every full snapshot appends its records
  after those already loaded, and the index buffer covers all of them
  (`Frame.MutationAppends`, `Frame.TwoFramesDoubleTheRecords`).
- A full snapshot with zero cubes still sets the index buffer, to an empty
  one (`Some` of an empty buffer). The draw command then records a draw of
  0 indices (`Frame.EmptyScenario`).
- Each cube uses 18 indices: 3 visible faces × 2 triangles × 3, because
  `CUBE_BACKFACE_OPTIMIZATION` is `true`. Only the first 18 entries of the
  36-entry table are read.

## Model

| member | source | states |
|---|---|---|
| CubeData.Extend | examples/cubes/main.rs:309-310 | the extended vector keeps x, y, z and takes the given w |
| CubeData.AsRgbaF32 | examples/cubes/main.rs:311 | the colour array holds red, green, blue, alpha in that order; reading it back gives the colour |
| CubeData.Pack | examples/cubes/main.rs:306-314 | the record carries the centre with w = 1 and the half extents with w = 0; unpacking it gives back the cube |
| CubeData.PackUnpack | examples/cubes/main.rs:306-314 | every record with the w = 1 / w = 0 tags is the packing of the cube it unpacks to |
| CubeData.PackInjective | examples/cubes/main.rs:306-314 | distinct cubes pack to distinct records |
| CubeData.PackAll | examples/cubes/main.rs:388-390 | packing a list keeps its length |
| CubeData.PackAllAt | examples/cubes/main.rs:388-390 | element i of the packed list is the packing of cube i |
| CubeData.PackAllSnoc | examples/cubes/main.rs:388-389 | pushing one more packed cube extends the packed prefix by exactly that record |
| CubeData.PackAllAppend | examples/cubes/main.rs:388-390 | packing a concatenation is the concatenation of the packings |
| IndexPattern.CubeConstants | examples/cubes/main.rs:338-344 | with the back-face optimisation on, a cube uses 18 indices over 8 vertices |
| IndexPattern.MaxGeneratedCubesIsLargest | examples/cubes/main.rs:369-371 | 2^29 is the largest cube count whose largest index, (n - 1) × 8 + 7, fits in u32 |
| IndexPattern.MaxCubesIsLargest | examples/cubes/main.rs:391 | 238 609 294 is the largest record count whose index_count, records × 18, fits in u32, and it lies within the generator's range |
| IndexPattern.Template | examples/cubes/main.rs:348-355 | the 18 indices read per cube are the table's first 18 entries, each naming one of the 8 corners |
| IndexPattern.IndexAt | examples/cubes/main.rs:368-372 | index i lies among the 8 vertices of cube i / 18 |
| IndexPattern.GenerateIndexBufferData | examples/cubes/main.rs:346-374 | the buffer has num_cubes × 18 indices |
| IndexPattern.GenerateBounds | examples/cubes/main.rs:367-373 | every index i lies among the vertices of cube i / 18, and below 8 × num_cubes |
| IndexPattern.CubePattern | examples/cubes/main.rs:369-371 | the pattern of one cube has 18 indices, each in that cube's 8-vertex range |
| IndexPattern.Replicate | examples/cubes/main.rs:367-373 | reference definition: the cube patterns of cubes 0..n, concatenated in order |
| IndexPattern.ElementIsTemplateEntry | examples/cubes/main.rs:369-371 | index i is the template entry i mod 18 shifted by 8 × (i / 18) |
| IndexPattern.GenerateEmpty | examples/cubes/main.rs:365-373 | zero cubes give an empty buffer |
| IndexPattern.GenerateStep | examples/cubes/main.rs:367-373 | the buffer for n + 1 cubes is the buffer for n followed by cube n's pattern |
| IndexPattern.GenerateIsReplicate | examples/cubes/main.rs:346-374 | the generated buffer equals the reference definition for every cube count |
| IndexPattern.GeneratePrefix | examples/cubes/main.rs:367-373 | the buffer for m cubes is a prefix of the buffer for any n >= m |
| IndexPattern.TrianglesStayInOneCube | examples/cubes/main.rs:367-373 | the three indices of every triangle belong to the same cube |
| Extraction.ExtractStep | examples/cubes/main.rs:283-296 | an unextracted component is copied whole and then flagged; a flagged one yields an empty flagged placeholder; the source data is never changed |
| Extraction.Drift | examples/cubes/main.rs:104 | a cube's centre moves by (1, 0.01, 0.01); colour and half extents stay |
| Extraction.MutateStep | examples/cubes/main.rs:101-106 | the flag is cleared and every cube, and only those, is drifted in place |
| Extraction.Cubes.Default | examples/cubes/main.rs:95-99 | a default component is empty and not extracted |
| Extraction.Cubes.Push | examples/cubes/main.rs:218-241 | pushing appends one cube and leaves the flag |
| Extraction.Cubes.Extract | examples/cubes/main.rs:285-294 | the snapshot and the component's new state are those of the extract step |
| Extraction.Cubes.Mutate | examples/cubes/main.rs:101-106 | the new state is the mutate step of the old one |
| Extraction.ExtractCubes | examples/cubes/main.rs:283-296 | every component gets its own extract step, in query order |
| Extraction.DynamicCubes | examples/cubes/main.rs:100-107 | every component gets its own mutate step |
| Extraction.ExtractTwiceIsEmpty | examples/cubes/main.rs:285-293 | extracting twice without a mutation yields the empty flagged placeholder the second time |
| Extraction.ExtractAfterMutate | examples/cubes/main.rs:283-296 | after a mutation, the next extraction copies all (drifted) cubes |
| Extraction.Run | examples/cubes/main.rs:283-296 | a trace of frames yields one render-world snapshot per extraction |
| Extraction.FullSnapshotsBounded | examples/cubes/main.rs:283-296 | over any trace, the number of full snapshots is at most the number of mutations, plus one if the component started unextracted |
| Prepare.PrepareOne | examples/cubes/main.rs:382-399 | a flagged snapshot changes nothing; otherwise its cubes' records are appended, and the index count and buffer are rebuilt for all records |
| Prepare.PrepareAll | examples/cubes/main.rs:382-404 | records of all full snapshots are appended in order; if there are none, the state is unchanged; otherwise count and buffer match the final record count |
| Prepare.PrepareStep | examples/cubes/main.rs:382-399 | one snapshot followed by the rest prepares the same state as the whole list |
| Prepare.InitialCoherent | examples/cubes/main.rs:323-331 | the default resource is coherent |
| Prepare.PrepareKeepsCoherent | examples/cubes/main.rs:391-399 | preparing keeps index count = 18 × records and buffer = generated data |
| Prepare.IndicesAddressLoadedRecords | examples/cubes/main.rs:391-392 | in a coherent state, the buffer has index_count entries and every index addresses a loaded record |
| Prepare.GpuCubes.Default | examples/cubes/main.rs:323-331 | no records, no index buffer, index count 0 |
| Prepare.GpuCubes.PushPacked | examples/cubes/main.rs:388-390 | the records grow by the packings of the snapshot's cubes; nothing else changes |
| Prepare.GpuCubes.PrepareCubes | examples/cubes/main.rs:376-405 | the resource's new state is the specification's prepared state |
| Draw.DrawCubes | examples/cubes/main.rs:700-767 | an uncached pipeline skips the item; a missing index buffer panics; otherwise indices 0..index_count are drawn, base vertex 0, instance 0..1 |
| Draw.DrawReadsLoadedRecords | examples/cubes/main.rs:760-765 | from a coherent state, a draw stays in its buffer, reads only loaded records and draws 18 indices per record |
| Draw.RunCubesPass | examples/cubes/main.rs:503-549 | no view or no pipeline draws nothing; a missing buffer panics on the first item; otherwise each item records the DrawCubes call |
| CubeCount.ParseUsize | examples/cubes/main.rs:124 | a string parses exactly when, after one optional '+', it is a non-empty run of decimal digits whose value fits in usize, and the result is that value |
| CubeCount.LeadingZeroValue | examples/cubes/main.rs:124 | a leading zero does not change a numeral's value |
| CubeCount.LeadingZeroIgnored | examples/cubes/main.rs:124 | a digit string with a leading zero, with or without '+', parses as the string without it |
| CubeCount.OverflowGivesNone | examples/cubes/main.rs:124 | the decimal rendering of usize::MAX + 1 does not parse |
| CubeCount.Decimal | examples/cubes/main.rs:124 | the decimal rendering of a number is a non-empty digit string |
| CubeCount.DecimalValue | examples/cubes/main.rs:124 | the digits of a number's decimal rendering denote that number |
| CubeCount.ParseDecimal | examples/cubes/main.rs:124 | every usize parses back from its decimal rendering, with or without a leading '+' |
| CubeCount.CeilSqrtFrom | examples/cubes/main.rs:126 | searching upward from a start below the root finds the least d with d² >= n |
| CubeCount.CeilSqrt | examples/cubes/main.rs:126 | d² >= n and (d - 1)² < n |
| CubeCount.CeilSqrtMinimal | examples/cubes/main.rs:126 | no smaller d has d² >= n |
| CubeCount.CeilSqrtUnique | examples/cubes/main.rs:126 | the ceiling square root is the only value with both properties |
| CubeCount.CeilSqrtOfSquare | examples/cubes/main.rs:126-127 | the ceiling square root of d² is d |
| CubeCount.RoundUpToSquare | examples/cubes/main.rs:126-127 | the result is a square, at least n, and the least such square |
| CubeCount.RequestedCubeCount | examples/cubes/main.rs:122-125 | the first argument when it parses as usize, 700 otherwise |
| CubeCount.EffectiveCubeCount | examples/cubes/main.rs:122-127 | the cube count is the least square at or above the requested count |
| CubeCount.RoundUpIdempotent | examples/cubes/main.rs:126-127 | rounding an already rounded count changes nothing |
| CubeCount.SeventeenGivesTwentyFive | examples/cubes/main.rs:122-127 | argument "17" gives 25 cubes |
| CubeCount.InvalidArgumentGivesDefault | examples/cubes/main.rs:122-127 | no argument, "abc" or "-5" gives 700 rounded up to 729 |
| Frame.Snapshots | examples/cubes/main.rs:283-296 | the render world receives each component's extract snapshot; the pending cubes and whether any is full are those of the app world |
| Frame.RunFrame | examples/cubes/main.rs:568-570 | extract then prepare: snapshots, new component states and the new GPU state are the specifications' |
| Frame.FirstFrame | examples/cubes/main.rs:376-405 | the first frame of a fresh component loads exactly its records and their index buffer |
| Frame.UnchangedFrameIsNoOp | examples/cubes/main.rs:382-385 | a frame without a mutation leaves the GPU state unchanged |
| Frame.MutationAppends | examples/cubes/main.rs:386-390 | after a mutation, the drifted records are appended after the ones already loaded |
| Frame.TwoFramesDoubleTheRecords | examples/cubes/main.rs:386-390 | extract, mutate, extract loads twice the records, with the index count to match |
| Frame.OneCubeScenario | examples/cubes/main.rs:376-405 | one white unit cube at the origin gives one record, 18 indices below 8, and a draw of 0..18 |
| Frame.EmptyScenario | examples/cubes/main.rs:391-399 | a full snapshot with no cubes gives an empty buffer, and the draw command records a draw of 0 indices |

## Left out

- GPU work is not modelled. This covers `BufferVec::write_buffer`, `create_buffer_with_data`, the bind groups (`queue_cubes`), pipeline and layout construction, shaders and render-graph registration. Buffers are modelled by their contents.
- Scene generation in `setup`, the random cubes and the camera controller are not part of this model.
- The index buffer's byte encoding (`cast_slice`) is not modelled.
- `SetShadowViewBindGroup` and `SetGpuCubesBindGroup` are not modelled: they only bind resources. Their own `unwrap` panics are not modelled either.
- Draw.RunCubesPass: the view query is reduced to one boolean, and the phase items to a list of entities. The early error return of `graph.get_input_entity(IN_VIEW)?` (main.rs:509) is not modelled. The model assumes a command tuple stops at its first `Failure`, so `DrawVertexPulledCubes` does not run when the pipeline is not cached.
- `queue_cubes` unwraps `gpu_cubes.instances.buffer()` (main.rs:457) between prepare and draw. The model does not track that GPU buffer handle, so it does not capture a panic there when no records were ever written.
- IndexPattern.GenerateIndexBufferData: requires at most 2^29 cubes. Above that, the source's u32 index arithmetic (main.rs:371) wraps around or panics, and the model does not cover that range.
- Prepare.GpuCubes.PrepareCubes: requires that all records fit within 238 609 294. It does not model the u32 overflow of `index_count` beyond that.
- Prepare.PrepareAll: carries the same bound as PrepareCubes.
- Extraction.Drift: the f32 rounding of the centre update is not modelled. Coordinates are exact reals.
- CubeData.AsRgbaF32: only the sRGB `Rgba` variant is modelled; `RgbaLinear` and `Hsla` conversions are not.
- CubeCount.CeilSqrt: computes the exact integer ceiling square root. The source uses `f32` `sqrt().ceil()`, which can differ for large counts.
- CubeCount.RoundUpToSquare: the `dim * dim` usize overflow is not modelled, because an exact result is used.
- CubeCount.RequestedCubeCount: arguments are taken as strings. The panic of `std::env::args` on an argument that is not valid Unicode is not modelled.
- `dynamic_cubes` is modelled even though it is not registered as a system (main.rs:58 is commented out).
