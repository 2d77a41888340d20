/** The index-buffer generator `generate_index_buffer_data` of
    examples/cubes/main.rs: every cube owns 8 vertex slots, and its visible
    triangles are a fixed index template offset by `cube * 8`. */
module IndexPattern {
  import opened Base

  /** `CUBE_BACKFACE_OPTIMIZATION`: draw only the three faces a cube can show. */
  const CubeBackfaceOptimization: bool := true

  /** `NUM_CUBE_INDICES`: 3 faces x 2 triangles x 3 indices with the
      optimisation, 6 faces otherwise. */
  const NumCubeIndices: nat := if CubeBackfaceOptimization then 3 * 3 * 2 else 3 * 6 * 2

  /** `NUM_CUBE_VERTICES`: the logical corners of one cube. */
  const NumCubeVertices: nat := 8

  /** The two constants as the rest of this model writes them: literally,
      18 indices and 8 corners per cube, which keeps the solver's arithmetic
      linear. */
  lemma CubeConstants()
    ensures NumCubeIndices == 18 && NumCubeVertices == 8
  {
  }

  /** The literal `cube_indices` table: twelve triangles over corners 0..7. */
  const CubeIndices: seq<u32> := [
    1, 5, 7, 3, 1, 7,
    3, 7, 6, 3, 6, 2,
    5, 4, 6, 7, 5, 6,
    2, 6, 0, 6, 4, 0,
    0, 4, 1, 1, 4, 5,
    1, 3, 2, 1, 2, 0
  ]

  /** The largest cube count whose largest index, `(n - 1) * 8 + 7`, still
      fits in a `u32`: the generator's own range, 2^29 cubes. */
  const MaxGeneratedCubes: nat := 0x2000_0000

  lemma MaxGeneratedCubesIsLargest()
    ensures (MaxGeneratedCubes - 1) * 8 + 7 < U32_LIMIT
    ensures MaxGeneratedCubes * 8 + 7 >= U32_LIMIT
  {
  }

  /** The largest cube count whose `index_count` (`len * NUM_CUBE_INDICES`,
      computed in `prepare_cubes`) still fits in a `u32`. It is smaller than
      the generator's own range, so every count `prepare_cubes` can reach
      without overflow is one the generator handles. */
  const MaxCubes: nat := 238_609_294

  lemma MaxCubesIsLargest()
    ensures MaxCubes * 18 < U32_LIMIT <= (MaxCubes + 1) * 18
    ensures MaxCubes <= MaxGeneratedCubes
  {
  }

  /** The part of the table the generator reads: its first `NUM_CUBE_INDICES`
      entries. */
  function Template(): (t: seq<u32>)
    ensures |t| == 18
    ensures forall k :: 0 <= k < |t| ==> t[k] < 8
  {
    assert CubeIndices[..18] == [1, 5, 7, 3, 1, 7, 3, 7, 6, 3, 6, 2, 5, 4, 6, 7, 5, 6];
    CubeIndices[..18]
  }

  /** Index `i` of the buffer: corner `template[i % 18]` of cube `i / 18`
      (the closure inside `generate_index_buffer_data`). */
  function IndexAt(i: nat): (v: nat)
    ensures 8 * (i / 18) <= v < 8 * (i / 18) + 8
  {
    (i / 18) * 8 + Template()[i % 18]
  }

  /** An index below `n * 18` belongs to one of the first `n` cubes. */
  lemma CubeOfIndexBelow(n: nat, i: nat)
    requires i < n * 18
    ensures i / 18 < n
  {
  }

  /** `generate_index_buffer_data(num_cubes)`: index `i` belongs to cube
      `i / 18` and names that cube's corner `template[i % 18]`. */
  function GenerateIndexBufferData(numCubes: nat): (r: seq<u32>)
    requires numCubes <= MaxGeneratedCubes
    ensures |r| == numCubes * 18
  {
    seq(numCubes * 18, (i: int) requires 0 <= i < numCubes * 18 =>
      CubeOfIndexBelow(numCubes, i); IndexAt(i) as u32)
  }

  /** Every index of cube `c`'s stretch names one of that cube's own eight
      corners, so every index is below `8 * numCubes`: the buffer never
      reaches past the records of the cubes it was generated for. */
  lemma {:induction false} GenerateBounds(numCubes: nat)
    requires numCubes <= MaxGeneratedCubes
    ensures var r := GenerateIndexBufferData(numCubes);
      forall i :: 0 <= i < |r| ==> 8 * (i / 18) <= r[i] < 8 * (i / 18) + 8 && r[i] < 8 * numCubes
  {
    var r := GenerateIndexBufferData(numCubes);
    forall i | 0 <= i < |r|
      ensures 8 * (i / 18) <= r[i] < 8 * (i / 18) + 8 && r[i] < 8 * numCubes
    {
      assert r[i] == IndexAt(i);
      CubeOfIndexBelow(numCubes, i);
    }
  }

  /** The index pattern of one cube: the template shifted to the cube's
      vertex base `8 * cube`. */
  function CubePattern(cube: nat): (p: seq<int>)
    ensures |p| == 18
    ensures forall k :: 0 <= k < |p| ==>
      8 * cube <= p[k] < 8 * cube + 8
  {
    var t := Template();
    seq(18, (k: int) requires 0 <= k < 18 => 8 * cube + t[k])
  }

  /** An independent reference: the patterns of cubes 0, 1, ..., n-1 laid
      end to end. */
  function Replicate(n: nat): (r: seq<int>)
    ensures |r| == n * 18
  {
    if n == 0 then [] else Replicate(n - 1) + CubePattern(n - 1)
  }

  /** Element `i` of the buffer is corner `template[i % 18]` of cube `i / 18`. */
  lemma ElementIsTemplateEntry(n: nat, i: nat)
    requires n <= MaxGeneratedCubes && i < n * 18
    ensures GenerateIndexBufferData(n)[i] == 8 * (i / 18) + Template()[i % 18]
  {
  }

  /** No cubes, no indices. */
  lemma GenerateEmpty()
    ensures GenerateIndexBufferData(0) == []
  {
  }

  /** Adding a cube appends its pattern and leaves every earlier index where
      it was. */
  lemma {:induction false} GenerateStep(n: nat)
    requires n + 1 <= MaxGeneratedCubes
    ensures GenerateIndexBufferData(n + 1) == GenerateIndexBufferData(n) + CubePattern(n)
  {
    var a, b, p := GenerateIndexBufferData(n + 1), GenerateIndexBufferData(n), CubePattern(n);
    forall i | 0 <= i < |a|
      ensures a[i] == (b + p)[i]
    {
      if i < |b| {
        ElementIsTemplateEntry(n + 1, i);
        ElementIsTemplateEntry(n, i);
      } else {
        var k := i - n * 18;
        assert i == n * 18 + k;
        assert i / 18 == n && i % 18 == k;
        ElementIsTemplateEntry(n + 1, i);
      }
    }
  }

  /** The generator agrees with the reference on every cube count. */
  lemma {:induction false} GenerateIsReplicate(n: nat)
    requires n <= MaxGeneratedCubes
    ensures GenerateIndexBufferData(n) == Replicate(n)
  {
    if n > 0 {
      GenerateIsReplicate(n - 1);
      GenerateStep(n - 1);
    }
  }

  /** A smaller count's buffer is a prefix of a larger count's: growing the
      instance count never reshuffles indices already produced. */
  lemma {:induction false} GeneratePrefix(m: nat, n: nat)
    requires m <= n <= MaxGeneratedCubes
    ensures GenerateIndexBufferData(m) <= GenerateIndexBufferData(n)
  {
    if m < n {
      GeneratePrefix(m, n - 1);
      GenerateStep(n - 1);
    }
  }

  /** Each triangle (three consecutive indices) stays inside one cube's
      eight corners: triangle `t` belongs to cube `t / 6`. */
  lemma TrianglesStayInOneCube(n: nat, t: nat)
    requires n <= MaxGeneratedCubes && t < n * (18 / 3)
    ensures var r := GenerateIndexBufferData(n);
      forall j :: 3 * t <= j < 3 * t + 3 ==>
        8 * (t / 6) <= r[j] < 8 * (t / 6) + 8
  {
    var r := GenerateIndexBufferData(n);
    forall j | 3 * t <= j < 3 * t + 3
      ensures 8 * (t / 6) <= r[j] < 8 * (t / 6) + 8
    {
      assert j / 18 == t / 6;
    }
  }
}
