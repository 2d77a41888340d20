/** The per-cube instance record and its GPU packing (`Cube`, `GpuCube` and
    `impl From<&Cube> for GpuCube` in examples/cubes/main.rs).
    Floating-point components are modelled as `real`: packing only moves
    values around and never computes with them. */
module CubeData {

  /** glam's `Vec3`. */
  datatype Vec3 = Vec3(x: real, y: real, z: real)

  /** glam's `Vec4`. */
  datatype Vec4 = Vec4(x: real, y: real, z: real, w: real)

  /** bevy's `Color` in its sRGB `Rgba` form, the only form the example builds
      (`Color::rgb`, `Color::WHITE`, `Color::GOLD`). */
  datatype Color = Rgba(red: real, green: real, blue: real, alpha: real)

  /** The `[f32; 4]` colour array of a packed record. */
  type ColorArray = s: seq<real> | |s| == 4 witness [0.0, 0.0, 0.0, 0.0]

  /** A logical cube as the simulation world holds it. */
  datatype Cube = Cube(color: Color, center: Vec3, halfExtents: Vec3)

  /** The 48-byte record the vertex shader pulls from the storage buffer. */
  datatype GpuCube = GpuCube(center: Vec4, halfExtents: Vec4, color: ColorArray)

  /** `Vec3::extend`: append a fourth component. */
  function Extend(v: Vec3, w: real): (r: Vec4)
    ensures r.w == w && Truncate(r) == v
  {
    Vec4(v.x, v.y, v.z, w)
  }

  /** `Vec4::truncate`: drop the fourth component. */
  function Truncate(v: Vec4): Vec3
  {
    Vec3(v.x, v.y, v.z)
  }

  /** `Color::as_rgba_f32` on an `Rgba` colour: its four channels in order. */
  function AsRgbaF32(c: Color): (r: ColorArray)
    ensures FromRgbaF32(r) == c
  {
    [c.red, c.green, c.blue, c.alpha]
  }

  /** `Color::rgba`: rebuild a colour from its four channels. */
  function FromRgbaF32(a: ColorArray): Color
  {
    Rgba(a[0], a[1], a[2], a[3])
  }

  /** A packed record carries the shader's tags: w = 1 on the centre (a
      position) and w = 0 on the half-extents (a direction). */
  predicate IsTagged(g: GpuCube)
  {
    g.center.w == 1.0 && g.halfExtents.w == 0.0
  }

  /** `GpuCube::from(&Cube)`. The result is tagged and carries the cube's
      xyz components and colour unchanged, so unpacking gives the cube back. */
  function Pack(c: Cube): (g: GpuCube)
    ensures IsTagged(g)
    ensures Unpack(g) == c
  {
    GpuCube(Extend(c.center, 1.0), Extend(c.halfExtents, 0.0), AsRgbaF32(c.color))
  }

  /** The view of a packed record that the shader reconstructs: the xyz
      parts and the colour. */
  function Unpack(g: GpuCube): Cube
  {
    Cube(FromRgbaF32(g.color), Truncate(g.center), Truncate(g.halfExtents))
  }

  /** Packing loses nothing of a tagged record: every tagged record is the
      packing of exactly one cube. */
  lemma PackUnpack(g: GpuCube)
    requires IsTagged(g)
    ensures Pack(Unpack(g)) == g
  {
    assert g.color == [g.color[0], g.color[1], g.color[2], g.color[3]];
  }

  /** Distinct cubes pack to distinct records. */
  lemma PackInjective(c: Cube, d: Cube)
    requires Pack(c) == Pack(d)
    ensures c == d
  {
    assert Unpack(Pack(c)) == Unpack(Pack(d));
  }

  /** `cubes.data.iter().map(GpuCube::from)`: pack each cube, in source order. */
  function PackAll(cubes: seq<Cube>): (gs: seq<GpuCube>)
    ensures |gs| == |cubes|
  {
    if cubes == [] then [] else PackAll(cubes[..|cubes| - 1]) + [Pack(cubes[|cubes| - 1])]
  }

  /** Record `i` is the packing of cube `i`: order is preserved and nothing
      is dropped, reordered or merged. */
  lemma {:induction false} PackAllAt(cubes: seq<Cube>, i: nat)
    requires i < |cubes|
    ensures PackAll(cubes)[i] == Pack(cubes[i])
  {
    if i < |cubes| - 1 {
      PackAllAt(cubes[..|cubes| - 1], i);
    }
  }

  /** Packing one more cube of a run appends its packed record. */
  lemma PackAllSnoc(cubes: seq<Cube>, j: nat)
    requires j < |cubes|
    ensures PackAll(cubes[..j + 1]) == PackAll(cubes[..j]) + [Pack(cubes[j])]
  {
    assert cubes[..j + 1][..j] == cubes[..j];
  }

  /** Packing a concatenation packs each part in place. */
  lemma {:induction false} PackAllAppend(a: seq<Cube>, b: seq<Cube>)
    ensures PackAll(a + b) == PackAll(a) + PackAll(b)
  {
    if b == [] {
      assert a + b == a;
    } else {
      var init := b[..|b| - 1];
      assert (a + b)[..|a + b| - 1] == a + init;
      assert (a + b)[|a + b| - 1] == b[|b| - 1];
      PackAllAppend(a, init);
    }
  }
}
