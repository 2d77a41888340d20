/** Shared vocabulary: Rust's `Option` and the fixed-width integers the
    cubes example stores in its index buffer. */
module Base {

  /** Rust's `Option<T>`. */
  datatype Option<+T> = None | Some(value: T)

  const U32_LIMIT: int := 0x1_0000_0000

  /** A Rust `u32`: the element type of the index buffer and of `index_count`. */
  type u32 = x: int | 0 <= x < U32_LIMIT

  const USIZE_LIMIT: int := 0x1_0000_0000_0000_0000

  /** A Rust `usize` on a 64-bit target: what the cube-count argument parses to. */
  type usize = x: int | 0 <= x < USIZE_LIMIT
}
