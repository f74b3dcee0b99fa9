/** Shared wrappers and geometry used by every other module. */
module Base {

  /** The conventional replacement for a nullable reference. */
  datatype Option<+T> = None | Some(value: T)

  /** A value or the exception the Java code would have thrown. */
  datatype Result<+T, +E> = Ok(value: T) | Err(error: E)

  /** An integer block position. */
  datatype BlockPos = BlockPos(x: int, y: int, z: int)

  /** The direction an entity faces, kept abstract as two whole angles. */
  datatype Look = Look(yaw: int, pitch: int)

  /** A location: the block it lies in and the direction it faces. */
  datatype Location = Location(block: BlockPos, look: Look)

  /** The position `d` away from `p`. */
  function Offset(p: BlockPos, d: BlockPos): BlockPos
  {
    BlockPos(p.x + d.x, p.y + d.y, p.z + d.z)
  }

  /** Two locations lie in different blocks iff their block coordinates differ. */
  predicate IsDifferentBlock(a: Location, b: Location)
  {
    a.block != b.block
  }

  /** True iff no element occurs twice. */
  predicate NoDuplicates<T(==)>(s: seq<T>)
  {
    forall i, j :: 0 <= i < j < |s| ==> s[i] != s[j]
  }
}
