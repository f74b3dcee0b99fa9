/** `Blocks.getConnected`: the other halves of a bed or a double chest. */
module Blocks {
  import opened Base

  /** A block location: the world (extent) and the block position. */
  datatype WorldLoc = WorldLoc(world: nat, pos: BlockPos)

  /** The block kinds the lookup distinguishes. */
  datatype BlockKind = BedBlock | ChestBlock | OtherBlock

  /** The tile entity at a block, as far as the lookup reads it: a bed's
      connected-directions value (absent when the bed carries none), or the
      locations of the chests a chest is connected to (the chest itself
      included, in the order the server iterates them). */
  datatype TileEntity = BedTile(connectedDirections: Option<seq<BlockPos>>) | ChestTile(connectedChests: seq<WorldLoc>) | OtherTile

  /** A block as seen by the lookup. */
  datatype Block = Block(loc: WorldLoc, kind: BlockKind, tile: Option<TileEntity>)

  /** The unchecked exceptions the lookup can raise. */
  datatype Failure = NoSuchElement | ClassCast

  /** The locations in `s` other than `loc`, in order. */
  function Without(s: seq<WorldLoc>, loc: WorldLoc): (r: seq<WorldLoc>)
    ensures forall l :: l in r <==> l in s && l != loc
    ensures |r| <= |s|
    ensures loc !in s ==> r == s
  {
    if |s| == 0 then [] else (if s[0] == loc then [] else [s[0]]) + Without(s[1..], loc)
  }

  /** Removal works piecewise, so the kept locations keep their order: the
      survivors of `a` come before the survivors of `b`. */
  lemma {:induction false} WithoutConcat(a: seq<WorldLoc>, b: seq<WorldLoc>, loc: WorldLoc)
    ensures Without(a + b, loc) == Without(a, loc) + Without(b, loc)
    decreases |a|
  {
    if |a| > 0 {
      var head := if a[0] == loc then [] else [a[0]];
      assert (a + b)[0] == a[0] && (a + b)[1..] == a[1..] + b;
      WithoutConcat(a[1..], b, loc);
      assert Without(a + b, loc) == head + Without(a[1..] + b, loc);
      assert Without(a, loc) == head + Without(a[1..], loc);
    }
    else {
      assert a + b == b;
    }
  }

  /** The positions one direction offset away from `at`, in direction order. */
  function Neighbours(at: WorldLoc, dirs: seq<BlockPos>): (r: seq<WorldLoc>)
    ensures |r| == |dirs|
    ensures forall k :: 0 <= k < |dirs| ==> r[k] == WorldLoc(at.world, Offset(at.pos, dirs[k]))
  {
    if |dirs| == 0 then [] else [WorldLoc(at.world, Offset(at.pos, dirs[0]))] + Neighbours(at, dirs[1..])
  }

  /** `getConnected`: a bed lists the blocks in its connected directions; a
      chest with a tile entity lists its connected chests other than itself;
      anything else lists nothing. A bed without a bed tile entity or
      without connected directions fails, as the unchecked `Optional.get`
      and cast do. */
  function GetConnected(b: Block): (r: Result<seq<WorldLoc>, Failure>)
    ensures b.kind == OtherBlock ==> r == Ok([])
    ensures b.kind == ChestBlock && b.tile.None? ==> r == Ok([])
    ensures b.kind == ChestBlock && b.tile.Some? && b.tile.value.ChestTile? ==>
              r.Ok? && forall l :: l in r.value <==> l in b.tile.value.connectedChests && l != b.loc
    ensures r.Ok? ==> b.loc !in r.value || b.kind == BedBlock
    ensures b.kind == BedBlock && b.tile.Some? && b.tile.value.BedTile? && b.tile.value.connectedDirections.Some? ==>
              r.Ok? && |r.value| == |b.tile.value.connectedDirections.value|
              && forall k :: 0 <= k < |r.value| ==>
                   r.value[k] == WorldLoc(b.loc.world, Offset(b.loc.pos, b.tile.value.connectedDirections.value[k]))
    ensures r.Err? <==>
              ((b.kind == BedBlock && !(b.tile.Some? && b.tile.value.BedTile? && b.tile.value.connectedDirections.Some?))
               || (b.kind == ChestBlock && b.tile.Some? && !b.tile.value.ChestTile?))
  {
    match b.kind
    case BedBlock =>
      if b.tile.None? then Err(NoSuchElement)
      else if !b.tile.value.BedTile? then Err(ClassCast)
      else if b.tile.value.connectedDirections.None? then Err(NoSuchElement)
      else Ok(Neighbours(b.loc, b.tile.value.connectedDirections.value))
    case ChestBlock =>
      if b.tile.None? then Ok([])
      else if !b.tile.value.ChestTile? then Err(ClassCast)
      else Ok(Without(b.tile.value.connectedChests, b.loc))
    case OtherBlock => Ok([])
  }

  /** A bed's result never contains the bed itself when no connected
      direction is the zero offset. */
  lemma BedExcludesItself(b: Block)
    requires b.kind == BedBlock && b.tile.Some? && b.tile.value.BedTile? && b.tile.value.connectedDirections.Some?
    requires BlockPos(0, 0, 0) !in b.tile.value.connectedDirections.value
    ensures GetConnected(b).Ok? && b.loc !in GetConnected(b).value
  {
  }
}
