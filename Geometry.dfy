/**
 * The vector and world types the ray walk consumes: continuous points, integer block
 * positions, extents, block types and locations. Doubles are modelled as exact reals.
 */
module Geometry {

  datatype Axis = X | Y | Z

  /** A continuous point or direction (flow-math's Vector3d). */
  datatype Vec3 = Vec3(x: real, y: real, z: real) {

    function Get(a: Axis): real {
      match a
      case X => x
      case Y => y
      case Z => z
    }

    function Sub(o: Vec3): Vec3 {
      Vec3(x - o.x, y - o.y, z - o.z)
    }
  }

  /** An integer triple: a block position (Vector3i) or a face normal's sign triple. */
  datatype Int3 = Int3(x: int, y: int, z: int) {

    function Get(a: Axis): int {
      match a
      case X => x
      case Y => y
      case Z => z
    }

    function Add(o: Int3): Int3 {
      Int3(x + o.x, y + o.y, z + o.z)
    }
  }

  const Origin := Vec3(0.0, 0.0, 0.0)

  /** Vector3d.ZERO used as "no face entered yet". */
  const NoFace := Int3(0, 0, 0)

  function LengthSquared(v: Vec3): real {
    v.x * v.x + v.y * v.y + v.z * v.z
  }

  function DistanceSquared(a: Vec3, b: Vec3): real {
    LengthSquared(a.Sub(b))
  }

  /** Only a vector of non-zero squared length can be a direction. */
  lemma NonZeroLength(v: Vec3)
    requires LengthSquared(v) != 0.0
    ensures v != Origin
  {
  }

  /** The integer block that contains a point, each coordinate rounded down. */
  function FloorVec(v: Vec3): (b: Int3)
    ensures forall a :: b.Get(a) as real <= v.Get(a) < b.Get(a) as real + 1.0
  {
    Int3(v.x.Floor, v.y.Floor, v.z.Floor)
  }

  /** A world (or chunk) the ray walks through, known only by its identity. */
  datatype Extent = Extent(id: nat)

  datatype BlockType = BlockType(id: nat)

  const Air := BlockType(0)

  /** What occupies each block of each extent; supplied by the host, never by the ray. */
  type Blocks = (Extent, Int3) -> BlockType

  /** A point in an extent (Sponge's Location). */
  datatype Location = Location(extent: Extent, position: Vec3) {

    function BlockPosition(): Int3 {
      FloorVec(position)
    }
  }
}
