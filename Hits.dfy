/**
 * BlockRayHit: one boundary crossing of a ray, with the block it designates.
 * The face entered is kept as a sign triple (each component -1, 0 or +1 up to a
 * positive factor): the block derivation reads only the signs of the normal.
 */
module Hits {
  import opened Geometry

  /**
   * The block coordinate on one axis: the floor of the coordinate, one lower when the
   * face normal points down that axis.
   */
  function BlockCoord(c: real, normal: int): (b: int)
    ensures normal >= 0 ==> b as real <= c < b as real + 1.0
    ensures normal < 0 ==> b as real + 1.0 <= c < b as real + 2.0
  {
    c.Floor - (if normal < 0 then 1 else 0)
  }

  /** The block whose cell holds a point, given the face the point was entered through. */
  ghost predicate Designates(block: Int3, point: Vec3, face: Int3) {
    forall a: Axis ::
      if face.Get(a) < 0 then block.Get(a) as real + 1.0 <= point.Get(a) < block.Get(a) as real + 2.0
      else block.Get(a) as real <= point.Get(a) < block.Get(a) as real + 1.0
  }

  /**
   * A hit: the extent, the exact intersection coordinates and the face normal. The
   * accessors getExtent, getX, getY, getZ and getFace are the datatype's fields.
   */
  datatype BlockRayHit = BlockRayHit(extent: Extent, x: real, y: real, z: real, face: Int3) {

    /** getPosition: the intersection point, whose coordinates are getX, getY and getZ. */
    function Position(): (p: Vec3)
      ensures p.Get(X) == x && p.Get(Y) == y && p.Get(Z) == z
    {
      Vec3(x, y, z)
    }

    function BlockX(): int {
      BlockCoord(x, face.x)
    }

    function BlockY(): int {
      BlockCoord(y, face.y)
    }

    function BlockZ(): int {
      BlockCoord(z, face.z)
    }

    /** The block that was hit; the only block the hit's point and face designate. */
    function BlockPosition(): (b: Int3)
      ensures b == Int3(BlockX(), BlockY(), BlockZ())
      ensures Designates(b, Position(), face)
    {
      Int3(BlockX(), BlockY(), BlockZ())
    }
  }

  /** Designates pins the block down: two blocks designated by one point and face are equal. */
  lemma DesignatesUnique(b1: Int3, b2: Int3, point: Vec3, face: Int3)
    requires Designates(b1, point, face) && Designates(b2, point, face)
    ensures b1 == b2
  {
    forall a: Axis ensures b1.Get(a) == b2.Get(a) {
      assert b1.Get(a) as real - b2.Get(a) as real < 1.0;
      assert b2.Get(a) as real - b1.Get(a) as real < 1.0;
    }
    assert b1.x == b2.x && b1.y == b2.y && b1.z == b2.z by {
      assert b1.Get(X) == b2.Get(X) && b1.Get(Y) == b2.Get(Y) && b1.Get(Z) == b2.Get(Z);
    }
  }

  /**
   * On an axis where the point lies exactly on plane n, the block is the one below
   * the plane (n - 1) when the normal is negative and the one above it (n) otherwise.
   */
  lemma BlockOnPlane(c: real, n: int, normal: int)
    requires c == n as real
    ensures BlockCoord(c, normal) == if normal < 0 then n - 1 else n
  {
  }
}
