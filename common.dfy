/**
 * Small value types shared by the whole model.
 */
module Common {

  datatype Option<T> = None | Some(value: T)

  /** The range of a C# `int`. */
  newtype Int32 = x: int | -0x8000_0000 <= x < 0x8000_0000

  /** A `Vector3` world position; the model never computes with it. */
  datatype Vec3 = Vec3(x: real, y: real, z: real)

  /** A sensor's lattice offset from its piece's anchor (`DotSensor.localCoordinate`). */
  datatype Offset = Offset(dx: int, dy: int)

  const ZeroOffset := Offset(0, 0)

  /** No element occurs twice in `s` (stated from the end, one element at a time). */
  predicate Distinct<T(==)>(s: seq<T>)
  {
    s == [] || (s[|s| - 1] !in s[..|s| - 1] && Distinct(s[..|s| - 1]))
  }

  lemma {:induction false} DistinctAt<T>(s: seq<T>, i: nat, j: nat)
    requires Distinct(s) && i < |s| && j < |s| && i != j
    ensures s[i] != s[j]
  {
    var last := |s| - 1;
    if i != last && j != last {
      DistinctAt(s[..last], i, j);
    } else if i == last {
      assert s[j] in s[..last];
    } else {
      assert s[i] in s[..last];
    }
  }
}
