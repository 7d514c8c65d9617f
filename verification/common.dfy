/**
 Shared vocabulary of the locator model: nullable pointers, the errno codes the
 firmware returns, C integer ranges, and three-dimensional vectors over `real`.
 */
module Common {

  /** A C pointer argument: either NULL or a pointer to a value. */
  datatype Ptr<T> = Null | Ref(value: T)

  datatype Option<T> = None | Some(value: T)

  /** errno values used by the firmware (returned negated). */
  const ENOENT: int := 2
  const EINVAL: int := 22
  const ENOSPC: int := 28

  /** A `uint8_t`. */
  type Octet = x: int | 0 <= x < 256

  /** An `int8_t`. */
  type Int8 = x: int | -128 <= x < 128

  function Min(a: int, b: int): int {
    if a < b then a else b
  }

  function MaxReal(a: real, b: real): real {
    if a < b then b else a
  }

  /** `sqrt` returns the non-negative square root of `v`. The firmware's `sqrtf`
      and the scripts' `** 0.5` are parameters of the model; results that depend
      on them are stated under this predicate. */
  ghost predicate RootAt(sqrt: real -> real, v: real) {
    sqrt(v) >= 0.0 && sqrt(v) * sqrt(v) == v
  }

  lemma SquareStrictlyMonotonic(a: real, b: real)
    requires 0.0 <= a < b
    ensures a * a < b * b
  {
    var d := b - a;
    assert b * b == a * a + d * (a + b);
    assert d * (a + b) > 0.0;
  }

  /** A non-negative root of a number is unique. */
  lemma RootUnique(r1: real, r2: real)
    requires r1 >= 0.0 && r2 >= 0.0 && r1 * r1 == r2 * r2
    ensures r1 == r2
  {
    if r1 < r2 {
      SquareStrictlyMonotonic(r1, r2);
    } else if r2 < r1 {
      SquareStrictlyMonotonic(r2, r1);
    }
  }

  /** The root of zero is zero. */
  lemma RootOfZero(sqrt: real -> real)
    ensures RootAt(sqrt, 0.0) ==> sqrt(0.0) == 0.0
  {
    if RootAt(sqrt, 0.0) {
      RootUnique(sqrt(0.0), 0.0);
    }
  }

  datatype Vec3 = Vec3(x: real, y: real, z: real)

  function Add(a: Vec3, b: Vec3): Vec3 {
    Vec3(a.x + b.x, a.y + b.y, a.z + b.z)
  }

  function Sub(a: Vec3, b: Vec3): Vec3 {
    Vec3(a.x - b.x, a.y - b.y, a.z - b.z)
  }

  function Scale(t: real, a: Vec3): Vec3 {
    Vec3(t * a.x, t * a.y, t * a.z)
  }

  function Dot(a: Vec3, b: Vec3): real {
    a.x * b.x + a.y * b.y + a.z * b.z
  }

  function NormSquared(a: Vec3): real {
    Dot(a, a)
  }

  /** The dot product is linear in its second argument. */
  lemma DotLinear(c: Vec3, a: real, x: Vec3, b: real, y: Vec3)
    ensures Dot(c, Sub(Scale(a, x), Scale(b, y))) == a * Dot(c, x) - b * Dot(c, y)
  {
  }

  lemma NormSquaredNonNegative(a: Vec3)
    ensures NormSquared(a) >= 0.0
  {
  }
}
