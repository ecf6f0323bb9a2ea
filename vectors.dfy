/**
 * `VoxelLocation::linearize` (src/math/vectors.rs): the key under which a level
 * is stored in the sorted level list. All arithmetic is on `u64` as a debug
 * build runs it: an overflow, and the subtraction `level_depth - lod` going below
 * zero, panic; the model returns `None` for that panic.
 */
module Vectors {
  import opened Wrappers
  import opened Machine

  datatype Vector3U64 = Vector3U64(x: u64, y: u64, z: u64)
  datatype Vector3U16 = Vector3U16(x: u16, y: u16, z: u16)
  datatype VoxelLocation = VoxelLocation(lod: u64, vec: Vector3U64)

  // Checked u64 operations; None is the panic of a debug build.

  function Mul(a: u64, b: u64): (r: Option<u64>)
    ensures r.Some? <==> a * b < U64_BOUND
    ensures r.Some? ==> r.value == a * b
  {
    if a * b < U64_BOUND then Some(a * b) else None
  }

  function Add(a: u64, b: u64): (r: Option<u64>)
    ensures r.Some? <==> a + b < U64_BOUND
    ensures r.Some? ==> r.value == a + b
  {
    if a + b < U64_BOUND then Some(a + b) else None
  }

  function Sub(a: u64, b: u64): (r: Option<u64>)
    ensures r.Some? <==> b <= a
    ensures r.Some? ==> r.value == a - b
  {
    if b <= a then Some(a - b) else None
  }

  function Pow(b: nat, e: nat): nat
  {
    if e == 0 then 1 else b * Pow(b, e - 1)
  }

  /**
   * `u64::pow`. It squares the base only as far as the exponent needs, so it
   * panics exactly when the true power does not fit in 64 bits.
   */
  function CheckedPow(b: u64, e: u32): (r: Option<u64>)
    ensures r.Some? <==> Pow(b, e) < U64_BOUND
    ensures r.Some? ==> r.value == Pow(b, e)
  {
    if Pow(b, e) < U64_BOUND then Some(Pow(b, e)) else None
  }

  /** The position of a cell in x-major order: x*sy*sz + y*sz + z. */
  function Index(v: Vector3U64, sy: nat, sz: nat): nat
  {
    v.x * sy * sz + v.y * sz + v.z
  }

  /** The base of the power: the cell index scaled by the level volume, plus 2. */
  function Base(v: Vector3U64, sx: nat, sy: nat, sz: nat): nat
  {
    Index(v, sy, sz) * (sx * sy * sz) + 2
  }

  /** The exponent `(level_depth - lod) as u32`: the cast keeps the low 32 bits. */
  function Exponent(lod: nat, depth: nat): nat
    requires lod <= depth
  {
    (depth - lod) % U32_BOUND
  }

  /** Every intermediate value of the base expression fits in a u64. */
  ghost predicate BaseFits(v: Vector3U64, sx: nat, sy: nat, sz: nat)
  {
    && v.x * sy < U64_BOUND && v.x * sy * sz < U64_BOUND
    && v.y * sz < U64_BOUND && v.x * sy * sz + v.y * sz < U64_BOUND
    && Index(v, sy, sz) < U64_BOUND
    && sx * sy < U64_BOUND && sx * sy * sz < U64_BOUND
    && Index(v, sy, sz) * (sx * sy * sz) < U64_BOUND
    && Base(v, sx, sy, sz) < U64_BOUND
  }

  /** `linearize` runs without a panic. */
  ghost predicate Fits(loc: VoxelLocation, sx: nat, sy: nat, sz: nat, depth: nat)
  {
    && BaseFits(loc.vec, sx, sy, sz)
    && loc.lod <= depth
    && Pow(Base(loc.vec, sx, sy, sz), Exponent(loc.lod, depth)) < U64_BOUND
  }

  /**
   * `VoxelLocation::linearize(size_x, size_y, size_z, level_depth)`:
   * `((x*sy*sz + y*sz + z) * (sx*sy*sz) + 2) ^ (level_depth - lod)`.
   */
  function Linearize(loc: VoxelLocation, sx: u64, sy: u64, sz: u64, depth: u64): (r: Option<u64>)
    ensures r.Some? <==> Fits(loc, sx, sy, sz, depth)
    ensures r.Some? ==> r.value == Pow(Base(loc.vec, sx, sy, sz), Exponent(loc.lod, depth))
  {
    var xy :- Mul(loc.vec.x, sy);
    var xyz :- Mul(xy, sz);
    var yz :- Mul(loc.vec.y, sz);
    var partial :- Add(xyz, yz);
    var index :- Add(partial, loc.vec.z);
    var areaXY :- Mul(sx, sy);
    var volume :- Mul(areaXY, sz);
    var scaled :- Mul(index, volume);
    var base :- Add(scaled, 2);
    var levelsAbove :- Sub(depth, loc.lod);
    CheckedPow(base, levelsAbove % U32_BOUND)
  }

  lemma {:induction false} PowAtLeastBase(b: nat, e: nat)
    requires 1 <= b && 1 <= e
    ensures b <= Pow(b, e)
  {
    if e > 1 {
      PowAtLeastBase(b, e - 1);
      assert b * Pow(b, e - 1) >= b * 1;
    }
  }

  lemma {:induction false} PowPositive(b: nat, e: nat)
    requires 1 <= b
    ensures 1 <= Pow(b, e)
  {
    if e > 0 {
      PowPositive(b, e - 1);
      MulMonotonic(b, 1, Pow(b, e - 1));
    }
  }

  lemma MulMonotonic(a: nat, x: nat, y: nat)
    requires x <= y
    ensures a * x <= a * y
  {
  }

  lemma MulStrictlyIncreasing(a1: nat, a2: nat, m: nat)
    requires a1 < a2 && 0 < m
    ensures a1 * m < a2 * m
  {
    assert a2 * m == a1 * m + (a2 - a1) * m;
  }

  lemma {:induction false} PowStrictlyIncreasing(b1: nat, b2: nat, e: nat)
    requires b1 < b2 && 1 <= e
    ensures Pow(b1, e) < Pow(b2, e)
  {
    if e == 1 {
      assert Pow(b1, 0) == 1 && Pow(b2, 0) == 1;
    } else {
      PowStrictlyIncreasing(b1, b2, e - 1);
      var p1, p2 := Pow(b1, e - 1), Pow(b2, e - 1);
      PowPositive(b2, e - 1);
      MulMonotonic(b1, p1, p2);
      MulStrictlyIncreasing(b1, b2, p2);
      assert Pow(b1, e) == b1 * p1 && Pow(b2, e) == b2 * p2;
    }
  }

  /** A location at the deepest level of detail always gets key 1, whatever its coordinates. */
  lemma LinearizeAtLevelDepth(loc: VoxelLocation, sx: u64, sy: u64, sz: u64, depth: u64)
    requires loc.lod == depth && BaseFits(loc.vec, sx, sy, sz)
    ensures Linearize(loc, sx, sy, sz, depth) == Some(1)
  {
  }

  /** `linearize` panics when `lod` exceeds `level_depth`. */
  lemma LinearizeNeedsLodWithinDepth(loc: VoxelLocation, sx: u64, sy: u64, sz: u64, depth: u64)
    requires depth < loc.lod
    ensures Linearize(loc, sx, sy, sz, depth) == None
  {
  }

  /** A key is at least 1, and at least 2 exactly when the exponent left by the u32 cast is not 0. */
  lemma LinearizeLowerBound(loc: VoxelLocation, sx: u64, sy: u64, sz: u64, depth: u64)
    requires Linearize(loc, sx, sy, sz, depth).Some?
    ensures Linearize(loc, sx, sy, sz, depth).value >= 1
    ensures Linearize(loc, sx, sy, sz, depth).value >= 2 <==> Exponent(loc.lod, depth) != 0
  {
    var b, e := Base(loc.vec, sx, sy, sz), Exponent(loc.lod, depth);
    if e == 0 {
      assert Pow(b, e) == 1;
    } else {
      PowAtLeastBase(b, e);
    }
  }

  /**
   * For fixed sizes and a fixed level of detail whose exponent survives the
   * u32 cast, the key grows strictly with the cell index x*sy*sz + y*sz + z.
   */
  lemma LinearizeStrictlyIncreasing(l1: VoxelLocation, l2: VoxelLocation, sx: u64, sy: u64, sz: u64, depth: u64)
    requires 0 < sx && 0 < sy && 0 < sz
    requires l1.lod == l2.lod && l1.lod <= depth && Exponent(l1.lod, depth) != 0
    requires Index(l1.vec, sy, sz) < Index(l2.vec, sy, sz)
    requires Linearize(l1, sx, sy, sz, depth).Some? && Linearize(l2, sx, sy, sz, depth).Some?
    ensures Linearize(l1, sx, sy, sz, depth).value < Linearize(l2, sx, sy, sz, depth).value
  {
    var volume := sx * sy * sz;
    assert 0 < sx * sy;
    MulStrictlyIncreasing(Index(l1.vec, sy, sz), Index(l2.vec, sy, sz), volume);
    PowStrictlyIncreasing(Base(l1.vec, sx, sy, sz), Base(l2.vec, sx, sy, sz), Exponent(l1.lod, depth));
  }

  lemma LowerQuotientSmaller(q1: nat, r1: nat, q2: nat, r2: nat, m: nat)
    requires r1 < m && q1 < q2
    ensures q1 * m + r1 < q2 * m + r2
  {
    MulStrictlyIncreasing(q1, q2, m);
    assert (q1 + 1) * m == q1 * m + m;
    MulMonotonic(m, q1 + 1, q2);
  }

  /** q*m + r with r < m determines q and r. */
  lemma DigitsUnique(q1: nat, r1: nat, q2: nat, r2: nat, m: nat)
    requires r1 < m && r2 < m && q1 * m + r1 == q2 * m + r2
    ensures q1 == q2 && r1 == r2
  {
    if q1 < q2 {
      LowerQuotientSmaller(q1, r1, q2, r2, m);
    } else if q2 < q1 {
      LowerQuotientSmaller(q2, r2, q1, r1, m);
    }
  }

  /** In-bounds coordinates (y < sy, z < sz) have distinct cell indices. */
  lemma IndexInjective(v1: Vector3U64, v2: Vector3U64, sy: nat, sz: nat)
    requires v1.y < sy && v2.y < sy && v1.z < sz && v2.z < sz
    requires Index(v1, sy, sz) == Index(v2, sy, sz)
    ensures v1 == v2
  {
    assert Index(v1, sy, sz) == (v1.x * sy + v1.y) * sz + v1.z;
    assert Index(v2, sy, sz) == (v2.x * sy + v2.y) * sz + v2.z;
    DigitsUnique(v1.x * sy + v1.y, v1.z, v2.x * sy + v2.y, v2.z, sz);
    DigitsUnique(v1.x, v1.y, v2.x, v2.y, sy);
  }

  /** Two distinct in-bounds cells at the same level of detail, with an exponent that survives the cast, get distinct keys. */
  lemma LinearizeDistinct(l1: VoxelLocation, l2: VoxelLocation, sx: u64, sy: u64, sz: u64, depth: u64)
    requires 0 < sx
    requires l1.vec.y < sy && l2.vec.y < sy && l1.vec.z < sz && l2.vec.z < sz
    requires l1.lod == l2.lod && l1.lod <= depth && Exponent(l1.lod, depth) != 0 && l1.vec != l2.vec
    requires Linearize(l1, sx, sy, sz, depth).Some? && Linearize(l2, sx, sy, sz, depth).Some?
    ensures Linearize(l1, sx, sy, sz, depth).value != Linearize(l2, sx, sy, sz, depth).value
  {
    var i1, i2 := Index(l1.vec, sy, sz), Index(l2.vec, sy, sz);
    if i1 == i2 {
      IndexInjective(l1.vec, l2.vec, sy, sz);
    } else if i1 < i2 {
      LinearizeStrictlyIncreasing(l1, l2, sx, sy, sz, depth);
    } else {
      LinearizeStrictlyIncreasing(l2, l1, sx, sy, sz, depth);
    }
  }

  /**
   * The cast `as u32` keeps only the low 32 bits of `level_depth - lod`: a
   * location exactly 2^32 levels above the deepest gets the same key, 1, as a
   * location at the deepest level.
   */
  lemma ExponentCastWraps(loc: VoxelLocation, sx: u64, sy: u64, sz: u64, depth: u64)
    requires depth == loc.lod + U32_BOUND && BaseFits(loc.vec, sx, sy, sz)
    ensures Linearize(loc, sx, sy, sz, depth) == Some(1)
  {
    assert Exponent(loc.lod, depth) == 0;
  }
}
