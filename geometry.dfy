/**
 * Integer 3-vectors and 3×3 integer matrices, as the placer uses vek's
 * `Vec3<i32>`, `Mat3<i32>` and `Aabb<i32>`.  Matrices are stored by rows and
 * `Apply` is the product of a matrix with a column vector (`rot * v`).
 */
module Geometry {

  datatype Vec3 = Vec3(x: int, y: int, z: int)
  {
    /** Component `i`: 0 is x, 1 is y, 2 is z. */
    function At(i: nat): int
      requires i < 3
    {
      if i == 0 then x else if i == 1 then y else z
    }

    function Plus(o: Vec3): Vec3 { Vec3(x + o.x, y + o.y, z + o.z) }

    function Minus(o: Vec3): Vec3 { Vec3(x - o.x, y - o.y, z - o.z) }

    function Scaled(s: int): Vec3 { Vec3(s * x, s * y, s * z) }

    /** Component-wise `<=`. */
    predicate LessEq(o: Vec3) { x <= o.x && y <= o.y && z <= o.z }
  }

  const ZERO := Vec3(0, 0, 0)
  const ONE := Vec3(1, 1, 1)

  function Dot(a: Vec3, b: Vec3): int { a.x * b.x + a.y * b.y + a.z * b.z }

  function AbsInt(n: int): nat { if n < 0 then -n else n }

  /** The standard basis vector e_i, row i of the identity. */
  function Basis(i: nat): Vec3
    requires i < 3
  {
    if i == 0 then Vec3(1, 0, 0) else if i == 1 then Vec3(0, 1, 0) else Vec3(0, 0, 1)
  }

  datatype Mat3 = Mat3(r0: Vec3, r1: Vec3, r2: Vec3)
  {
    function Row(i: nat): Vec3
      requires i < 3
    {
      if i == 0 then r0 else if i == 1 then r1 else r2
    }

    function Transpose(): Mat3
    {
      Mat3(Vec3(r0.x, r1.x, r2.x), Vec3(r0.y, r1.y, r2.y), Vec3(r0.z, r1.z, r2.z))
    }

    /** `self * v` for a column vector `v`. */
    function Apply(v: Vec3): Vec3 { Vec3(Dot(r0, v), Dot(r1, v), Dot(r2, v)) }

    /** The matrix product `self * b`: row i is row i of `self` times `b`. */
    function Times(b: Mat3): Mat3
    {
      var bt := b.Transpose();
      Mat3(bt.Apply(r0), bt.Apply(r1), bt.Apply(r2))
    }

    /** Element-wise absolute value (`rot.map(|e| e.abs())`). */
    function Abs(): Mat3
    {
      Mat3(Vec3(AbsInt(r0.x), AbsInt(r0.y), AbsInt(r0.z)),
           Vec3(AbsInt(r1.x), AbsInt(r1.y), AbsInt(r1.z)),
           Vec3(AbsInt(r2.x), AbsInt(r2.y), AbsInt(r2.z)))
    }

    function Det(): int
    {
      r0.x * (r1.y * r2.z - r1.z * r2.y)
      - r0.y * (r1.x * r2.z - r1.z * r2.x)
      + r0.z * (r1.x * r2.y - r1.y * r2.x)
    }
  }

  const IDENTITY := Mat3(Vec3(1, 0, 0), Vec3(0, 1, 0), Vec3(0, 0, 1))

  /** A vector with exactly one non-zero component, and that component is 1 or -1. */
  predicate SignedUnit(v: Vec3)
  {
    || ((v.x == 1 || v.x == -1) && v.y == 0 && v.z == 0)
    || (v.x == 0 && (v.y == 1 || v.y == -1) && v.z == 0)
    || (v.x == 0 && v.y == 0 && (v.z == 1 || v.z == -1))
  }

  /** The index of the non-zero component of a signed unit vector. */
  function Axis(v: Vec3): (a: nat)
    ensures a < 3
  {
    if v.x != 0 then 0 else if v.y != 0 then 1 else 2
  }

  /** The value of the non-zero component of a signed unit vector. */
  function Sign(v: Vec3): int { v.At(Axis(v)) }

  /** Every row is ±e_j for some j (the matrix may still be singular). */
  predicate RowsSignedUnit(m: Mat3)
  {
    SignedUnit(m.r0) && SignedUnit(m.r1) && SignedUnit(m.r2)
  }

  /** A signed permutation matrix: one of the 48 symmetries of the cube's axes. */
  predicate IsSignedPerm(m: Mat3)
  {
    && RowsSignedUnit(m)
    && Axis(m.r0) != Axis(m.r1) && Axis(m.r0) != Axis(m.r2) && Axis(m.r1) != Axis(m.r2)
  }

  lemma SignedUnitShape(v: Vec3)
    requires SignedUnit(v)
    ensures Sign(v) == 1 || Sign(v) == -1
    ensures v == Basis(Axis(v)).Scaled(Sign(v))
  {
  }

  /** Negating a signed unit vector keeps it one, on the same axis. */
  lemma ScaledSignedUnit(v: Vec3, s: int)
    requires SignedUnit(v) && (s == 1 || s == -1)
    ensures SignedUnit(v.Scaled(s)) && Axis(v.Scaled(s)) == Axis(v)
  {
  }

  /** Two signed unit vectors are orthogonal unless they share their axis. */
  lemma DotSignedUnits(u: Vec3, v: Vec3)
    requires SignedUnit(u) && SignedUnit(v)
    ensures Axis(u) != Axis(v) ==> Dot(u, v) == 0
    ensures u == v ==> Dot(u, v) == 1
  {
  }

  /** The determinant of a matrix whose rows are signed unit vectors on distinct axes. */
  lemma DetSignedPerm(m: Mat3)
    requires IsSignedPerm(m)
    ensures m.Det() == 1 || m.Det() == -1
  {
    if m.r0.x != 0 {
      if m.r1.y != 0 {
        assert m.Det() == m.r0.x * m.r1.y * m.r2.z;
      } else {
        assert m.Det() == -(m.r0.x * m.r1.z * m.r2.y);
      }
    } else if m.r0.y != 0 {
      if m.r1.x != 0 {
        assert m.Det() == -(m.r0.y * m.r1.x * m.r2.z);
      } else {
        assert m.Det() == m.r0.y * m.r1.z * m.r2.x;
      }
    } else {
      if m.r1.x != 0 {
        assert m.Det() == m.r0.z * m.r1.x * m.r2.y;
      } else {
        assert m.Det() == -(m.r0.z * m.r1.y * m.r2.x);
      }
    }
  }

  /** Each column of a signed permutation holds exactly one ±1 too. */
  lemma SignedPermColumns(m: Mat3)
    requires IsSignedPerm(m)
    ensures RowsSignedUnit(m.Transpose())
  {
  }

  /** A signed permutation times its transpose is the identity. */
  lemma SignedPermTimesTranspose(m: Mat3)
    requires IsSignedPerm(m)
    ensures m.Times(m.Transpose()) == IDENTITY
  {
    DotSignedUnits(m.r0, m.r0);
    DotSignedUnits(m.r0, m.r1);
    DotSignedUnits(m.r0, m.r2);
    DotSignedUnits(m.r1, m.r0);
    DotSignedUnits(m.r1, m.r1);
    DotSignedUnits(m.r1, m.r2);
    DotSignedUnits(m.r2, m.r0);
    DotSignedUnits(m.r2, m.r1);
    DotSignedUnits(m.r2, m.r2);
    assert m.Transpose().Transpose() == m;
  }

  /**
   * A signed permutation is orthogonal with determinant ±1, and its columns
   * are signed unit vectors too: each row and each column holds exactly one ±1.
   */
  lemma SignedPermIsOrthogonal(m: Mat3)
    requires IsSignedPerm(m)
    ensures RowsSignedUnit(m.Transpose())
    ensures m.Times(m.Transpose()) == IDENTITY
    ensures m.Det() == 1 || m.Det() == -1
  {
    SignedPermColumns(m);
    SignedPermTimesTranspose(m);
    DetSignedPerm(m);
  }

  /** Multiplying by a signed unit row picks one row of `b`, with its sign. */
  lemma UnitRowTimes(u: Vec3, b: Mat3)
    requires SignedUnit(u)
    ensures b.Transpose().Apply(u) == b.Row(Axis(u)).Scaled(Sign(u))
  {
  }

  /** Row i of `a * b` is row i of `a` applied to the transpose of `b`. */
  lemma TimesRows(a: Mat3, b: Mat3)
    ensures a.Times(b).r0 == b.Transpose().Apply(a.r0)
    ensures a.Times(b).r1 == b.Transpose().Apply(a.r1)
    ensures a.Times(b).r2 == b.Transpose().Apply(a.r2)
  {
  }

  /** A signed unit row times a matrix of signed unit rows is a signed unit row. */
  lemma UnitRowTimesUnitRows(u: Vec3, b: Mat3)
    requires SignedUnit(u) && RowsSignedUnit(b)
    ensures SignedUnit(b.Transpose().Apply(u))
    ensures Axis(b.Transpose().Apply(u)) == Axis(b.Row(Axis(u)))
  {
    UnitRowTimes(u, b);
    SignedUnitShape(u);
    ScaledSignedUnit(b.Row(Axis(u)), Sign(u));
  }

  /**
   * `rot *= r` keeps every row a signed unit vector, and row i of the product
   * lies on the axis that row `Axis(a.Row(i))` of `b` lies on.
   */
  lemma TimesKeepsRowsSignedUnit(a: Mat3, b: Mat3)
    requires RowsSignedUnit(a) && RowsSignedUnit(b)
    ensures RowsSignedUnit(a.Times(b))
    ensures Axis(a.Times(b).r0) == Axis(b.Row(Axis(a.r0)))
    ensures Axis(a.Times(b).r1) == Axis(b.Row(Axis(a.r1)))
    ensures Axis(a.Times(b).r2) == Axis(b.Row(Axis(a.r2)))
  {
    TimesRows(a, b);
    UnitRowTimesUnitRows(a.r0, b);
    UnitRowTimesUnitRows(a.r1, b);
    UnitRowTimesUnitRows(a.r2, b);
  }

  /** Signed permutations are closed under the product. */
  lemma TimesKeepsSignedPerm(a: Mat3, b: Mat3)
    requires IsSignedPerm(a) && IsSignedPerm(b)
    ensures IsSignedPerm(a.Times(b))
  {
    TimesKeepsRowsSignedUnit(a, b);
  }

  /** `(a * b) * v == a * (b * v)`: composing rotations composes their actions. */
  lemma TimesApply(a: Mat3, b: Mat3, v: Vec3)
    ensures a.Times(b).Apply(v) == a.Apply(b.Apply(v))
  {
  }

  /** `m * (u + v) == m * u + m * v`. */
  lemma ApplyPlus(m: Mat3, u: Vec3, v: Vec3)
    ensures m.Apply(u.Plus(v)) == m.Apply(u).Plus(m.Apply(v))
  {
  }

  /** An inclusive axis-aligned box, as vek's `Aabb` with `contains_point`. */
  datatype Aabb = Aabb(min: Vec3, max: Vec3)
  {
    predicate ContainsPoint(p: Vec3) { min.LessEq(p) && p.LessEq(max) }
  }

  /** `p` lies in at least one of the boxes. */
  predicate InAnyAabb(aabbs: seq<Aabb>, p: Vec3)
  {
    exists j :: 0 <= j < |aabbs| && aabbs[j].ContainsPoint(p)
  }

  /** `aabbs.iter().any(|aabb| aabb.contains_point(p))`, scanning from the front. */
  function AnyContains(aabbs: seq<Aabb>, p: Vec3): bool
  {
    if aabbs == [] then false else aabbs[0].ContainsPoint(p) || AnyContains(aabbs[1..], p)
  }

  lemma {:induction false} AnyContainsIff(aabbs: seq<Aabb>, p: Vec3)
    ensures AnyContains(aabbs, p) <==> InAnyAabb(aabbs, p)
  {
    if aabbs != [] {
      AnyContainsIff(aabbs[1..], p);
      if InAnyAabb(aabbs, p) && !aabbs[0].ContainsPoint(p) {
        var j :| 0 <= j < |aabbs| && aabbs[j].ContainsPoint(p);
        assert aabbs[1..][j - 1] == aabbs[j];
      }
      if InAnyAabb(aabbs[1..], p) {
        var j :| 0 <= j < |aabbs[1..]| && aabbs[1..][j].ContainsPoint(p);
        assert aabbs[j + 1] == aabbs[1..][j];
      }
    }
  }

  /** Appending boxes never takes a point out of the covered region. */
  lemma InAnyAabbGrows(aabbs: seq<Aabb>, more: seq<Aabb>, p: Vec3)
    requires InAnyAabb(aabbs, p)
    ensures InAnyAabb(aabbs + more, p)
  {
    var j :| 0 <= j < |aabbs| && aabbs[j].ContainsPoint(p);
    assert (aabbs + more)[j] == aabbs[j];
  }
}
