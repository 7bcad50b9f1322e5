/**
 * The decoder for the `_r` byte of a MagicaVoxel transform frame
 * (src/main.rs:129-160).  Bits 0-1 choose the axis row 0 reads, bits 2-3 the
 * axis row 1 reads, row 2 reads the remaining axis, and bits 4, 5 and 6 negate
 * rows 0, 1 and 2.
 *
 * `DecodeAsWritten` is the closure as it stands, including the encodings its
 * guard lets through by mistake; `Decode` is the decoder with the guard the
 * format calls for, and is the one the rest of the model uses.
 */
module Rotation {
  import opened Wrappers
  import opened Geometry

  /** +1 when bit `bit` of `n` is clear, -1 when it is set. */
  function SignBit(n: bv8, bit: bv8): int
    requires bit < 8
  {
    if (n >> bit) & 1 == 0 then 1 else -1
  }

  /** `n & 3`: the axis row 0 reads. */
  function FirstSelector(n: bv8): nat { (n & 3) as nat }

  /** `n >> 2 & 3`: the axis row 1 reads. */
  function SecondSelector(n: bv8): nat { ((n >> 2) & 3) as nat }

  /** `!(n | (n >> 2)) & 3`: the axis row 2 reads. */
  function ThirdSelector(n: bv8): nat { (!(n | (n >> 2)) & 3) as nat }

  /** Rows `rows[a]`, `rows[b]`, `rows[c]` of the identity, signed by bits 4, 5 and 6. */
  function Assemble(n: bv8, a: nat, b: nat, c: nat): Mat3
    requires a < 3 && b < 3 && c < 3
  {
    Mat3(Basis(a).Scaled(SignBit(n, 4)), Basis(b).Scaled(SignBit(n, 5)), Basis(c).Scaled(SignBit(n, 6)))
  }

  /** What the closure of src/main.rs:131-159 does with a parsed byte. */
  datatype Decoded =
    | UnknownFormat       // the `None` branch: the caller substitutes the identity
    | IndexOutOfBounds    // `rows[3]` is evaluated: the program panics
    | Matrix(m: Mat3)

  /** The decoder exactly as written, guard `n & 3 != 3 && n >> 2 != 3` included. */
  function DecodeAsWritten(n: bv8): Decoded
  {
    if n & 3 != 3 && n >> 2 != 3 then
      var a, b, c := FirstSelector(n), SecondSelector(n), ThirdSelector(n);
      assert a < 3;
      if b == 3 || c == 3 then IndexOutOfBounds
      else Matrix(Assemble(n, a, b, c))
    else
      UnknownFormat
  }

  /** Two distinct selectors below 3 leave the third selector on the remaining axis. */
  lemma ThirdSelectorIsRemaining(n: bv8)
    requires FirstSelector(n) < 3 && SecondSelector(n) < 3
    requires FirstSelector(n) != SecondSelector(n)
    ensures ThirdSelector(n) < 3
    ensures ThirdSelector(n) != FirstSelector(n) && ThirdSelector(n) != SecondSelector(n)
    ensures FirstSelector(n) + SecondSelector(n) + ThirdSelector(n) == 3
  {
  }

  /**
   * The decoder with the guard the format calls for: both selectors below 3
   * and different.  `None` is an encoding it does not accept.
   */
  function Decode(n: bv8): Option<Mat3>
  {
    var a, b := FirstSelector(n), SecondSelector(n);
    if a != 3 && b != 3 && a != b then
      ThirdSelectorIsRemaining(n);
      Some(Assemble(n, a, b, ThirdSelector(n)))
    else
      None
  }

  /**
   * The rotation of a frame: `_r` missing or not a `u8` (`r == None`) and an
   * encoding the decoder rejects both give the identity (`unwrap_or`).
   */
  function FrameRotation(r: Option<bv8>): Mat3
  {
    match r
    case None => IDENTITY
    case Some(n) => Decode(n).GetOr(IDENTITY)
  }

  /**
   * The corrected decoder accepts a byte exactly when the written closure
   * yields a matrix and that matrix is a signed permutation, and then both
   * produce the same matrix: the corrected guard keeps every output of the
   * written decoder that is a rotation, and only those.
   */
  lemma DecodeAcceptance(n: bv8)
    ensures Decode(n).Some? <==> DecodeAsWritten(n).Matrix? && IsSignedPerm(DecodeAsWritten(n).m)
    ensures Decode(n).Some? ==> DecodeAsWritten(n) == Matrix(Decode(n).value)
  {
    if Decode(n).Some? {
      AcceptedAsWritten(n);
      DecodeIsSignedPerm(n);
    } else if DecodeAsWritten(n).Matrix? {
      WrittenMatrixAxes(n);
    }
  }

  /** An accepted byte passes the written guard and decodes to the same matrix there. */
  lemma AcceptedAsWritten(n: bv8)
    requires Decode(n).Some?
    ensures DecodeAsWritten(n) == Matrix(Decode(n).value)
  {
    ThirdSelectorIsRemaining(n);
    assert (n >> 2) & 3 != 3;
  }

  /**
   * Whatever the written closure yields as a matrix has signed unit rows on
   * the axes its three selectors name, so it is a signed permutation exactly
   * when the first two selectors differ.
   */
  lemma WrittenMatrixAxes(n: bv8)
    requires DecodeAsWritten(n).Matrix?
    ensures FirstSelector(n) < 3 && SecondSelector(n) < 3 && ThirdSelector(n) < 3
    ensures var m := DecodeAsWritten(n).m;
      && RowsSignedUnit(m)
      && Axis(m.r0) == FirstSelector(n) && Axis(m.r1) == SecondSelector(n) && Axis(m.r2) == ThirdSelector(n)
      && (IsSignedPerm(m) ==> FirstSelector(n) != SecondSelector(n))
  {
    SignedBasis(FirstSelector(n), SignBit(n, 4));
    SignedBasis(SecondSelector(n), SignBit(n, 5));
    SignedBasis(ThirdSelector(n), SignBit(n, 6));
  }

  /** A signed row of the identity is a signed unit vector on that row's axis. */
  lemma SignedBasis(i: nat, s: int)
    requires i < 3 && (s == 1 || s == -1)
    ensures SignedUnit(Basis(i).Scaled(s))
    ensures Axis(Basis(i).Scaled(s)) == i && Sign(Basis(i).Scaled(s)) == s
  {
  }

  /**
   * An accepted encoding decodes to a signed permutation: row i reads the axis
   * its selector names, with the sign that bit 4+i gives, and every row and
   * column holds exactly one ±1, so the matrix is orthogonal with determinant ±1.
   */
  lemma DecodeIsSignedPerm(n: bv8)
    requires Decode(n).Some?
    ensures var m := Decode(n).value;
      && IsSignedPerm(m)
      && Axis(m.r0) == FirstSelector(n) && Sign(m.r0) == SignBit(n, 4)
      && Axis(m.r1) == SecondSelector(n) && Sign(m.r1) == SignBit(n, 5)
      && Axis(m.r2) == ThirdSelector(n) && Sign(m.r2) == SignBit(n, 6)
      && RowsSignedUnit(m.Transpose())
      && m.Times(m.Transpose()) == IDENTITY
      && (m.Det() == 1 || m.Det() == -1)
  {
    ThirdSelectorIsRemaining(n);
    var m := Decode(n).value;
    SignedBasis(FirstSelector(n), SignBit(n, 4));
    SignedBasis(SecondSelector(n), SignBit(n, 5));
    SignedBasis(ThirdSelector(n), SignBit(n, 6));
    SignedPermIsOrthogonal(m);
  }

  /** Whatever the frame holds, the rotation it contributes is a signed permutation. */
  lemma FrameRotationIsSignedPerm(r: Option<bv8>)
    ensures IsSignedPerm(FrameRotation(r))
  {
    if r.Some? && Decode(r.value).Some? {
      DecodeIsSignedPerm(r.value);
    }
  }

  /**
   * The written decoder and the corrected one agree except on two kinds of
   * byte: equal selectors below 3, and a second selector of 3 with bits above
   * bit 3 set (so that `n >> 2 != 3` holds).  On those the written decoder
   * never yields `UnknownFormat`.
   */
  lemma AsWrittenDiffersOnlyOnGap(n: bv8)
    ensures var a, b := FirstSelector(n), SecondSelector(n);
      var gap := a != 3 && (a == b || (b == 3 && n >> 2 != 3));
      && (!gap ==> DecodeAsWritten(n) == (if Decode(n).Some? then Matrix(Decode(n).value) else UnknownFormat))
      && (gap ==> Decode(n).None? && DecodeAsWritten(n) != UnknownFormat)
  {
    if FirstSelector(n) < 3 && SecondSelector(n) < 3 && FirstSelector(n) != SecondSelector(n) {
      ThirdSelectorIsRemaining(n);
    }
  }

  /**
   * Three bytes the written guard lets through: 0 (both selectors 0) and 28
   * (second selector 3, `n >> 2 == 7`) index `rows[3]`; 5 (both selectors 1)
   * gives a singular matrix.  The corrected decoder rejects all three.
   */
  lemma AsWrittenCounterexamples()
    ensures DecodeAsWritten(0) == IndexOutOfBounds && Decode(0).None?
    ensures DecodeAsWritten(28) == IndexOutOfBounds && Decode(28).None?
    ensures DecodeAsWritten(5).Matrix? && DecodeAsWritten(5).m.Det() == 0 && Decode(5).None?
  {
  }

  /**
   * The bytes on which the written closure reaches `rows[3]`: those that pass
   * its guard and have a second selector of 3, or low four bits all clear
   * (so that the third selector is 3).  61 of the 256 bytes.
   */
  lemma AsWrittenPanics(n: bv8)
    ensures DecodeAsWritten(n) == IndexOutOfBounds <==>
              n & 3 != 3 && n >> 2 != 3 && (n & 15 == 0 || (n >> 2) & 3 == 3)
  {
  }

  /**
   * The bytes on which the written closure yields a matrix that is not a
   * rotation: low four bits 5 or 10, where both selectors name the same axis
   * and the matrix is singular.  32 of the 256 bytes.
   */
  lemma AsWrittenSingular(n: bv8)
    ensures DecodeAsWritten(n).Matrix? && !IsSignedPerm(DecodeAsWritten(n).m) <==> n & 15 == 5 || n & 15 == 10
    ensures n & 15 == 5 || n & 15 == 10 ==> DecodeAsWritten(n).Matrix? && DecodeAsWritten(n).m.Det() == 0
  {
    if DecodeAsWritten(n).Matrix? {
      WrittenMatrixAxes(n);
      if FirstSelector(n) != SecondSelector(n) {
        ThirdSelectorIsRemaining(n);
      }
    }
    if n & 15 == 5 || n & 15 == 10 {
      assert FirstSelector(n) == SecondSelector(n) && FirstSelector(n) != 0;
      assert ThirdSelector(n) < 3;
      var m := DecodeAsWritten(n).m;
      assert m.r0 == Basis(FirstSelector(n)).Scaled(SignBit(n, 4));
      assert m.r1 == Basis(FirstSelector(n)).Scaled(SignBit(n, 5));
    }
  }

  /** Byte 4 (row 0 reads x, row 1 reads y, no sign bits) is the identity rotation. */
  lemma IdentityEncoding()
    ensures Decode(4) == Some(IDENTITY)
  {
  }
}
