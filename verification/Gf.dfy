/** Arithmetic in GF(2^8), section 4.2 of FIPS 197: the reference product, `xtime`, and `Multiply`. */
module Gf {
  /** Product of two bytes read as polynomials over GF(2), not reduced (degree at most 14). */
  function CarrylessMul(x: bv8, y: bv8): bv16 {
    var w, v := x as bv16, y as bv16;
    ((v & 1) * w) ^ (((v >> 1) & 1) * (w << 1)) ^ (((v >> 2) & 1) * (w << 2)) ^ (((v >> 3) & 1) * (w << 3)) ^
    (((v >> 4) & 1) * (w << 4)) ^ (((v >> 5) & 1) * (w << 5)) ^ (((v >> 6) & 1) * (w << 6)) ^ (((v >> 7) & 1) * (w << 7))
  }

  /** Remainder modulo x^8 + x^4 + x^3 + x + 1 by long division: the divisor 0x11b, shifted, is added wherever
      the bit under its leading term is set. */
  function Reduce(p: bv16): bv16 {
    var p6 := p ^ (((p >> 14) & 1) * 0x46c0);
    var p5 := p6 ^ (((p6 >> 13) & 1) * 0x2360);
    var p4 := p5 ^ (((p5 >> 12) & 1) * 0x11b0);
    var p3 := p4 ^ (((p4 >> 11) & 1) * 0x08d8);
    var p2 := p3 ^ (((p3 >> 10) & 1) * 0x046c);
    var p1 := p2 ^ (((p2 >> 9) & 1) * 0x0236);
    p1 ^ (((p1 >> 8) & 1) * 0x011b)
  }

  lemma ProductDegree(x: bv8, y: bv8)
    ensures CarrylessMul(x, y) < 0x8000
  {}

  lemma RemainderDegree(p: bv16)
    requires p < 0x8000
    ensures Reduce(p) < 0x100
  {}

  /** The product of the field, section 4.2 of FIPS 197. */
  function Mul(x: bv8, y: bv8): bv8 {
    ProductDegree(x, y);
    RemainderDegree(CarrylessMul(x, y));
    Reduce(CarrylessMul(x, y)) as bv8
  }

  function Xtime(x: bv8): bv8 {
    (x << 1) ^ (((x >> 7) & 1) * 0x1b)
  }

  // The macro and the function of the same name: sums of the first five multiples by powers of x.
  function Multiply(x: bv8, y: bv8): bv8 {
    ((y & 1) * x) ^
    (((y >> 1) & 1) * Xtime(x)) ^
    (((y >> 2) & 1) * Xtime(Xtime(x))) ^
    (((y >> 3) & 1) * Xtime(Xtime(Xtime(x)))) ^
    (((y >> 4) & 1) * Xtime(Xtime(Xtime(Xtime(x)))))
  }

  /** `Multiply` is the product of the field for every x, as long as its second argument fits in five bits. */
  lemma MultiplyIsMul(x: bv8, y: bv8)
    requires y < 32
    ensures Multiply(x, y) == Mul(x, y)
  {
    hide Multiply, Mul;
    if y < 8 {
      MultiplyQuarter0(x, y);
    } else if y < 16 {
      MultiplyQuarter1(x, y);
    } else if y < 24 {
      MultiplyQuarter2(x, y);
    } else {
      MultiplyQuarter3(x, y);
    }
  }

  lemma MultiplyQuarter0(x: bv8, y: bv8)
    requires y < 8
    ensures Multiply(x, y) == Mul(x, y)
  {}

  lemma MultiplyQuarter1(x: bv8, y: bv8)
    requires 8 <= y < 16
    ensures Multiply(x, y) == Mul(x, y)
  {}

  lemma MultiplyQuarter2(x: bv8, y: bv8)
    requires 16 <= y < 24
    ensures Multiply(x, y) == Mul(x, y)
  {}

  lemma MultiplyQuarter3(x: bv8, y: bv8)
    requires 24 <= y < 32
    ensures Multiply(x, y) == Mul(x, y)
  {}

  /** `Multiply` reads bits 0 to 4 of y only, so it is the product of the field exactly when the other bits of y are
      zero or x is: a larger factor always gives a wrong product of a non-zero byte. */
  lemma MultiplyDropsHighBits(x: bv8, y: bv8)
    ensures Multiply(x, y) == Mul(x, y & 0x1f)
    ensures Multiply(x, y) == Mul(x, y) <==> x == 0 || y < 32
  {
    hide Mul;
    assert Multiply(x, y) == Multiply(x, y & 0x1f);
    MultiplyIsMul(x, y & 0x1f);
    if y < 32 {
      assert y & 0x1f == y;
    } else if x == 0 {
      ProductsOfZero(y);
    } else if y < 96 {
      HighBitsMatter0(x, y);
    } else if y < 160 {
      HighBitsMatter1(x, y);
    } else if y < 224 {
      HighBitsMatter2(x, y);
    } else {
      HighBitsMatter3(x, y);
    }
  }

  lemma ProductsOfZero(y: bv8)
    ensures Mul(0, y) == Mul(0, y & 0x1f)
  {}

  lemma HighBitsMatter0(x: bv8, y: bv8)
    requires 32 <= y < 96 && x != 0
    ensures Mul(x, y) != Mul(x, y & 0x1f)
  {}

  lemma HighBitsMatter1(x: bv8, y: bv8)
    requires 96 <= y < 160 && x != 0
    ensures Mul(x, y) != Mul(x, y & 0x1f)
  {}

  lemma HighBitsMatter2(x: bv8, y: bv8)
    requires 160 <= y < 224 && x != 0
    ensures Mul(x, y) != Mul(x, y & 0x1f)
  {}

  lemma HighBitsMatter3(x: bv8, y: bv8)
    requires 224 <= y && x != 0
    ensures Mul(x, y) != Mul(x, y & 0x1f)
  {}

  /** Addition in the field. */
  function Add(x: bv8, y: bv8): bv8 { x ^ y }

  function Sum3(p: bv8, q: bv8, r: bv8): bv8 { Add(Add(p, q), r) }

  function Sum4(p: bv8, q: bv8, r: bv8, s: bv8): bv8 { Add(Add(p, q), Add(r, s)) }

  lemma AddCommutes(x: bv8, y: bv8)
    ensures Add(x, y) == Add(y, x)
  {}

  lemma AddAssociates(x: bv8, y: bv8, z: bv8)
    ensures Add(Add(x, y), z) == Add(x, Add(y, z))
  {}

  lemma AddCancels(x: bv8, y: bv8)
    ensures Add(x, Add(x, y)) == y
  {}

  lemma AddSwaps(p: bv8, p': bv8, q: bv8, q': bv8)
    ensures Add(Add(p, p'), Add(q, q')) == Add(Add(p, q), Add(p', q'))
  {
    hide Add;
    AddAssociates(p, p', Add(q, q'));
    AddAssociates(p', q, q');
    AddCommutes(p', q);
    AddAssociates(q, p', q');
    AddAssociates(p, q, Add(p', q'));
  }

  lemma Sum3Splits(p: bv8, p': bv8, q: bv8, q': bv8, r: bv8, r': bv8)
    ensures Sum3(Add(p, p'), Add(q, q'), Add(r, r')) == Add(Sum3(p, q, r), Sum3(p', q', r'))
  {
    hide Add;
    AddSwaps(p, p', q, q');
    AddSwaps(Add(p, q), Add(p', q'), r, r');
  }

  lemma Sum4Splits(p: bv8, p': bv8, q: bv8, q': bv8, r: bv8, r': bv8, s: bv8, s': bv8)
    ensures Sum4(Add(p, p'), Add(q, q'), Add(r, r'), Add(s, s')) == Add(Sum4(p, q, r, s), Sum4(p', q', r', s'))
  {
    hide Add;
    AddSwaps(p, p', q, q');
    AddSwaps(r, r', s, s');
    AddSwaps(Add(p, q), Add(p', q'), Add(r, s), Add(r', s'));
  }

  lemma Sum4Rotates(p: bv8, q: bv8, r: bv8, s: bv8)
    ensures Sum4(p, q, r, s) == Sum4(s, p, q, r)
  {
    hide Add;
    AddCommutes(Add(p, q), Add(r, s));
    AddCommutes(r, s);
    AddSwaps(s, r, p, q);
    AddCommutes(r, q);
  }

  // The sum of four sums, taken column by column instead of row by row.
  lemma Transpose(e0: bv8, e1: bv8, e2: bv8, e3: bv8, b0: bv8, b1: bv8, b2: bv8, b3: bv8,
                  d0: bv8, d1: bv8, d2: bv8, d3: bv8, n0: bv8, n1: bv8, n2: bv8, n3: bv8)
    ensures Sum4(Sum4(e0, e1, e2, e3), Sum4(b0, b1, b2, b3), Sum4(d0, d1, d2, d3), Sum4(n0, n1, n2, n3)) ==
            Sum4(Sum4(e0, b0, d0, n0), Sum4(e1, b1, d1, n1), Sum4(e2, b2, d2, n2), Sum4(e3, b3, d3, n3))
  {
    hide Add;
    Sum4Splits(Add(e0, e1), Add(e2, e3), Add(b0, b1), Add(b2, b3), Add(d0, d1), Add(d2, d3), Add(n0, n1), Add(n2, n3));
    Sum4Splits(e0, e1, b0, b1, d0, d1, n0, n1);
    Sum4Splits(e2, e3, b2, b3, d2, d3, n2, n3);
  }

  // The same, with each row rotated one place further than the one before.
  lemma TransposeRotated(e0: bv8, e1: bv8, e2: bv8, e3: bv8, b0: bv8, b1: bv8, b2: bv8, b3: bv8,
                         d0: bv8, d1: bv8, d2: bv8, d3: bv8, n0: bv8, n1: bv8, n2: bv8, n3: bv8)
    ensures Sum4(Sum4(e0, e1, e2, e3), Sum4(b0, b1, b2, b3), Sum4(d0, d1, d2, d3), Sum4(n0, n1, n2, n3)) ==
            Sum4(Sum4(e0, b3, d2, n1), Sum4(e1, b0, d3, n2), Sum4(e2, b1, d0, n3), Sum4(e3, b2, d1, n0))
  {
    hide Sum4;
    Sum4Rotates(b0, b1, b2, b3);
    Sum4Rotates(d0, d1, d2, d3);
    Sum4Rotates(d3, d0, d1, d2);
    Sum4Rotates(n0, n1, n2, n3);
    Sum4Rotates(n3, n0, n1, n2);
    Sum4Rotates(n2, n3, n0, n1);
    Transpose(e0, e1, e2, e3, b3, b0, b1, b2, d2, d3, d0, d1, n1, n2, n3, n0);
  }

  lemma XtimeAdditive(x: bv8, y: bv8)
    ensures Xtime(Add(x, y)) == Add(Xtime(x), Xtime(y))
  {}

  lemma SquareAdditive(x: bv8, y: bv8)
    ensures Xtime(Xtime(Add(x, y))) == Add(Xtime(Xtime(x)), Xtime(Xtime(y)))
  {
    XtimeAdditive(x, y);
    XtimeAdditive(Xtime(x), Xtime(y));
  }

  lemma CubeAdditive(x: bv8, y: bv8)
    ensures Xtime(Xtime(Xtime(Add(x, y)))) == Add(Xtime(Xtime(Xtime(x))), Xtime(Xtime(Xtime(y))))
  {
    SquareAdditive(x, y);
    XtimeAdditive(Xtime(Xtime(x)), Xtime(Xtime(y)));
  }

  // Products by the constants of the two column mixes, in terms of `Xtime` alone.
  function Times2(x: bv8): bv8 { Xtime(x) }
  function Times3(x: bv8): bv8 { Add(Xtime(x), x) }
  function Times9(x: bv8): bv8 { Add(Xtime(Xtime(Xtime(x))), x) }
  function TimesB(x: bv8): bv8 { Sum3(Xtime(Xtime(Xtime(x))), Xtime(x), x) }
  function TimesD(x: bv8): bv8 { Sum3(Xtime(Xtime(Xtime(x))), Xtime(Xtime(x)), x) }
  function TimesE(x: bv8): bv8 { Sum3(Xtime(Xtime(Xtime(x))), Xtime(Xtime(x)), Xtime(x)) }

  lemma Times3Additive(x: bv8, y: bv8)
    ensures Times3(Add(x, y)) == Add(Times3(x), Times3(y))
  {
    hide Xtime, Add;
    XtimeAdditive(x, y);
    CubeAdditive(x, y);
    AddSwaps(Xtime(x), Xtime(y), x, y);
  }

  lemma Times9Additive(x: bv8, y: bv8)
    ensures Times9(Add(x, y)) == Add(Times9(x), Times9(y))
  {
    hide Xtime, Add;
    XtimeAdditive(x, y);
    CubeAdditive(x, y);
    AddSwaps(Xtime(Xtime(Xtime(x))), Xtime(Xtime(Xtime(y))), x, y);
  }

  lemma TimesBAdditive(x: bv8, y: bv8)
    ensures TimesB(Add(x, y)) == Add(TimesB(x), TimesB(y))
  {
    hide Xtime, Add, Sum3;
    XtimeAdditive(x, y);
    SquareAdditive(x, y);
    CubeAdditive(x, y);
    Sum3Splits(Xtime(Xtime(Xtime(x))), Xtime(Xtime(Xtime(y))), Xtime(x), Xtime(y), x, y);
  }

  lemma TimesDAdditive(x: bv8, y: bv8)
    ensures TimesD(Add(x, y)) == Add(TimesD(x), TimesD(y))
  {
    hide Xtime, Add, Sum3;
    XtimeAdditive(x, y);
    SquareAdditive(x, y);
    CubeAdditive(x, y);
    Sum3Splits(Xtime(Xtime(Xtime(x))), Xtime(Xtime(Xtime(y))), Xtime(Xtime(x)), Xtime(Xtime(y)), x, y);
  }

  lemma TimesEAdditive(x: bv8, y: bv8)
    ensures TimesE(Add(x, y)) == Add(TimesE(x), TimesE(y))
  {
    hide Xtime, Add, Sum3;
    XtimeAdditive(x, y);
    SquareAdditive(x, y);
    CubeAdditive(x, y);
    Sum3Splits(Xtime(Xtime(Xtime(x))), Xtime(Xtime(Xtime(y))), Xtime(Xtime(x)), Xtime(Xtime(y)), Xtime(x), Xtime(y));
  }

  lemma Times2OfSum(p: bv8, q: bv8, r: bv8, s: bv8)
    ensures Times2(Sum4(p, q, r, s)) == Sum4(Times2(p), Times2(q), Times2(r), Times2(s))
  {
    hide Xtime, Add;
    XtimeAdditive(p, q);
    XtimeAdditive(r, s);
    XtimeAdditive(Add(p, q), Add(r, s));
  }

  lemma Times3OfSum(p: bv8, q: bv8, r: bv8, s: bv8)
    ensures Times3(Sum4(p, q, r, s)) == Sum4(Times3(p), Times3(q), Times3(r), Times3(s))
  {
    hide Times3, Add;
    Times3Additive(p, q);
    Times3Additive(r, s);
    Times3Additive(Add(p, q), Add(r, s));
  }

  lemma Times9OfSum(p: bv8, q: bv8, r: bv8, s: bv8)
    ensures Times9(Sum4(p, q, r, s)) == Sum4(Times9(p), Times9(q), Times9(r), Times9(s))
  {
    hide Times9, Add;
    Times9Additive(p, q);
    Times9Additive(r, s);
    Times9Additive(Add(p, q), Add(r, s));
  }

  lemma TimesBOfSum(p: bv8, q: bv8, r: bv8, s: bv8)
    ensures TimesB(Sum4(p, q, r, s)) == Sum4(TimesB(p), TimesB(q), TimesB(r), TimesB(s))
  {
    hide TimesB, Add;
    TimesBAdditive(p, q);
    TimesBAdditive(r, s);
    TimesBAdditive(Add(p, q), Add(r, s));
  }

  lemma TimesDOfSum(p: bv8, q: bv8, r: bv8, s: bv8)
    ensures TimesD(Sum4(p, q, r, s)) == Sum4(TimesD(p), TimesD(q), TimesD(r), TimesD(s))
  {
    hide TimesD, Add;
    TimesDAdditive(p, q);
    TimesDAdditive(r, s);
    TimesDAdditive(Add(p, q), Add(r, s));
  }

  lemma TimesEOfSum(p: bv8, q: bv8, r: bv8, s: bv8)
    ensures TimesE(Sum4(p, q, r, s)) == Sum4(TimesE(p), TimesE(q), TimesE(r), TimesE(s))
  {
    hide TimesE, Add;
    TimesEAdditive(p, q);
    TimesEAdditive(r, s);
    TimesEAdditive(Add(p, q), Add(r, s));
  }

  /** One entry of the matrix product of section 5.1.3 of FIPS 197. */
  function Mix(a: bv8, b: bv8, c: bv8, d: bv8): bv8 {
    Sum4(Times2(a), Times3(b), c, d)
  }

  /** One entry of the matrix product of section 5.3.3 of FIPS 197. */
  function InvMix(a: bv8, b: bv8, c: bv8, d: bv8): bv8 {
    Sum4(TimesE(a), TimesB(b), TimesD(c), Times9(d))
  }

  // The product of the two matrices, one entry of the first row at a time, is the identity.
  lemma InverseMatrix(x: bv8)
    ensures Sum4(TimesE(Times2(x)), TimesB(x), TimesD(x), Times9(Times3(x))) == x
    ensures Sum4(TimesE(Times3(x)), TimesB(Times2(x)), TimesD(x), Times9(x)) == 0
    ensures Sum4(TimesE(x), TimesB(Times3(x)), TimesD(Times2(x)), Times9(x)) == 0
    ensures Sum4(TimesE(x), TimesB(x), TimesD(Times3(x)), Times9(Times2(x))) == 0
  {
    hide Times2, Times3, Times9, TimesB, TimesD, TimesE, Sum4;
    InverseMatrixLeft(x);
    InverseMatrixRight(x);
  }

  lemma InverseMatrixLeft(x: bv8)
    ensures Sum4(TimesE(Times2(x)), TimesB(x), TimesD(x), Times9(Times3(x))) == x
    ensures Sum4(TimesE(Times3(x)), TimesB(Times2(x)), TimesD(x), Times9(x)) == 0
  {}

  lemma InverseMatrixRight(x: bv8)
    ensures Sum4(TimesE(x), TimesB(Times3(x)), TimesD(Times2(x)), Times9(x)) == 0
    ensures Sum4(TimesE(x), TimesB(x), TimesD(Times3(x)), Times9(Times2(x))) == 0
  {}

  lemma SumWithZeros(x: bv8)
    ensures Sum4(x, 0, 0, 0) == x
  {}

  /** A row of the inverse matrix applied to the mixed column gives back the byte of that row. */
  lemma InvMixAfterMix(a: bv8, b: bv8, c: bv8, d: bv8)
    ensures InvMix(Mix(a, b, c, d), Mix(b, c, d, a), Mix(c, d, a, b), Mix(d, a, b, c)) == a
  {
    hide Times2, Times3, Times9, TimesB, TimesD, TimesE, Sum4;
    TimesEOfSum(Times2(a), Times3(b), c, d);
    TimesBOfSum(Times2(b), Times3(c), d, a);
    TimesDOfSum(Times2(c), Times3(d), a, b);
    Times9OfSum(Times2(d), Times3(a), b, c);
    TransposeRotated(TimesE(Times2(a)), TimesE(Times3(b)), TimesE(c), TimesE(d),
              TimesB(Times2(b)), TimesB(Times3(c)), TimesB(d), TimesB(a),
              TimesD(Times2(c)), TimesD(Times3(d)), TimesD(a), TimesD(b),
              Times9(Times2(d)), Times9(Times3(a)), Times9(b), Times9(c));
    InverseMatrix(a);
    InverseMatrix(b);
    InverseMatrix(c);
    InverseMatrix(d);
    SumWithZeros(a);
  }

  /** And the other way round. */
  lemma MixAfterInvMix(a: bv8, b: bv8, c: bv8, d: bv8)
    ensures Mix(InvMix(a, b, c, d), InvMix(b, c, d, a), InvMix(c, d, a, b), InvMix(d, a, b, c)) == a
  {
    hide Times2, Times3, Times9, TimesB, TimesD, TimesE, Sum4;
    Times2OfSum(TimesE(a), TimesB(b), TimesD(c), Times9(d));
    Times3OfSum(TimesE(b), TimesB(c), TimesD(d), Times9(a));
    TransposeRotated(Times2(TimesE(a)), Times2(TimesB(b)), Times2(TimesD(c)), Times2(Times9(d)),
              Times3(TimesE(b)), Times3(TimesB(c)), Times3(TimesD(d)), Times3(Times9(a)),
              TimesE(c), TimesB(d), TimesD(a), Times9(b),
              TimesE(d), TimesB(a), TimesD(b), Times9(c));
    MatrixInverse(a);
    MatrixInverse(b);
    MatrixInverse(c);
    MatrixInverse(d);
    SumWithZeros(a);
  }

  lemma MatrixInverse(x: bv8)
    ensures Sum4(Times2(TimesE(x)), Times3(Times9(x)), TimesD(x), TimesB(x)) == x
    ensures Sum4(Times2(TimesB(x)), Times3(TimesE(x)), Times9(x), TimesD(x)) == 0
    ensures Sum4(Times2(TimesD(x)), Times3(TimesB(x)), TimesE(x), Times9(x)) == 0
    ensures Sum4(Times2(Times9(x)), Times3(TimesD(x)), TimesB(x), TimesE(x)) == 0
  {
    hide Times2, Times3, Times9, TimesB, TimesD, TimesE, Sum4;
    MatrixInverseLeft(x);
    MatrixInverseRight(x);
  }

  lemma MatrixInverseLeft(x: bv8)
    ensures Sum4(Times2(TimesE(x)), Times3(Times9(x)), TimesD(x), TimesB(x)) == x
    ensures Sum4(Times2(TimesB(x)), Times3(TimesE(x)), Times9(x), TimesD(x)) == 0
  {}

  lemma MatrixInverseRight(x: bv8)
    ensures Sum4(Times2(TimesD(x)), Times3(TimesB(x)), TimesE(x), Times9(x)) == 0
    ensures Sum4(Times2(Times9(x)), Times3(TimesD(x)), TimesB(x), TimesE(x)) == 0
  {}

  lemma TimesAreProducts(x: bv8)
    ensures Times2(x) == Mul(x, 0x02) && Times3(x) == Mul(x, 0x03)
    ensures Times9(x) == Mul(x, 0x09) && TimesB(x) == Mul(x, 0x0b)
    ensures TimesD(x) == Mul(x, 0x0d) && TimesE(x) == Mul(x, 0x0e)
    ensures x == Mul(x, 0x01)
  {
    hide Multiply, Mul, Times2, Times3, Times9, TimesB, TimesD, TimesE;
    MultiplyByConstants(x);
    MultiplyIsMul(x, 0x01);
    MultiplyIsMul(x, 0x02);
    MultiplyIsMul(x, 0x03);
    MultiplyIsMul(x, 0x09);
    MultiplyIsMul(x, 0x0b);
    MultiplyIsMul(x, 0x0d);
    MultiplyIsMul(x, 0x0e);
  }

  lemma MultiplyByConstants(x: bv8)
    ensures Times2(x) == Multiply(x, 0x02) && Times3(x) == Multiply(x, 0x03)
    ensures Times9(x) == Multiply(x, 0x09) && TimesB(x) == Multiply(x, 0x0b)
    ensures TimesD(x) == Multiply(x, 0x0d) && TimesE(x) == Multiply(x, 0x0e)
    ensures x == Multiply(x, 0x01)
  {}

  /** `Mix` is a row of the matrix product of section 5.1.3 of FIPS 197, with the field's own product; the other
      rows are the same with the column rotated. */
  lemma MixIsMatrixRow(a: bv8, b: bv8, c: bv8, d: bv8)
    ensures Mix(a, b, c, d) == Sum4(Mul(a, 0x02), Mul(b, 0x03), Mul(c, 0x01), Mul(d, 0x01))
  {
    hide Times2, Times3, Mul, Sum4;
    TimesAreProducts(a);
    TimesAreProducts(b);
    TimesAreProducts(c);
    TimesAreProducts(d);
  }

  /** `InvMix` is a row of the matrix product of section 5.3.3 of FIPS 197. */
  lemma InvMixIsMatrixRow(a: bv8, b: bv8, c: bv8, d: bv8)
    ensures InvMix(a, b, c, d) == Sum4(Mul(a, 0x0e), Mul(b, 0x0b), Mul(c, 0x0d), Mul(d, 0x09))
  {
    hide Times9, TimesB, TimesD, TimesE, Mul, Sum4;
    TimesAreProducts(a);
    TimesAreProducts(b);
    TimesAreProducts(c);
    TimesAreProducts(d);
  }

  /** The form the code computes: with Tmp the sum of the column, each byte is changed by Tmp and by `xtime` of
      its sum with the next byte. */
  lemma MixFromSums(a: bv8, b: bv8, c: bv8, d: bv8)
    ensures Add(a, Add(Xtime(Add(a, b)), Sum4(a, b, c, d))) == Mix(a, b, c, d)
  {
    hide Xtime, Add;
    XtimeAdditive(a, b);
    var p, cd := Add(Xtime(a), Xtime(b)), Add(c, d);
    AddAssociates(a, b, cd);
    AddCommutes(p, Add(a, Add(b, cd)));
    AddAssociates(a, Add(b, cd), p);
    AddCancels(a, Add(Add(b, cd), p));
    AddCommutes(Add(b, cd), p);
    AddAssociates(p, b, cd);
    AddAssociates(Xtime(a), Xtime(b), b);
  }

  /** The form the code computes for the inverse: four calls of `Multiply`. */
  lemma InvMixFromMultiply(a: bv8, b: bv8, c: bv8, d: bv8)
    ensures Multiply(a, 0x0e) ^ Multiply(b, 0x0b) ^ Multiply(c, 0x0d) ^ Multiply(d, 0x09) == InvMix(a, b, c, d)
  {
    hide Multiply, Times9, TimesB, TimesD, TimesE;
    MultiplyByConstants(a);
    MultiplyByConstants(b);
    MultiplyByConstants(c);
    MultiplyByConstants(d);
  }
}
