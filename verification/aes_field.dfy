/** Arithmetic on bytes as elements of GF(2^8), as aes.c computes it and as
    FIPS 197 section 4.2 defines it. */
module AesField {

  // ---- the code's arithmetic ----

  /** Multiplication by {02} as one shift and one conditional reduction. */
  function Xtime(x: bv8): bv8 {
    (x << 1) ^ (((x >> 7) & 1) * 0x1b)
  }

  /** Multiplication by a constant below {20}, one term for each of its five bits. */
  function Multiply(x: bv8, y: bv8): bv8 {
    ((y & 1) * x) ^
    (((y >> 1) & 1) * Xtime(x)) ^
    (((y >> 2) & 1) * Xtime(Xtime(x))) ^
    (((y >> 3) & 1) * Xtime(Xtime(Xtime(x)))) ^
    (((y >> 4) & 1) * Xtime(Xtime(Xtime(Xtime(x)))))
  }

  // ---- the field of FIPS 197: polynomial product modulo x^8 + x^4 + x^3 + x + 1 ----

  function Term(a: bv8, b: bv8, i: bv8): bv16
    requires i < 8
  {
    (((a >> i) & 1) as bv16) * ((b as bv16) << i)
  }

  function PolyMul(a: bv8, b: bv8): bv16 {
    Term(a, b, 0) ^ Term(a, b, 1) ^ Term(a, b, 2) ^ Term(a, b, 3) ^
    Term(a, b, 4) ^ Term(a, b, 5) ^ Term(a, b, 6) ^ Term(a, b, 7)
  }

  /** Cancels the coefficient of x^(8 + d), if it is set, with a multiple of the modulus. */
  function Cancel(p: bv16, d: bv8): bv16
    requires d < 8
  {
    p ^ (((p >> (8 + d)) & 1) * (0x11b << d))
  }

  function Reduce(p: bv16): bv8 {
    (Cancel(Cancel(Cancel(Cancel(Cancel(Cancel(Cancel(p, 6), 5), 4), 3), 2), 1), 0) & 0xFF) as bv8
  }

  function GfMul(a: bv8, b: bv8): bv8 {
    Reduce(PolyMul(a, b))
  }

  /** Addition in the field. A function of its own keeps long sums from being
      flattened, so that they can be rearranged step by step. */
  function Add(x: bv8, y: bv8): bv8 {
    x ^ y
  }

  function Sum4(x: bv8, y: bv8, z: bv8, w: bv8): bv8 {
    Add(Add(x, y), Add(z, w))
  }

  // ---- the code's arithmetic is the field's ----

  lemma Times1(x: bv8)
    ensures GfMul(0x01, x) == x
  {
  }

  lemma Times2(x: bv8)
    ensures GfMul(0x02, x) == Xtime(x)
  {
  }

  lemma Times3(x: bv8)
    ensures GfMul(0x03, x) == Add(Xtime(x), x)
  {
  }

  lemma Times9(x: bv8)
    ensures Multiply(x, 0x09) == GfMul(0x09, x) == Add(Xtime(Xtime(Xtime(x))), x)
  {
  }

  lemma TimesB(x: bv8)
    ensures Multiply(x, 0x0b) == GfMul(0x0b, x) == Add(Add(Xtime(Xtime(Xtime(x))), Xtime(x)), x)
  {
  }

  lemma TimesD(x: bv8)
    ensures Multiply(x, 0x0d) == GfMul(0x0d, x) == Add(Add(Xtime(Xtime(Xtime(x))), Xtime(Xtime(x))), x)
  {
  }

  lemma TimesE(x: bv8)
    ensures Multiply(x, 0x0e) == GfMul(0x0e, x) == Add(Add(Xtime(Xtime(Xtime(x))), Xtime(Xtime(x))), Xtime(x))
  {
  }

  /** For the four constants InvMixColumns uses, the code multiplies in the field. */
  lemma MultiplyIsGfMul(x: bv8, k: bv8)
    requires k == 0x09 || k == 0x0b || k == 0x0d || k == 0x0e
    ensures Multiply(x, k) == GfMul(k, x)
  {
    hide Multiply, GfMul;
    Times9(x);
    TimesB(x);
    TimesD(x);
    TimesE(x);
  }

  // ---- multiplication by a matrix constant is additive ----

  lemma XtimeAdditive(x: bv8, y: bv8)
    ensures Xtime(Add(x, y)) == Add(Xtime(x), Xtime(y))
  {
  }

  lemma XtimeTwiceAdditive(x: bv8, y: bv8)
    ensures Xtime(Xtime(Add(x, y))) == Add(Xtime(Xtime(x)), Xtime(Xtime(y)))
  {
    XtimeAdditive(x, y);
    XtimeAdditive(Xtime(x), Xtime(y));
  }

  lemma XtimeThriceAdditive(x: bv8, y: bv8)
    ensures Xtime(Xtime(Xtime(Add(x, y)))) == Add(Xtime(Xtime(Xtime(x))), Xtime(Xtime(Xtime(y))))
  {
    XtimeTwiceAdditive(x, y);
    XtimeAdditive(Xtime(Xtime(x)), Xtime(Xtime(y)));
  }

  lemma AddAssociative(x: bv8, y: bv8, z: bv8)
    ensures Add(Add(x, y), z) == Add(x, Add(y, z))
  {
  }

  lemma AddCommutative(x: bv8, y: bv8)
    ensures Add(x, y) == Add(y, x)
  {
  }

  lemma Interchange(x: bv8, y: bv8, z: bv8, w: bv8)
    ensures Add(Add(x, y), Add(z, w)) == Add(Add(x, z), Add(y, w))
  {
    AddAssociative(x, y, Add(z, w));
    AddAssociative(y, z, w);
    AddCommutative(y, z);
    AddAssociative(z, y, w);
    AddAssociative(x, z, Add(y, w));
  }

  lemma Times3Additive(x: bv8, y: bv8)
    ensures GfMul(0x03, Add(x, y)) == Add(GfMul(0x03, x), GfMul(0x03, y))
  {
    Times3(x);
    Times3(y);
    Times3(Add(x, y));
    XtimeAdditive(x, y);
    Interchange(Xtime(x), Xtime(y), x, y);
  }

  lemma Times9Additive(x: bv8, y: bv8)
    ensures GfMul(0x09, Add(x, y)) == Add(GfMul(0x09, x), GfMul(0x09, y))
  {
    Times9(x);
    Times9(y);
    Times9(Add(x, y));
    XtimeThriceAdditive(x, y);
    Interchange(Xtime(Xtime(Xtime(x))), Xtime(Xtime(Xtime(y))), x, y);
  }

  lemma TimesBAdditive(x: bv8, y: bv8)
    ensures GfMul(0x0b, Add(x, y)) == Add(GfMul(0x0b, x), GfMul(0x0b, y))
  {
    var x3, y3 := Xtime(Xtime(Xtime(x))), Xtime(Xtime(Xtime(y)));
    TimesB(x);
    TimesB(y);
    TimesB(Add(x, y));
    XtimeAdditive(x, y);
    XtimeThriceAdditive(x, y);
    Interchange(x3, y3, Xtime(x), Xtime(y));
    Interchange(Add(x3, Xtime(x)), Add(y3, Xtime(y)), x, y);
  }

  lemma TimesDAdditive(x: bv8, y: bv8)
    ensures GfMul(0x0d, Add(x, y)) == Add(GfMul(0x0d, x), GfMul(0x0d, y))
  {
    var x2, y2 := Xtime(Xtime(x)), Xtime(Xtime(y));
    TimesD(x);
    TimesD(y);
    TimesD(Add(x, y));
    XtimeThriceAdditive(x, y);
    XtimeTwiceAdditive(x, y);
    Interchange(Xtime(x2), Xtime(y2), x2, y2);
    Interchange(Add(Xtime(x2), x2), Add(Xtime(y2), y2), x, y);
  }

  lemma TimesEAdditive(x: bv8, y: bv8)
    ensures GfMul(0x0e, Add(x, y)) == Add(GfMul(0x0e, x), GfMul(0x0e, y))
  {
    var x2, y2 := Xtime(Xtime(x)), Xtime(Xtime(y));
    TimesE(x);
    TimesE(y);
    TimesE(Add(x, y));
    XtimeAdditive(x, y);
    XtimeTwiceAdditive(x, y);
    XtimeThriceAdditive(x, y);
    Interchange(Xtime(x2), Xtime(y2), x2, y2);
    Interchange(Add(Xtime(x2), x2), Add(Xtime(y2), y2), Xtime(x), Xtime(y));
  }

  /** The entries of the two matrices. */
  predicate IsCoefficient(k: bv8) {
    k == 0x01 || k == 0x02 || k == 0x03 || k == 0x09 || k == 0x0b || k == 0x0d || k == 0x0e
  }

  lemma TimesAdditive(k: bv8, x: bv8, y: bv8)
    requires IsCoefficient(k)
    ensures GfMul(k, Add(x, y)) == Add(GfMul(k, x), GfMul(k, y))
  {
    match k
    case 0x01 => Times1(x); Times1(y); Times1(Add(x, y));
    case 0x02 => Times2(x); Times2(y); Times2(Add(x, y)); XtimeAdditive(x, y);
    case 0x03 => Times3Additive(x, y);
    case 0x09 => Times9Additive(x, y);
    case 0x0b => TimesBAdditive(x, y);
    case 0x0d => TimesDAdditive(x, y);
    case _ => TimesEAdditive(x, y);
  }

  // ---- products of rows of the two matrices ----

  /** Entry of a matrix product whose row holds p, q, r, s. */
  function RowTimes(p: bv8, q: bv8, r: bv8, s: bv8, a: bv8, b: bv8, c: bv8, d: bv8): bv8 {
    Sum4(GfMul(p, a), GfMul(q, b), GfMul(r, c), GfMul(s, d))
  }

  lemma TimesSum4(k: bv8, x: bv8, y: bv8, z: bv8, w: bv8)
    requires IsCoefficient(k)
    ensures GfMul(k, Sum4(x, y, z, w)) == Sum4(GfMul(k, x), GfMul(k, y), GfMul(k, z), GfMul(k, w))
  {
    TimesAdditive(k, Add(x, y), Add(z, w));
    TimesAdditive(k, x, y);
    TimesAdditive(k, z, w);
  }

  /** Summing a 4 by 4 array by rows or by columns gives the same. */
  lemma Transpose(a0: bv8, a1: bv8, a2: bv8, a3: bv8, b0: bv8, b1: bv8, b2: bv8, b3: bv8,
                  c0: bv8, c1: bv8, c2: bv8, c3: bv8, d0: bv8, d1: bv8, d2: bv8, d3: bv8)
    ensures Sum4(Sum4(a0, a1, a2, a3), Sum4(b0, b1, b2, b3), Sum4(c0, c1, c2, c3), Sum4(d0, d1, d2, d3))
         == Sum4(Sum4(a0, b0, c0, d0), Sum4(a1, b1, c1, d1), Sum4(a2, b2, c2, d2), Sum4(a3, b3, c3, d3))
  {
    Interchange(Add(a0, a1), Add(a2, a3), Add(b0, b1), Add(b2, b3));
    Interchange(Add(c0, c1), Add(c2, c3), Add(d0, d1), Add(d2, d3));
    Interchange(a0, a1, b0, b1);
    Interchange(a2, a3, b2, b3);
    Interchange(c0, c1, d0, d1);
    Interchange(c2, c3, d2, d3);
    Interchange(Add(Add(a0, b0), Add(a1, b1)), Add(Add(a2, b2), Add(a3, b3)),
                Add(Add(c0, d0), Add(c1, d1)), Add(Add(c2, d2), Add(c3, d3)));
    Interchange(Add(a0, b0), Add(a1, b1), Add(c0, d0), Add(c1, d1));
    Interchange(Add(a2, b2), Add(a3, b3), Add(c2, d2), Add(c3, d3));
  }

  lemma Rotate(x: bv8, y: bv8, z: bv8, w: bv8)
    ensures Sum4(y, z, w, x) == Sum4(x, y, z, w)
  {
    AddCommutative(w, x);
    Interchange(y, z, x, w);
    AddCommutative(Add(y, x), Add(z, w));
    AddCommutative(y, x);
    AddCommutative(Add(z, w), Add(x, y));
  }

  /** The coefficient of a in the product of row (p, q, r, s) with the column (u, x, w, v). */
  function Coefficient(p: bv8, q: bv8, r: bv8, s: bv8, u: bv8, v: bv8, w: bv8, x: bv8, a: bv8): bv8 {
    Sum4(GfMul(p, GfMul(u, a)), GfMul(q, GfMul(v, a)), GfMul(r, GfMul(w, a)), GfMul(s, GfMul(x, a)))
  }

  /** A row times a circulant matrix is computed coefficient by coefficient. */
  lemma RowTimesCirculant(p: bv8, q: bv8, r: bv8, s: bv8, u: bv8, v: bv8, w: bv8, x: bv8, a: bv8, b: bv8, c: bv8,
                          d: bv8)
    requires IsCoefficient(p) && IsCoefficient(q) && IsCoefficient(r) && IsCoefficient(s)
    ensures RowTimes(p, q, r, s, RowTimes(u, v, w, x, a, b, c, d), RowTimes(u, v, w, x, b, c, d, a),
                     RowTimes(u, v, w, x, c, d, a, b), RowTimes(u, v, w, x, d, a, b, c))
         == Sum4(Coefficient(p, q, r, s, u, x, w, v, a), Coefficient(p, q, r, s, v, u, x, w, b),
                 Coefficient(p, q, r, s, w, v, u, x, c), Coefficient(p, q, r, s, x, w, v, u, d))
  {
    TimesSum4(p, GfMul(u, a), GfMul(v, b), GfMul(w, c), GfMul(x, d));
    TimesSum4(q, GfMul(u, b), GfMul(v, c), GfMul(w, d), GfMul(x, a));
    Rotate(GfMul(q, GfMul(x, a)), GfMul(q, GfMul(u, b)), GfMul(q, GfMul(v, c)), GfMul(q, GfMul(w, d)));
    TimesSum4(r, GfMul(u, c), GfMul(v, d), GfMul(w, a), GfMul(x, b));
    Rotate(GfMul(r, GfMul(x, b)), GfMul(r, GfMul(u, c)), GfMul(r, GfMul(v, d)), GfMul(r, GfMul(w, a)));
    Rotate(GfMul(r, GfMul(w, a)), GfMul(r, GfMul(x, b)), GfMul(r, GfMul(u, c)), GfMul(r, GfMul(v, d)));
    TimesSum4(s, GfMul(u, d), GfMul(v, a), GfMul(w, b), GfMul(x, c));
    Rotate(GfMul(s, GfMul(u, d)), GfMul(s, GfMul(v, a)), GfMul(s, GfMul(w, b)), GfMul(s, GfMul(x, c)));
    Transpose(GfMul(p, GfMul(u, a)), GfMul(p, GfMul(v, b)), GfMul(p, GfMul(w, c)), GfMul(p, GfMul(x, d)),
              GfMul(q, GfMul(x, a)), GfMul(q, GfMul(u, b)), GfMul(q, GfMul(v, c)), GfMul(q, GfMul(w, d)),
              GfMul(r, GfMul(w, a)), GfMul(r, GfMul(x, b)), GfMul(r, GfMul(u, c)), GfMul(r, GfMul(v, d)),
              GfMul(s, GfMul(v, a)), GfMul(s, GfMul(w, b)), GfMul(s, GfMul(x, c)), GfMul(s, GfMul(u, d)));
  }

  lemma InvMixMixCode(a: bv8)
    ensures Sum4(Multiply(Xtime(a), 0x0e), Multiply(a, 0x0b), Multiply(a, 0x0d), Multiply(Add(Xtime(a), a), 0x09)) == a
    ensures Sum4(Multiply(Add(Xtime(a), a), 0x0e), Multiply(Xtime(a), 0x0b), Multiply(a, 0x0d), Multiply(a, 0x09)) == 0
    ensures Sum4(Multiply(a, 0x0e), Multiply(Add(Xtime(a), a), 0x0b), Multiply(Xtime(a), 0x0d), Multiply(a, 0x09)) == 0
    ensures Sum4(Multiply(a, 0x0e), Multiply(a, 0x0b), Multiply(Add(Xtime(a), a), 0x0d), Multiply(Xtime(a), 0x09)) == 0
  {
  }

  lemma MixInvMixCode(a: bv8)
    ensures Sum4(Xtime(Multiply(a, 0x0e)), Add(Xtime(Multiply(a, 0x09)), Multiply(a, 0x09)),
                 Multiply(a, 0x0d), Multiply(a, 0x0b)) == a
    ensures Sum4(Xtime(Multiply(a, 0x0b)), Add(Xtime(Multiply(a, 0x0e)), Multiply(a, 0x0e)),
                 Multiply(a, 0x09), Multiply(a, 0x0d)) == 0
    ensures Sum4(Xtime(Multiply(a, 0x0d)), Add(Xtime(Multiply(a, 0x0b)), Multiply(a, 0x0b)),
                 Multiply(a, 0x0e), Multiply(a, 0x09)) == 0
    ensures Sum4(Xtime(Multiply(a, 0x09)), Add(Xtime(Multiply(a, 0x0d)), Multiply(a, 0x0d)),
                 Multiply(a, 0x0b), Multiply(a, 0x0e)) == 0
  {
  }

  /** One entry of the matrix product of FIPS 197 section 5.1.3. */
  function MixByte(a: bv8, b: bv8, c: bv8, d: bv8): bv8 {
    Sum4(GfMul(0x02, a), GfMul(0x03, b), c, d)
  }

  /** One entry of the matrix product of FIPS 197 section 5.3.3. */
  function InvMixByte(a: bv8, b: bv8, c: bv8, d: bv8): bv8 {
    Sum4(GfMul(0x0e, a), GfMul(0x0b, b), GfMul(0x0d, c), GfMul(0x09, d))
  }

  lemma MixByteIsRow(a: bv8, b: bv8, c: bv8, d: bv8)
    ensures MixByte(a, b, c, d) == RowTimes(0x02, 0x03, 0x01, 0x01, a, b, c, d)
  {
    Times1(c);
    Times1(d);
  }

  lemma MultipliesByConstants(x: bv8)
    ensures Multiply(x, 0x09) == GfMul(0x09, x) && Multiply(x, 0x0b) == GfMul(0x0b, x)
    ensures Multiply(x, 0x0d) == GfMul(0x0d, x) && Multiply(x, 0x0e) == GfMul(0x0e, x)
    ensures GfMul(0x01, x) == x && GfMul(0x02, x) == Xtime(x) && GfMul(0x03, x) == Add(Xtime(x), x)
  {
    Times1(x);
    Times2(x);
    Times3(x);
    Times9(x);
    TimesB(x);
    TimesD(x);
    TimesE(x);
  }

  lemma SumWithZeros(x: bv8)
    ensures Sum4(x, 0, 0, 0) == x
  {
  }

  lemma InvMixMixCoefficients(a: bv8)
    ensures Coefficient(0x0e, 0x0b, 0x0d, 0x09, 0x02, 0x01, 0x01, 0x03, a) == a
    ensures Coefficient(0x0e, 0x0b, 0x0d, 0x09, 0x03, 0x02, 0x01, 0x01, a) == 0
    ensures Coefficient(0x0e, 0x0b, 0x0d, 0x09, 0x01, 0x03, 0x02, 0x01, a) == 0
    ensures Coefficient(0x0e, 0x0b, 0x0d, 0x09, 0x01, 0x01, 0x03, 0x02, a) == 0
  {
    InvMixMixCode(a);
    MultipliesByConstants(a);
    MultipliesByConstants(Xtime(a));
    MultipliesByConstants(Add(Xtime(a), a));
  }

  lemma MixInvMixCoefficients(a: bv8)
    ensures Coefficient(0x02, 0x03, 0x01, 0x01, 0x0e, 0x09, 0x0d, 0x0b, a) == a
    ensures Coefficient(0x02, 0x03, 0x01, 0x01, 0x0b, 0x0e, 0x09, 0x0d, a) == 0
    ensures Coefficient(0x02, 0x03, 0x01, 0x01, 0x0d, 0x0b, 0x0e, 0x09, a) == 0
    ensures Coefficient(0x02, 0x03, 0x01, 0x01, 0x09, 0x0d, 0x0b, 0x0e, a) == 0
  {
    MixInvMixCode(a);
    MultipliesByConstants(a);
    MultipliesByConstants(Multiply(a, 0x09));
    MultipliesByConstants(Multiply(a, 0x0b));
    MultipliesByConstants(Multiply(a, 0x0d));
    MultipliesByConstants(Multiply(a, 0x0e));
  }

  /** The matrix of section 5.3.3 times the matrix of section 5.1.3 is the identity. */
  lemma InvMixUndoesMix(a: bv8, b: bv8, c: bv8, d: bv8)
    ensures InvMixByte(MixByte(a, b, c, d), MixByte(b, c, d, a), MixByte(c, d, a, b), MixByte(d, a, b, c)) == a
  {
    MixByteIsRow(a, b, c, d);
    MixByteIsRow(b, c, d, a);
    MixByteIsRow(c, d, a, b);
    MixByteIsRow(d, a, b, c);
    RowTimesCirculant(0x0e, 0x0b, 0x0d, 0x09, 0x02, 0x03, 0x01, 0x01, a, b, c, d);
    InvMixMixCoefficients(a);
    InvMixMixCoefficients(b);
    InvMixMixCoefficients(c);
    InvMixMixCoefficients(d);
    SumWithZeros(a);
  }

  /** And so is the product in the other order. */
  lemma MixUndoesInvMix(a: bv8, b: bv8, c: bv8, d: bv8)
    ensures MixByte(InvMixByte(a, b, c, d), InvMixByte(b, c, d, a), InvMixByte(c, d, a, b), InvMixByte(d, a, b, c)) == a
  {
    MixByteIsRow(InvMixByte(a, b, c, d), InvMixByte(b, c, d, a), InvMixByte(c, d, a, b), InvMixByte(d, a, b, c));
    RowTimesCirculant(0x02, 0x03, 0x01, 0x01, 0x0e, 0x0b, 0x0d, 0x09, a, b, c, d);
    MixInvMixCoefficients(a);
    MixInvMixCoefficients(b);
    MixInvMixCoefficients(c);
    MixInvMixCoefficients(d);
    SumWithZeros(a);
  }

  // ---- the code's in-place expressions ----

  lemma Sum4IsXor(x: bv8, y: bv8, z: bv8, w: bv8)
    ensures Sum4(x, y, z, w) == x ^ y ^ z ^ w
  {
  }

  function ColumnSum(a: bv8, b: bv8, c: bv8, d: bv8): bv8 {
    a ^ b ^ c ^ d
  }

  lemma ColumnSumRotates(a: bv8, b: bv8, c: bv8, d: bv8)
    ensures ColumnSum(a, b, c, d) == ColumnSum(b, c, d, a)
  {
  }

  /** How MixColumns overwrites the entry a above b: Tm comes from a and b, Tmp is the sum of the column. */
  function CodedMixByte(a: bv8, b: bv8, tmp: bv8): bv8 {
    a ^ (Xtime(a ^ b) ^ tmp)
  }

  lemma CodedMixByteIs(a: bv8, b: bv8, tm: bv8, tmp: bv8)
    requires tm == Xtime(a ^ b)
    ensures a ^ (tm ^ tmp) == CodedMixByte(a, b, tmp)
  {
    hide Xtime;
  }

  lemma CodedEntry(a: bv8, b: bv8, c: bv8, d: bv8, tm: bv8, tmp: bv8)
    requires tmp == ColumnSum(a, b, c, d)
    ensures a ^ (tm ^ tmp) == Sum4(tm, b, c, d)
  {
    Sum4IsXor(tm, b, c, d);
    calc {
      a ^ (tm ^ tmp);
      a ^ (tm ^ (a ^ b ^ c ^ d));
      tm ^ b ^ c ^ d;
    }
  }

  lemma SumWithTm(a: bv8, b: bv8, c: bv8, d: bv8)
    ensures Sum4(Xtime(Add(a, b)), b, c, d) == MixByte(a, b, c, d)
  {
    hide Add, Xtime, GfMul;
    XtimeAdditive(a, b);
    AddAssociative(Xtime(a), Xtime(b), b);
    Times2(a);
    Times3(b);
  }

  /** The in-place expression is the matrix product. */
  lemma MixByteAsCoded(a: bv8, b: bv8, c: bv8, d: bv8)
    ensures CodedMixByte(a, b, ColumnSum(a, b, c, d)) == MixByte(a, b, c, d)
  {
    hide ColumnSum, Xtime, MixByte, Sum4;
    CodedEntry(a, b, c, d, Xtime(Add(a, b)), ColumnSum(a, b, c, d));
    SumWithTm(a, b, c, d);
  }

  lemma ProductsAsCoded(a: bv8, b: bv8, c: bv8, d: bv8)
    ensures Sum4(Multiply(a, 0x0e), Multiply(b, 0x0b), Multiply(c, 0x0d), Multiply(d, 0x09)) == InvMixByte(a, b, c, d)
  {
    MultiplyIsGfMul(a, 0x0e);
    MultiplyIsGfMul(b, 0x0b);
    MultiplyIsGfMul(c, 0x0d);
    MultiplyIsGfMul(d, 0x09);
  }

  /** InvMixColumns combines four products of the code; the result is its matrix product. */
  lemma InvMixByteAsCoded(a: bv8, b: bv8, c: bv8, d: bv8, v: bv8)
    requires v == Multiply(a, 0x0e) ^ Multiply(b, 0x0b) ^ Multiply(c, 0x0d) ^ Multiply(d, 0x09)
    ensures v == InvMixByte(a, b, c, d)
  {
    hide Multiply, InvMixByte;
    Sum4IsXor(Multiply(a, 0x0e), Multiply(b, 0x0b), Multiply(c, 0x0d), Multiply(d, 0x09));
    ProductsAsCoded(a, b, c, d);
  }
}
