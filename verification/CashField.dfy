/** The cashaddr checksum step of bcash/BRBCashAddr.c as arithmetic of polynomials over GF(32): the field is taken modulo
    x^5 + x^3 + 1, and a step multiplies by x modulo the generator of the cashaddr specification. */
module CashField {
  import opened CashChecksum

  // ----- the field

  /** Twice a symbol: the bits move up, and the sixth is replaced by those of x^3 + 1. */
  function Twice(a: bv40): bv40 { ((a << 1) & 0x1f) ^ (if a & 0x10 != 0 then 0x09 else 0) }

  /** The product of two symbols: the sum of the doublings of one that the bits of the other select. */
  function Times(a: bv40, b: bv40): bv40 {
    FiveOf(a & 0x01 != 0, a & 0x02 != 0, a & 0x04 != 0, a & 0x08 != 0, a & 0x10 != 0,
           b, Twice(b), Twice(Twice(b)), Twice(Twice(Twice(b))), Twice(Twice(Twice(Twice(b)))))
  }

  function FiveOf(p: bool, q: bool, r: bool, s: bool, t: bool, a: bv40, b: bv40, c: bv40, d: bv40, e: bv40): bv40 {
    Xor(Generator(p, a), Xor(Generator(q, b), Xor(Generator(r, c), Xor(Generator(s, d), Generator(t, e)))))
  }

  /** The coefficient of x^k in a state. */
  function Coefficient(c: bv40, k: nat): bv40
    requires k < 8
  {
    if k == 0 then c & 0x1f else if k == 1 then (c >> 5) & 0x1f else if k == 2 then (c >> 10) & 0x1f
    else if k == 3 then (c >> 15) & 0x1f else if k == 4 then (c >> 20) & 0x1f else if k == 5 then (c >> 25) & 0x1f
    else if k == 6 then (c >> 30) & 0x1f else (c >> 35) & 0x1f
  }

  /** The generator polynomial below its leading term: x^8 + 19x^7 + 3x^6 + 25x^5 + 11x^4 + 25x^3 + 3x^2 + 19x + 1. */
  const GENERATOR: seq<bv40> := [1, 19, 3, 25, 11, 25, 3, 19]

  // ----- the step

  lemma CoefficientOfSum(a: bv40, b: bv40, k: nat)
    requires k < 8
    ensures Coefficient(Xor(a, b), k) == Xor(Coefficient(a, k), Coefficient(b, k))
  {
    if k == 0 { } else if k == 1 { } else if k == 2 { } else if k == 3 { }
    else if k == 4 { } else if k == 5 { } else if k == 6 { } else { }
  }

  lemma CoefficientShifted(c: bv40, k: nat)
    requires k < 8
    ensures Coefficient(Shift(c), k) == if k == 0 then 0 else Coefficient(c, k - 1)
  {
    if k == 0 { } else if k == 1 { } else if k == 2 { } else if k == 3 { }
    else if k == 4 { } else if k == 5 { } else if k == 6 { } else { }
  }

  lemma CoefficientIf(on: bool, g: bv40, k: nat)
    requires k < 8
    ensures Coefficient(Generator(on, g), k) == Generator(on, Coefficient(g, k))
  {
    if k == 0 { } else if k == 1 { } else if k == 2 { } else if k == 3 { }
    else if k == 4 { } else if k == 5 { } else if k == 6 { } else { }
  }

  lemma CoefficientOfFive(p: bool, q: bool, r: bool, s: bool, t: bool, a: bv40, b: bv40, c: bv40, d: bv40, e: bv40, k: nat)
    requires k < 8
    ensures Coefficient(FiveOf(p, q, r, s, t, a, b, c, d, e), k)
         == FiveOf(p, q, r, s, t, Coefficient(a, k), Coefficient(b, k), Coefficient(c, k), Coefficient(d, k), Coefficient(e, k))
  {
    hide Coefficient, Xor, Generator;
    CoefficientIf(p, a, k);
    CoefficientIf(q, b, k);
    CoefficientIf(r, c, k);
    CoefficientIf(s, d, k);
    CoefficientIf(t, e, k);
    var x4 := Xor(Generator(s, d), Generator(t, e));
    CoefficientOfSum(Generator(s, d), Generator(t, e), k);
    CoefficientOfSum(Generator(r, c), x4, k);
    CoefficientOfSum(Generator(q, b), Xor(Generator(r, c), x4), k);
    CoefficientOfSum(Generator(p, a), Xor(Generator(q, b), Xor(Generator(r, c), x4)), k);
  }

  /** The five constants are the generator polynomial, doubled up to four times. */
  lemma Doublings(k: nat)
    requires k < 8
    ensures var g := GENERATOR[k];
            && Coefficient(0x98_f2bc_8e61, k) == g && Coefficient(0x79_b76d_99e2, k) == Twice(g)
            && Coefficient(0xf3_3e5f_b3c4, k) == Twice(Twice(g)) && Coefficient(0xae_2eab_e2a8, k) == Twice(Twice(Twice(g)))
            && Coefficient(0x1e_4f43_e470, k) == Twice(Twice(Twice(Twice(g))))
  {
    if k == 0 { } else if k == 1 { } else if k == 2 { } else if k == 3 { }
    else if k == 4 { } else if k == 5 { } else if k == 6 { } else { }
  }

  lemma TopBits(c: bv40)
    ensures var a := Coefficient(c, 7);
            && (Bit(c, 0) <==> a & 0x01 != 0) && (Bit(c, 1) <==> a & 0x02 != 0) && (Bit(c, 2) <==> a & 0x04 != 0)
            && (Bit(c, 3) <==> a & 0x08 != 0) && (Bit(c, 4) <==> a & 0x10 != 0)
  {
  }

  lemma FeedbackIsFive(c: bv40)
    ensures Feedback(c) == FiveOf(Bit(c, 0), Bit(c, 1), Bit(c, 2), Bit(c, 3), Bit(c, 4),
                                  0x98_f2bc_8e61, 0x79_b76d_99e2, 0xf3_3e5f_b3c4, 0xae_2eab_e2a8, 0x1e_4f43_e470)
  {
    hide Bit, Xor, Generator;
  }

  /** A step multiplies by x: every coefficient moves up by one, and the generator times the one that leaves is added. */
  lemma StepMultiplies(c: bv40, k: nat)
    requires k < 8
    ensures Coefficient(Polymod(c), k)
         == Xor(if k == 0 then 0 else Coefficient(c, k - 1), Times(Coefficient(c, 7), GENERATOR[k]))
  {
    FeedbackIsFive(c);
    hide Coefficient, Xor, Shift, Feedback, FiveOf, Bit, Twice, Generator;
    CoefficientOfSum(Shift(c), Feedback(c), k);
    CoefficientShifted(c, k);
    CoefficientOfFive(Bit(c, 0), Bit(c, 1), Bit(c, 2), Bit(c, 3), Bit(c, 4),
                      0x98_f2bc_8e61, 0x79_b76d_99e2, 0xf3_3e5f_b3c4, 0xae_2eab_e2a8, 0x1e_4f43_e470, k);
    Doublings(k);
    TopBits(c);
  }

  /** And the coefficients determine the state. */
  lemma CoefficientsDetermine(a: bv40, b: bv40)
    requires forall k :: 0 <= k < 8 ==> Coefficient(a, k) == Coefficient(b, k)
    ensures a == b
  {
    assert Coefficient(a, 0) == Coefficient(b, 0) && Coefficient(a, 1) == Coefficient(b, 1);
    assert Coefficient(a, 2) == Coefficient(b, 2) && Coefficient(a, 3) == Coefficient(b, 3);
    assert Coefficient(a, 4) == Coefficient(b, 4) && Coefficient(a, 5) == Coefficient(b, 5);
    assert Coefficient(a, 6) == Coefficient(b, 6) && Coefficient(a, 7) == Coefficient(b, 7);
  }
}
