/** The on-curve test that the audit script uses to reject program-derived addresses
    (analysis/audit_pump_amm_coverage.py), against the encoding of curve points in
    sections 5.1.2 and 5.1.3 of RFC 8032. */
module Ed25519 {
  import opened Bytes
  import opened PrimeField
  import opened Prelude

  /** 2^255 and 2^255 - 19. */
  const SIGN_BIT: nat := 0x8000_0000_0000_0000_0000_0000_0000_0000_0000_0000_0000_0000_0000_0000_0000_0000
  const P: nat := 0x7FFF_FFFF_FFFF_FFFF_FFFF_FFFF_FFFF_FFFF_FFFF_FFFF_FFFF_FFFF_FFFF_FFFF_FFFF_FFED

  // ----- the curve -----

  /** `-x^2 + y^2 = 1 + d x^2 y^2` modulo `p` for `d = -121665/121666`, with the denominator
      multiplied out. */
  predicate OnCurve(x: int, y: int, p: nat)
    requires p > 0
  {
    Cong(121666 * (y * y - x * x), 121666 - 121665 * (x * x * (y * y)), p)
  }

  /** Some point of the curve has this `y`, and an `x` of this parity. */
  ghost predicate HasPoint(y: nat, sign: nat, p: nat)
    requires p > 0
  {
    exists x: nat :: x < p && x % 2 == sign && OnCurve(x, y, p)
  }

  /** RFC 8032, section 5.1.2: 32 little-endian bytes of `y`, the lowest bit of `x` in the
      highest bit; both coordinates are reduced. */
  ghost predicate EncodesPoint(encoded: seq<byte>, x: nat, y: nat) {
    && |encoded| == 32 && x < P && y < P
    && LeNat(encoded) == y + SIGN_BIT * (x % 2)
    && OnCurve(x, y, P)
  }

  // ----- solving the curve equation for x -----

  /** `d` is -121665/121666 modulo `p`. */
  predicate IsCurveConstant(d: int, p: nat)
    requires p > 0
  {
    Cong(121666 * d, -121665, p)
  }

  lemma {:induction false} Multiplied(a: int, b: int, c: int, d: int)
    ensures 121666 * (b - a - (1 + d * c))
         == 121666 * (b - a) - (121666 - 121665 * c) - (121666 * d - -121665) * c
  {
  }

  lemma {:induction false} WithConstant(x: int, y: int, d: int, p: nat)
    requires Prime(p) && p > 121666 && IsCurveConstant(d, p)
    ensures OnCurve(x, y, p) <==> Cong(y * y - x * x, 1 + d * (x * x * (y * y)), p)
  {
    var a, b, c := x * x, y * y, x * x * (y * y);
    var whole, off := 121666 * (b - a) - (121666 - 121665 * c), (121666 * d - -121665) * c;
    var e := b - a - (1 + d * c);
    Multiplied(a, b, c, d);
    DividesProduct(p, 121666 * d - -121665, c);
    if Divides(p, e) {
      DividesProduct(p, e, 121666);
      DividesSum(p, 121666 * e, off);
    }
    if Divides(p, whole) {
      DividesSum(p, whole, off);
      EuclidBelow(p, 121666, e);
    }
  }

  lemma {:induction false} Rearranged(a: int, b: int, d: int)
    ensures b - a - (1 + d * (a * b)) == b - 1 - (d * b + 1) * a
  {
  }

  lemma {:induction false} RearrangedCong(a: int, b: int, d: int, p: nat)
    requires p > 0
    ensures Cong(b - a, 1 + d * (a * b), p) <==> Cong(b - 1, (d * b + 1) * a, p)
  {
    Rearranged(a, b, d);
  }

  /** `x^2 (d y^2 + 1) = y^2 - 1`. */
  lemma {:induction false} SolvedForX(x: int, y: int, d: int, p: nat)
    requires Prime(p) && p > 121666 && IsCurveConstant(d, p)
    ensures OnCurve(x, y, p) <==> Cong(y * y - 1, (d * (y * y) + 1) * (x * x), p)
  {
    WithConstant(x, y, d, p);
    RearrangedCong(x * x, y * y, d, p);
  }

  /** When `d y^2 + 1` vanishes no `x` satisfies the equation. */
  lemma {:induction false} NoPointAtPole(x: int, y: int, d: int, p: nat)
    requires Prime(p) && p > 121666 && IsCurveConstant(d, p)
    requires Divides(p, d * (y * y) + 1)
    ensures !OnCurve(x, y, p)
  {
    SolvedForX(x, y, d, p);
    if OnCurve(x, y, p) {
      var v, u := d * (y * y) + 1, y * y - 1;
      DividesProduct(p, v, x * x);
      DividesSum(p, u - v * (x * x), v * (x * x));
      DividesProduct(p, u, d);
      Distribute(d, y * y, -1);
      DividesSum(p, v, u * d);
      assert v - u * d == d + 1;
      DividesProduct(p, d + 1, 121666);
      DividesSum(p, (d + 1) * 121666, 121666 * d - -121665);
      DividesSmall(p, 1);
    }
  }

  /** Dividing by `v`: `x` is on the curve exactly when its square is `w = u / v`. */
  lemma {:induction false} RootsOfQuotient(x: int, u: int, v: int, w: int, p: nat)
    requires Prime(p) && !Divides(p, v) && Cong(v * w, u, p)
    ensures Cong(u, v * (x * x), p) <==> Cong(x * x, w, p)
  {
    Distribute(v, x * x, -w);
    Regroup(v, -1, w);
    if Cong(u, v * (x * x), p) {
      CongTrans(v * w, u, v * (x * x), p);
      CongFlip(v * w, v * (x * x), p);
      Euclid(p, v, x * x - w);
    }
    if Cong(x * x, w, p) {
      DividesProduct(p, x * x - w, v);
      CongTrans(v * (x * x), v * w, u, p);
      CongFlip(v * (x * x), u, p);
    }
  }

  /** The code's quotient: `(y^2 - 1) * den^(p-2)`. */
  lemma {:induction false} QuotientComputed(u: int, v: int, p: nat)
    requires Prime(p) && p > 2 && !Divides(p, v)
    ensures var w := u * PowMod(v % p, p - 2, p) % p;
            w < p && Cong(v * w, u, p)
  {
    var den := v % p;
    Remainder(v, p);
    if Divides(p, den) {
      DividesSum(p, v - den, den);
    }
    InversePower(den, p);
    var i := PowMod(den, p - 2, p);
    var w := u * i % p;
    Remainder(u * i, p);
    CongFlip(u * i, w, p);
    CongMul(v, den, w, u * i, p);
    Regroup(den, u, i);
    Multiple(p, 0);
    CongMul(u, u, den * i, 1, p);
    Regroup(u, den, i);
    CongTrans(v * w, den * (u * i), u, p);
  }

  /** The two candidates in reduced form cover every square. */
  lemma {:induction false} CandidatesSuffice(r: int, w: nat, p: nat)
    requires Prime(p) && p % 8 == 5 && w < p && Cong(r * r, w, p)
    ensures var c := PowMod(w, (p + 3) / 8, p);
            var x := c * PowMod(2, (p - 1) / 4, p) % p;
            c * c % p == w || x * x % p == w
  {
    var g := (p - 1) / 4;
    var big, two := Pow(w, (g + 1) / 2), Pow(2, g);
    RootFound(r, w, p, g);
    Remainder(big, p);
    CongFlip(big, big % p, p);
    if Cong(big * big, w, p) {
      ReducedSquare(big % p, big, w, p);
    } else {
      ProductReduced(big, two, p);
      ReducedSquare((big % p) * (two % p) % p, big * two, w, p);
    }
  }

  lemma {:induction false} ProductReduced(a: int, b: int, p: nat)
    requires p > 0
    ensures Cong((a % p) * (b % p) % p, a * b, p)
  {
    var r, s := a % p, b % p;
    Remainder(a, p);
    Remainder(b, p);
    Remainder(r * s, p);
    CongMul(a, r, b, s, p);
    CongTrans(a * b, r * s, r * s % p, p);
    CongFlip(a * b, r * s % p, p);
  }

  lemma {:induction false} ReducedSquare(c: int, b: int, w: nat, p: nat)
    requires p > 0 && w < p && Cong(c, b, p) && Cong(b * b, w, p)
    ensures c * c % p == w
  {
    CongMul(c, b, c, b, p);
    CongTrans(c * c, b * b, w, p);
    SquareReduces(c, w, p);
  }

  lemma {:induction false} SquareReduces(x: int, w: nat, p: nat)
    requires p > 0 && w < p
    ensures x * x % p == w <==> Cong(x * x, w, p)
  {
    SameRemainder(x * x, w, p);
    Remainder(w, p);
    CongFlip(w, w % p, p);
    CongUnique(w % p, w, p);
  }

  lemma {:induction false} NegatedSquare(p: int, x: int)
    ensures p * (p - 2 * x) == (p - x) * (p - x) - x * x
  {
  }

  lemma {:induction false} NegatedRoot(x: nat, w: nat, p: nat)
    requires p > 0 && Cong(x * x, w, p)
    ensures Cong((p - x) * (p - x), w, p)
  {
    Multiple(p, p - 2 * x);
    NegatedSquare(p, x);
    CongTrans((p - x) * (p - x), x * x, w, p);
  }

  /** A root and its negation have different parities, unless the root is 0. */
  lemma {:induction false} RootOfParity(x: nat, w: nat, sign: nat, p: nat) returns (r: nat)
    requires p % 2 == 1 && x < p && Cong(x * x, w, p) && sign < 2 && (x == 0 ==> sign == 0)
    ensures r < p && r % 2 == sign && Cong(r * r, w, p)
  {
    if x % 2 == sign {
      r := x;
    } else {
      r := p - x;
      NegatedRoot(x, w, p);
      OtherParity(x, p);
    }
  }

  lemma {:induction false} OtherParity(x: nat, p: nat)
    requires p % 2 == 1 && x < p
    ensures (p - x) % 2 == 1 - x % 2
  {
  }

  // ----- the test -----

  /** What the last two lines decide about a candidate `x` for the square root of `w`. */
  lemma {:induction false} Decided(x: nat, w: nat, y: nat, sign: nat, d: int, p: nat)
    requires Prime(p) && p % 8 == 5 && p > 121666 && x < p && w < p && sign < 2
    requires IsCurveConstant(d, p) && !Divides(p, d * (y * y) + 1)
    requires Cong((d * (y * y) + 1) * w, y * y - 1, p)
    requires x * x % p == w || forall r: nat :: r < p ==> r * r % p != w
    ensures HasPoint(y, sign, p) <==> x * x % p == w && !(x == 0 && sign == 1)
  {
    SquareReduces(x, w, p);
    if x * x % p == w && !(x == 0 && sign == 1) {
      var r := RootOfParity(x, w, sign, p);
      RootsOfQuotient(r, y * y - 1, d * (y * y) + 1, w, p);
      SolvedForX(r, y, d, p);
    }
    if HasPoint(y, sign, p) {
      var r: nat :| r < p && r % 2 == sign && OnCurve(r, y, p);
      SolvedForX(r, y, d, p);
      RootsOfQuotient(r, y * y - 1, d * (y * y) + 1, w, p);
      SquareReduces(r, w, p);
      if x == 0 {
        DividesSquare(r, w, p);
        DividesSquare(0, w, p);
        Multiple(p, 0);
        DividesSmall(p, r);
      }
    }
  }

  lemma {:induction false} ConstantComputed(p: nat)
    requires Prime(p) && p > 121666
    ensures IsCurveConstant((-121665 * PowMod(121666, p - 2, p)) % p, p)
  {
    if Divides(p, 121666) {
      DividesSmall(p, 121666);
    }
    InversePower(121666, p);
    var i: int := PowMod(121666, p - 2, p);
    var n := -121665 * i;
    Remainder(n, p);
    CongFlip(n, n % p, p);
    Multiple(p, 0);
    CongMul(121666, 121666, n % p, n, p);
    CongMul(-121665, -121665, 121666 * i, 1, p);
    CongTrans(121666 * (n % p), 121666 * n, -121665, p);
  }

  lemma {:induction false} DenominatorReduced(y: nat, d: int, p: nat)
    requires p > 0
    ensures (d * (y * y % p) + 1) % p == (d * (y * y) + 1) % p
  {
    Remainder(y * y, p);
    CongFlip(y * y, y * y % p, p);
    Multiple(p, 0);
    CongMul(d, d, y * y % p, y * y, p);
    SameRemainder(d * (y * y % p) + 1, d * (y * y) + 1, p);
  }

  lemma {:induction false} QuotientReduced(y: nat, i: nat, p: nat)
    requires p > 0
    ensures (y * y % p - 1) * i % p == (y * y - 1) * i % p
  {
    Remainder(y * y, p);
    CongFlip(y * y, y * y % p, p);
    Multiple(p, 0);
    CongMul(y * y % p - 1, y * y - 1, i, i, p);
    SameRemainder((y * y % p - 1) * i, (y * y - 1) * i, p);
  }

  lemma {:induction false} RejectedAtPole(y: nat, sign: nat, d: int, p: nat)
    requires Prime(p) && p > 121666 && IsCurveConstant(d, p)
    requires (d * (y * y % p) + 1) % p == 0
    ensures !HasPoint(y, sign, p)
  {
    DenominatorReduced(y, d, p);
    if HasPoint(y, sign, p) {
      var x: nat :| x < p && x % 2 == sign && OnCurve(x, y, p);
      NoPointAtPole(x, y, d, p);
    }
  }

  /** The second candidate is tried only when the first fails; if both fail there is no root. */
  lemma {:induction false} CorrectedCandidate(w: nat, c: nat, x: nat, p: nat)
    requires Prime(p) && p % 8 == 5 && w < p
    requires c == PowMod(w, (p + 3) / 8, p)
    requires x == if c * c % p == w then c else c * PowMod(2, (p - 1) / 4, p) % p
    ensures x < p
    ensures x * x % p == w || forall r: nat :: r < p ==> r * r % p != w
  {
    if x * x % p != w {
      forall r: nat | r < p ensures r * r % p != w {
        if r * r % p == w {
          SquareReduces(r, w, p);
          CandidatesSuffice(r, w, p);
        }
      }
    }
  }

  lemma {:induction false} DecidedAwayFromPole(y: nat, sign: nat, d: int, den: nat, w: nat, c: nat, x: nat, p: nat)
    requires Prime(p) && p % 8 == 5 && p > 121666 && sign < 2 && IsCurveConstant(d, p)
    requires den == (d * (y * y % p) + 1) % p != 0
    requires w == (y * y % p - 1) * PowMod(den, p - 2, p) % p
    requires c == PowMod(w, (p + 3) / 8, p)
    requires x == if c * c % p == w then c else c * PowMod(2, (p - 1) / 4, p) % p
    ensures HasPoint(y, sign, p) <==> x * x % p == w && !(x == 0 && sign == 1)
  {
    DenominatorReduced(y, d, p);
    QuotientReduced(y, PowMod(den, p - 2, p), p);
    QuotientComputed(y * y - 1, d * (y * y) + 1, p);
    CorrectedCandidate(w, c, x, p);
    Decided(x, w, y, sign, d, p);
  }

  /** The arithmetic of the test, for any prime that is 5 modulo 8. */
  method HasPointTest(y: nat, sign: nat, p: nat) returns (ok: bool)
    requires p % 8 == 5 && p > 121666 && sign < 2
    ensures Prime(p) ==> (ok <==> HasPoint(y, sign, p))
  {
    var d := (-121665 * PowMod(121666, p - 2, p)) % p;
    var ySquared := y * y % p;
    var denominator := (d * ySquared + 1) % p;
    if Prime(p) {
      ConstantComputed(p);
    }
    if denominator == 0 {
      if Prime(p) {
        RejectedAtPole(y, sign, d, p);
      }
      return false;
    }
    var xSquared := (ySquared - 1) * PowMod(denominator, p - 2, p) % p;
    var x := PowMod(xSquared, (p + 3) / 8, p);
    ghost var candidate := x;
    if x * x % p != xSquared {
      x := x * PowMod(2, (p - 1) / 4, p) % p;
    }
    if Prime(p) {
      DecidedAwayFromPole(y, sign, d, denominator, xSquared, candidate, x, p);
    }
    if x * x % p != xSquared || (x == 0 && sign == 1) {
      return false;
    }
    return true;
  }

  // ----- the bytes -----

  lemma {:induction false} LeNatSplit(a: seq<byte>, b: seq<byte>)
    ensures LeNat(a + b) == LeNat(a) + Pow256(|a|) * LeNat(b)
  {
    if a == [] {
      assert a + b == b;
    } else {
      assert (a + b)[0] == a[0] && (a + b)[1..] == a[1..] + b;
      LeNatSplit(a[1..], b);
      Regroup(256, Pow256(|a| - 1), LeNat(b));
    }
  }

  lemma {:induction false} SignBitPower()
    ensures 128 * Pow256(31) == SIGN_BIT
  {
    Pow256Values();
    assert Pow256(20) == Pow256(16) * 0x1_0000_0000;
    assert Pow256(24) == Pow256(20) * 0x1_0000_0000;
    assert Pow256(28) == Pow256(24) * 0x1_0000_0000;
    assert Pow256(31) == Pow256(28) * 0x100_0000;
  }

  /** The top bit of the last byte is the top bit of the number. */
  lemma {:induction false} SignAndY(encoded: seq<byte>)
    requires |encoded| == 32
    ensures LeNat(encoded) == LeNat(encoded) % SIGN_BIT + SIGN_BIT * (encoded[31] / 128)
  {
    var low, last := encoded[..31], encoded[31];
    assert encoded == low + [last];
    LeNatSplit(low, [last]);
    LeNatBound(low);
    SignBitPower();
    assert LeNat([last]) == last;
    TopBit(Pow256(31), LeNat(low), last);
  }

  lemma {:induction false} TopBit(power: nat, low: nat, last: nat)
    requires 128 * power == SIGN_BIT && low < power && last < 256
    ensures var n := low + power * last; n == n % SIGN_BIT + SIGN_BIT * (last / 128)
  {
    assert power == SIGN_BIT / 128;
  }

  /** What the test decides, over the encodings of curve points. */
  lemma {:induction false} EncodingHasPoint(encoded: seq<byte>)
    requires |encoded| == 32
    ensures var y := LeNat(encoded) % SIGN_BIT;
            (y < P && HasPoint(y, encoded[31] / 128, P)) <==> exists x: nat, y: nat :: EncodesPoint(encoded, x, y)
  {
    var y, sign := LeNat(encoded) % SIGN_BIT, encoded[31] / 128;
    if y < P && HasPoint(y, sign, P) {
      var x: nat :| x < P && x % 2 == sign && OnCurve(x, y, P);
      SignAndY(encoded);
      assert EncodesPoint(encoded, x, y);
    }
    if x: nat, z: nat :| EncodesPoint(encoded, x, z) {
      Coordinates(encoded, x, z);
    }
  }

  lemma {:induction false} Coordinates(encoded: seq<byte>, x: nat, y: nat)
    requires EncodesPoint(encoded, x, y)
    ensures y == LeNat(encoded) % SIGN_BIT && x % 2 == encoded[31] / 128
  {
    SignAndY(encoded);
  }

  /** True exactly on the encodings of curve points. */
  method IsEd25519Point(encoded: seq<byte>) returns (ok: bool)
    ensures Prime(P) ==> (ok <==> exists x: nat, y: nat :: EncodesPoint(encoded, x, y))
  {
    if |encoded| != 32 {
      return false;
    }
    EncodingHasPoint(encoded);
    var sign := encoded[31] / 128;
    var y := LeNat(encoded) % SIGN_BIT;
    if y >= P {
      return false;
    }
    ok := HasPointTest(y, sign, P);
  }
}
