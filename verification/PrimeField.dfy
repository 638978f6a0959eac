/** Arithmetic modulo a prime, as far as the Ed25519 point test needs it: Euclid's lemma,
    Fermat's little theorem and, for primes that are 5 modulo 8, that 2 is a non-residue and
    how square roots are found. */
module PrimeField {

  function Pow(a: int, e: nat): int {
    if e == 0 then 1 else a * Pow(a, e - 1)
  }

  /** Python's `pow(a, e, m)`. */
  function PowMod(a: int, e: nat, m: nat): nat
    requires m > 0
  {
    Pow(a, e) % m
  }

  predicate Divides(d: nat, n: int)
    requires d > 0
  {
    n % d == 0
  }

  predicate Cong(a: int, b: int, m: nat)
    requires m > 0
  {
    Divides(m, a - b)
  }

  ghost predicate Prime(p: nat) {
    p > 1 && forall d: nat :: 1 < d < p ==> !Divides(d, p)
  }

  lemma {:induction false} Exchange(a: int, b: int, c: int, d: int)
    ensures a * b * (c * d) == a * c * (b * d)
  {
  }

  lemma {:induction false} Distribute(a: int, b: int, c: int)
    ensures a * (b + c) == a * b + a * c
    ensures (b + c) * a == b * a + c * a
  {
  }

  lemma {:induction false} Regroup(a: int, b: int, c: int)
    ensures a * b * c == a * (b * c) == b * (a * c)
  {
  }

  // ----- divisibility -----

  lemma {:induction false} Quotient(d: nat, n: int)
    requires d > 0 && Divides(d, n)
    ensures n == d * (n / d)
  {
  }

  lemma {:induction false} Small(d: nat, k: int)
    requires d * k < d && -(d * k) < d
    ensures k == 0
  {
    assert k >= 1 ==> d * (k - 1) >= 0;
    assert k <= -1 ==> d * (-k - 1) >= 0;
  }

  lemma {:induction false} Multiple(d: nat, k: int)
    requires d > 0
    ensures Divides(d, d * k)
  {
    var n := d * k;
    var q, r := n / d, n % d;
    assert n == d * q + r;
    assert d * (k - q) == r;
    Small(d, k - q);
  }

  lemma {:induction false} DividesSum(d: nat, a: int, b: int)
    requires d > 0 && Divides(d, a) && Divides(d, b)
    ensures Divides(d, a + b) && Divides(d, a - b)
  {
    Quotient(d, a);
    Quotient(d, b);
    var i, j := a / d, b / d;
    assert a + b == d * (i + j) && a - b == d * (i - j);
    Multiple(d, i + j);
    Multiple(d, i - j);
  }

  lemma {:induction false} DividesProduct(d: nat, a: int, b: int)
    requires d > 0 && Divides(d, a)
    ensures Divides(d, a * b)
  {
    Quotient(d, a);
    var i := a / d;
    assert a * b == d * (i * b);
    Multiple(d, i * b);
  }

  lemma {:induction false} DividesSmall(d: nat, n: int)
    requires d > 0 && Divides(d, n) && n < d && -n < d
    ensures n == 0
  {
    Quotient(d, n);
    Small(d, n / d);
  }

  // ----- congruences -----

  lemma {:induction false} Remainder(a: int, m: nat)
    requires m > 0
    ensures 0 <= a % m < m && Cong(a, a % m, m)
  {
    var q := a / m;
    assert a - a % m == m * q;
    Multiple(m, q);
  }

  lemma {:induction false} CongFlip(a: int, b: int, m: nat)
    requires m > 0 && Cong(a, b, m)
    ensures Cong(b, a, m)
  {
    Multiple(m, 0);
    DividesSum(m, 0, a - b);
  }

  lemma {:induction false} CongTrans(a: int, b: int, c: int, m: nat)
    requires m > 0 && Cong(a, b, m) && Cong(b, c, m)
    ensures Cong(a, c, m)
  {
    DividesSum(m, a - b, b - c);
  }

  lemma {:induction false} CongMul(a: int, b: int, c: int, d: int, m: nat)
    requires m > 0 && Cong(a, b, m) && Cong(c, d, m)
    ensures Cong(a * c, b * d, m)
  {
    DividesProduct(m, a - b, c);
    DividesProduct(m, c - d, b);
    DividesSum(m, (a - b) * c, (c - d) * b);
    assert a * c - b * d == (a - b) * c + (c - d) * b;
  }

  lemma {:induction false} CongPow(a: int, b: int, e: nat, m: nat)
    requires m > 0 && Cong(a, b, m)
    ensures Cong(Pow(a, e), Pow(b, e), m)
  {
    if e == 0 {
      Multiple(m, 0);
    } else {
      CongPow(a, b, e - 1, m);
      CongMul(a, b, Pow(a, e - 1), Pow(b, e - 1), m);
    }
  }

  lemma {:induction false} CongUnique(a: int, b: int, m: nat)
    requires m > 0 && Cong(a, b, m) && 0 <= a < m && 0 <= b < m
    ensures a == b
  {
    DividesSmall(m, a - b);
  }

  /** Equality of remainders is congruence. */
  lemma {:induction false} SameRemainder(a: int, b: int, m: nat)
    requires m > 0
    ensures a % m == b % m <==> Cong(a, b, m)
  {
    Remainder(a, m);
    Remainder(b, m);
    var r, s := a % m, b % m;
    CongFlip(b, s, m);
    if r == s {
      CongTrans(a, r, b, m);
    }
    if Cong(a, b, m) {
      CongFlip(a, r, m);
      CongTrans(r, a, b, m);
      CongTrans(r, b, s, m);
      CongUnique(r, s, m);
    }
  }

  // ----- powers -----

  lemma {:induction false} PowSum(a: int, e: nat, f: nat)
    ensures Pow(a, e + f) == Pow(a, e) * Pow(a, f)
  {
    if e > 0 {
      PowSum(a, e - 1, f);
      Regroup(a, Pow(a, e - 1), Pow(a, f));
    }
  }

  lemma {:induction false} PowProduct(a: int, b: int, e: nat)
    ensures Pow(a * b, e) == Pow(a, e) * Pow(b, e)
  {
    if e > 0 {
      PowProduct(a, b, e - 1);
      Exchange(a, b, Pow(a, e - 1), Pow(b, e - 1));
    }
  }

  lemma {:induction false} PowOne(e: nat)
    ensures Pow(1, e) == 1
  {
    if e > 0 {
      PowOne(e - 1);
    }
  }

  // ----- Euclid's lemma -----

  lemma {:induction false} EuclidBelow(p: nat, a: nat, b: int)
    requires Prime(p) && 0 < a < p && Divides(p, a * b)
    ensures Divides(p, b)
    decreases a
  {
    if a > 1 {
      assert !Divides(a, p);
      var q, r := p / a, p % a;
      assert p == q * a + r;
      assert r * b == p * b - a * b * q;
      Multiple(p, b);
      DividesProduct(p, a * b, q);
      DividesSum(p, p * b, a * b * q);
      EuclidBelow(p, r, b);
    }
  }

  lemma {:induction false} Euclid(p: nat, a: int, b: int)
    requires Prime(p) && Divides(p, a * b)
    ensures Divides(p, a) || Divides(p, b)
  {
    var q, r := a / p, a % p;
    assert a == p * q + r;
    if r != 0 {
      assert r * b == a * b - p * (q * b);
      Multiple(p, q * b);
      DividesSum(p, a * b, p * (q * b));
      EuclidBelow(p, r, b);
    }
  }

  // ----- Fermat's little theorem, by the binomial theorem -----

  function Choose(n: nat, k: nat): nat {
    if k == 0 then 1 else if n == 0 then 0 else Choose(n - 1, k - 1) + Choose(n - 1, k)
  }

  lemma {:induction false} ChooseAbove(n: nat, k: nat)
    requires k > n
    ensures Choose(n, k) == 0
  {
    if n > 0 {
      ChooseAbove(n - 1, k - 1);
      ChooseAbove(n - 1, k);
    }
  }

  lemma {:induction false} ChooseAll(n: nat)
    ensures Choose(n, n) == 1
  {
    if n > 0 {
      ChooseAll(n - 1);
      ChooseAbove(n - 1, n);
    }
  }

  lemma {:induction false} AbsorptionStep(n: int, k: int, x: int, y: int, d: int)
    requires (k - 1) * (x + y) == (n - 1) * x && k * d == (n - 1) * y
    ensures k * (x + y + d) == n * (x + y)
  {
    Distribute(k, x + y, d);
    Distribute(n - 1, x, y);
  }

  lemma {:induction false} Absorption(n: nat, k: nat)
    requires n >= 1 && k >= 1
    ensures k * Choose(n, k) == n * Choose(n - 1, k - 1)
  {
    if n > 1 && k > 1 {
      Absorption(n - 1, k);
      Absorption(n - 1, k - 1);
      AbsorptionStep(n, k, Choose(n - 2, k - 2), Choose(n - 2, k - 1), Choose(n - 1, k));
    } else if n > 1 {
      Absorption(n - 1, k);
    } else if k > 1 {
      ChooseAbove(n, k);
    }
  }

  /** The first terms of the expansion of `(a + 1)^n`. */
  function Terms(a: int, n: nat, k: nat): int {
    Choose(n, k) * Pow(a, k) + if k == 0 then 0 else Terms(a, n, k - 1)
  }

  lemma {:induction false} TermsStep(a: int, n: nat, k: nat)
    requires n >= 1 && k >= 1
    ensures Terms(a, n, k) == a * Terms(a, n - 1, k - 1) + Terms(a, n - 1, k)
  {
    var c, d, t := Choose(n - 1, k - 1), Choose(n - 1, k), Pow(a, k - 1);
    Distribute(a * t, c, d);
    Regroup(c, a, t);
    if k > 1 {
      TermsStep(a, n, k - 1);
      Distribute(a, c * t, Terms(a, n - 1, k - 2));
    }
  }

  lemma {:induction false} Binomial(a: int, n: nat)
    ensures Pow(a + 1, n) == Terms(a, n, n)
  {
    if n > 0 {
      Binomial(a, n - 1);
      TermsStep(a, n, n);
      ChooseAbove(n - 1, n);
      var s := Terms(a, n - 1, n - 1);
      Distribute(s, a, 1);
    }
  }

  lemma {:induction false} PrimeChoose(p: nat, k: nat)
    requires Prime(p) && 0 < k < p
    ensures Divides(p, Choose(p, k))
  {
    Absorption(p, k);
    Multiple(p, Choose(p - 1, k - 1));
    EuclidBelow(p, k, Choose(p, k));
  }

  lemma {:induction false} MiddleTermsVanish(a: int, p: nat, k: nat)
    requires Prime(p) && k < p
    ensures Cong(Terms(a, p, k), 1, p)
  {
    if k == 0 {
      Multiple(p, 0);
      FirstTerm(a, p);
    } else {
      MiddleTermsVanish(a, p, k - 1);
      PrimeChoose(p, k);
      DividesProduct(p, Choose(p, k), Pow(a, k));
      DividesSum(p, Choose(p, k) * Pow(a, k), Terms(a, p, k - 1) - 1);
      LastTerm(a, p, k);
    }
  }

  lemma {:induction false} FirstTerm(a: int, p: nat)
    ensures Terms(a, p, 0) == 1
  {
  }

  lemma {:induction false} LastTerm(a: int, p: nat, k: nat)
    requires 0 < k
    ensures Terms(a, p, k) - 1 == Choose(p, k) * Pow(a, k) + (Terms(a, p, k - 1) - 1)
  {
  }

  lemma {:induction false} FermatPower(a: nat, p: nat)
    requires Prime(p)
    ensures Cong(Pow(a, p), a, p)
  {
    Multiple(p, 0);
    if a > 0 {
      FermatPower(a - 1, p);
      Binomial(a - 1, p);
      MiddleTermsVanish(a - 1, p, p - 1);
      ChooseAll(p);
      DividesSum(p, Pow(a - 1, p) - (a - 1), Terms(a - 1, p, p - 1) - 1);
    }
  }

  lemma {:induction false} Fermat(a: int, p: nat)
    requires Prime(p) && !Divides(p, a)
    ensures Cong(Pow(a, p - 1), 1, p)
  {
    var r := a % p;
    Remainder(a, p);
    FermatPower(r, p);
    var t := Pow(r, p - 1);
    assert Pow(r, p) - r == r * (t - 1);
    Euclid(p, r, t - 1);
    assert r != 0;
    if Divides(p, r) {
      DividesSmall(p, r);
    }
    CongPow(a, r, p - 1, p);
    CongTrans(Pow(a, p - 1), t, 1, p);
  }

  /** The inverse the script computes as `pow(a, p - 2, p)`. */
  lemma {:induction false} InversePower(a: int, p: nat)
    requires Prime(p) && p > 2 && !Divides(p, a)
    ensures Cong(a * PowMod(a, p - 2, p), 1, p)
  {
    Fermat(a, p);
    var t, r := Pow(a, p - 2), PowMod(a, p - 2, p);
    assert a * t == Pow(a, p - 1);
    Remainder(t, p);
    CongFlip(t, r, p);
    Multiple(p, 0);
    CongMul(a, a, r, t, p);
    CongTrans(a * r, a * t, 1, p);
  }

  // ----- 2 is not a square modulo a prime that is 5 modulo 8 -----

  function Factorial(n: nat): int {
    if n == 0 then 1 else n * Factorial(n - 1)
  }

  function Evens(n: nat): int {
    if n == 0 then 1 else 2 * n * Evens(n - 1)
  }

  function Odds(n: nat): int {
    if n == 0 then 1 else (2 * n - 1) * Odds(n - 1)
  }

  function Sign(n: nat): int {
    if n % 2 == 0 then 1 else -1
  }

  /** `(p - 1) * (p - 3) * ...`, `n` factors: even numbers that are minus the odd ones. */
  function Mirrored(p: int, n: nat): int {
    if n == 0 then 1 else (p - (2 * n - 1)) * Mirrored(p, n - 1)
  }

  lemma {:induction false} EvensArePower(n: nat)
    ensures Evens(n) == Pow(2, n) * Factorial(n)
  {
    if n > 0 {
      EvensArePower(n - 1);
      Exchange(2, n, Pow(2, n - 1), Factorial(n - 1));
    }
  }

  lemma {:induction false} EvensAndOdds(n: nat)
    ensures Evens(n) * Odds(n) == Factorial(2 * n)
  {
    if n > 0 {
      EvensAndOdds(n - 1);
      var e, o := Evens(n - 1), Odds(n - 1);
      Exchange(2 * n, e, 2 * n - 1, o);
      Regroup(2 * n, 2 * n - 1, e * o);
      assert Factorial(2 * n - 1) == (2 * n - 1) * Factorial(2 * n - 2);
    }
  }

  lemma {:induction false} EvensSplit(g: nat, k: nat)
    requires k <= 2 * g
    ensures Evens(2 * g - k) * Mirrored(4 * g + 1, k) == Evens(2 * g)
  {
    if k > 0 {
      EvensSplit(g, k - 1);
      var e, t, f := Evens(2 * g - k), Mirrored(4 * g + 1, k - 1), 2 * (2 * g - k + 1);
      Regroup(f, e, t);
    }
  }

  lemma {:induction false} MirroredSign(p: nat, n: nat)
    requires p > 0
    ensures Cong(Mirrored(p, n), Sign(n) * Odds(n), p)
  {
    Multiple(p, 0);
    if n > 0 {
      MirroredSign(p, n - 1);
      var f := 2 * n - 1;
      Multiple(p, 1);
      CongMul(p - f, -f, Mirrored(p, n - 1), Sign(n - 1) * Odds(n - 1), p);
      SignedOdds(n);
      MirroredStep(p, n);
    }
  }

  lemma {:induction false} MirroredStep(p: nat, n: nat)
    requires n > 0
    ensures Mirrored(p, n) == (p - (2 * n - 1)) * Mirrored(p, n - 1)
  {
  }

  lemma {:induction false} SignedOdds(n: nat)
    requires n > 0
    ensures Sign(n) * Odds(n) == -(2 * n - 1) * (Sign(n - 1) * Odds(n - 1))
  {
    var s, f, o := Sign(n - 1), 2 * n - 1, Odds(n - 1);
    assert Sign(n) == -1 * s && Odds(n) == f * o;
    Exchange(-1, s, f, o);
    Exchange(-1, f, s, o);
  }

  lemma {:induction false} PrimeFactorial(p: nat, n: nat)
    requires Prime(p) && n < p
    ensures !Divides(p, Factorial(n))
  {
    if n > 0 {
      PrimeFactorial(p, n - 1);
      if Divides(p, Factorial(n)) {
        EuclidBelow(p, n, Factorial(n - 1));
      }
    } else if Divides(p, 1) {
      DividesSmall(p, 1);
    }
  }

  /** The product of the first `2g` even numbers is `-(2g)!`. */
  lemma {:induction false} EvensMirrored(p: nat, g: nat)
    requires p == 4 * g + 1 && g % 2 == 1
    ensures Cong(Evens(2 * g), -Factorial(2 * g), p)
  {
    EvensSplit(g, g);
    EvensAndOdds(g);
    MirroredSign(p, g);
    Multiple(p, 0);
    var e, o := Evens(g), Odds(g);
    CongMul(e, e, Mirrored(p, g), -1 * o, p);
    Regroup(e, -1, o);
  }

  /** Euler's criterion for 2, by pairing the even numbers above `p / 2` with the odd ones. */
  lemma {:induction false} TwoIsNonResidue(p: nat, g: nat)
    requires Prime(p) && p == 4 * g + 1 && g % 2 == 1
    ensures Cong(Pow(2, 2 * g), -1, p)
  {
    var f, t := Factorial(2 * g), Pow(2, 2 * g);
    EvensArePower(2 * g);
    EvensMirrored(p, g);
    Distribute(f, t, 1);
    PrimeFactorial(p, 2 * g);
    Euclid(p, f, t + 1);
  }

  // ----- square roots -----

  lemma {:induction false} SquareIsOne(t: int, p: nat)
    requires Prime(p) && Cong(t * t, 1, p)
    ensures Cong(t, 1, p) || Cong(t, -1, p)
  {
    assert t * t - 1 == (t - 1) * (t + 1);
    Euclid(p, t - 1, t + 1);
  }

  lemma {:induction false} DividesSquare(r: int, w: int, p: nat)
    requires Prime(p) && Cong(r * r, w, p)
    ensures Divides(p, w) <==> Divides(p, r)
  {
    if Divides(p, w) {
      DividesSum(p, r * r - w, w);
      Euclid(p, r, r);
    }
    if Divides(p, r) {
      DividesProduct(p, r, r);
      DividesSum(p, r * r, r * r - w);
    }
  }

  /** The quarter power of a square is 1 or -1. */
  lemma {:induction false} QuarterPower(r: int, w: int, p: nat, g: nat)
    requires Prime(p) && p == 4 * g + 1 && Cong(r * r, w, p) && !Divides(p, w)
    ensures Cong(Pow(w, g), 1, p) || Cong(Pow(w, g), -1, p)
  {
    DividesSquare(r, w, p);
    Fermat(r, p);
    CongPow(r * r, w, 2 * g, p);
    PowProduct(r, r, 2 * g);
    PowSum(r, 2 * g, 2 * g);
    CongFlip(Pow(r * r, 2 * g), Pow(w, 2 * g), p);
    CongTrans(Pow(w, 2 * g), Pow(r, 4 * g), 1, p);
    PowSum(w, g, g);
    SquareIsOne(Pow(w, g), p);
  }

  lemma {:induction false} CandidateSquare(w: int, g: nat)
    requires g % 2 == 1
    ensures var c := Pow(w, (g + 1) / 2); c * c == w * Pow(w, g)
  {
    PowSum(w, (g + 1) / 2, (g + 1) / 2);
  }

  lemma {:induction false} Corrected(c: int, i: int, w: int, p: nat)
    requires p > 0 && Cong(c * c, w * -1, p) && Cong(i * i, -1, p)
    ensures Cong(c * i * (c * i), w, p)
  {
    CongMul(c * c, w * -1, i * i, -1, p);
    Exchange(c, i, c, i);
  }

  /** The candidate `w^((p+3)/8)`, multiplied by `2^((p-1)/4)` when its square is not `w`,
      squares to `w` whenever anything does. */
  lemma {:induction false} RootFound(r: int, w: int, p: nat, g: nat)
    requires Prime(p) && p == 4 * g + 1 && g % 2 == 1 && Cong(r * r, w, p)
    ensures var c := Pow(w, (g + 1) / 2);
            var x := c * Pow(2, g);
            Cong(c * c, w, p) || Cong(x * x, w, p)
  {
    var c, t := Pow(w, (g + 1) / 2), Pow(w, g);
    CandidateSquare(w, g);
    if Divides(p, w) {
      DividesProduct(p, w, t);
      DividesSum(p, w * t, w);
    } else {
      QuarterPower(r, w, p, g);
      Multiple(p, 0);
      if Cong(t, 1, p) {
        CongMul(w, w, t, 1, p);
      } else {
        CongMul(w, w, t, -1, p);
        TwoIsNonResidue(p, g);
        PowSum(2, g, g);
        Corrected(c, Pow(2, g), w, p);
      }
    }
  }
}
