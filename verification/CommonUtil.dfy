/** Greatest common divisor and least common multiple of `src/include/cmnutil.h`,
    proved to be the meet and the join of the divisibility order. */
module CommonUtil {

  /** `d` divides `n`; zero divides only zero. */
  predicate Divides(d: nat, n: nat) {
    if d == 0 then n == 0 else n % d == 0
  }

  lemma DivModUnique(n: nat, d: nat, q: nat, r: nat)
    requires d > 0 && r < d && n == q * d + r
    ensures n / d == q && n % d == r
  {
    QuotientUnique(d, n / d, n % d, q, r);
  }

  lemma QuotientUnique(d: nat, q: nat, r: nat, q': nat, r': nat)
    requires r < d && r' < d && q * d + r == q' * d + r'
    ensures q == q' && r == r'
  {
    NonNegativeFactor(q - q' , d, d - 1);
    NonNegativeFactor(q' - q, d, d - 1);
  }

  /** A product above `-d` with positive `d` has a non-negative other factor. */
  lemma NonNegativeFactor(k: int, d: nat, slack: int)
    requires d > 0 && slack < d && k * d + slack >= 0
    ensures k >= 0
  {
  }

  lemma Distribute(x: int, y: int, d: int)
    ensures (x + y) * d == x * d + y * d
  {
  }

  lemma ProductNonNegative(x: nat, d: nat)
    ensures x * d >= 0
  {
  }

  /** Multiples of `d` are at least `d` apart. */
  lemma MultiplesApart(n: int, m: int, d: nat)
    ensures n < m ==> n * d + d <= m * d
    ensures n <= m ==> n * d <= m * d
  {
    if n < m {
      Distribute(n + 1, m - n - 1, d);
      Distribute(n, 1, d);
      ProductNonNegative(m - n - 1, d);
    }
  }

  lemma DividesProduct(d: nat, k: nat)
    ensures Divides(d, k * d)
    ensures d > 0 ==> (k * d) / d == k
  {
    if d > 0 {
      DivModUnique(k * d, d, k, 0);
    }
  }

  /** The cofactor of a divisor. */
  lemma Cofactor(d: nat, n: nat) returns (k: nat)
    requires Divides(d, n)
    ensures n == k * d
    ensures d > 0 ==> k == n / d
  {
    k := if d == 0 then 0 else n / d;
  }

  lemma DividesTransitive(a: nat, b: nat, c: nat)
    requires Divides(a, b) && Divides(b, c)
    ensures Divides(a, c)
  {
    var x := Cofactor(a, b);
    var y := Cofactor(b, c);
    assert c == (y * x) * a;
    DividesProduct(a, y * x);
  }

  lemma DividesAntisymmetric(a: nat, b: nat)
    requires Divides(a, b) && Divides(b, a)
    ensures a == b
  {
    if a > 0 && b > 0 {
      DividesBounded(a, b);
      DividesBounded(b, a);
    }
  }

  lemma DividesBounded(a: nat, b: nat)
    requires Divides(a, b) && b > 0
    ensures 0 < a <= b
  {
    var k := Cofactor(a, b);
    assert k > 0 && a > 0 && (k - 1) * a >= 0;
  }

  lemma DividesSum(d: nat, a: nat, b: nat, q: nat)
    requires Divides(d, a) && Divides(d, b)
    ensures Divides(d, q * a + b)
  {
    var x := Cofactor(d, a);
    var y := Cofactor(d, b);
    Associate(q, x, d);
    Distribute(q * x, y, d);
    DividesProduct(d, q * x + y);
  }

  lemma Associate(x: int, y: int, d: int)
    ensures x * (y * d) == (x * y) * d
  {
  }

  lemma DividesDifference(d: nat, a: nat, b: nat, q: nat)
    requires Divides(d, a) && Divides(d, b) && q * b <= a && d > 0
    ensures Divides(d, a - q * b)
  {
    var x := Cofactor(d, a);
    var y := Cofactor(d, b);
    Associate(q, y, d);
    Distribute(x - q * y, q * y, d);
    NonNegativeFactor(x - q * y, d, 0);
    DividesProduct(d, x - q * y);
  }

  /** A common divisor of `a` and `b` divides `a % b`, and the converse. */
  lemma DividesRemainder(d: nat, a: nat, b: nat)
    requires b > 0
    ensures Divides(d, a) && Divides(d, b) ==> Divides(d, a % b)
    ensures Divides(d, b) && Divides(d, a % b) ==> Divides(d, a)
  {
    var q := a / b;
    assert a == q * b + a % b;
    if Divides(d, b) {
      if Divides(d, a) {
        DividesDifference(d, a, b, q);
      }
      if Divides(d, a % b) {
        DividesSum(d, b, a % b, q);
      }
    }
  }

  /** What the loop of `Gcd` computes. */
  function GcdOf(a: nat, b: nat): nat
    decreases b
  {
    if b == 0 then a else GcdOf(b, a % b)
  }

  /** The greatest common divisor: a number divides it exactly when it divides both arguments. */
  method Gcd(x: nat, y: nat) returns (g: nat)
    ensures g == GcdOf(x, y)
    ensures forall d: nat :: Divides(d, g) <==> Divides(d, x) && Divides(d, y)
  {
    var a, b := x, y;
    while b != 0
      invariant GcdOf(a, b) == GcdOf(x, y)
      decreases b
    {
      var temp := a % b;
      a := b;
      b := temp;
    }
    forall d: nat ensures Divides(d, a) <==> Divides(d, x) && Divides(d, y) {
      GcdIsMeet(x, y, d);
    }
    return a;
  }

  /** The gcd is the greatest lower bound: a number divides it exactly when it divides both. */
  lemma {:induction false} GcdIsMeet(a: nat, b: nat, d: nat)
    ensures Divides(d, GcdOf(a, b)) <==> Divides(d, a) && Divides(d, b)
    decreases b
  {
    if b == 0 {
      assert Divides(d, 0);
    } else {
      GcdIsMeet(b, a % b, d);
      DividesRemainder(d, a, b);
    }
  }

  lemma GcdDividesBoth(a: nat, b: nat)
    ensures Divides(GcdOf(a, b), a) && Divides(GcdOf(a, b), b)
    ensures a > 0 || b > 0 ==> GcdOf(a, b) > 0
  {
    DividesProduct(GcdOf(a, b), 1);
    GcdIsMeet(a, b, GcdOf(a, b));
  }

  lemma {:induction false} Bezout(a: nat, b: nat) returns (s: int, t: int)
    ensures s * a + t * b == GcdOf(a, b)
    decreases b
  {
    if b == 0 {
      s, t := 1, 0;
    } else {
      var s', t' := Bezout(b, a % b);
      var q := a / b;
      BezoutStep(a, b, q, s', t');
      s, t := t', s' - t' * q;
    }
  }

  lemma BezoutStep(a: int, b: int, q: int, s: int, t: int)
    ensures t * a + (s - t * q) * b == s * b + t * (a - q * b)
  {
  }

  /** What `Lcm` computes. */
  function LcmOf(a: nat, b: nat): nat {
    if a == 0 || b == 0 then 0
    else GcdDividesBoth(a, b); (a / GcdOf(a, b)) * b
  }

  /** The least common multiple: a number is a multiple of it exactly when it is one of both arguments. */
  method Lcm(a: nat, b: nat) returns (m: nat)
    ensures m == LcmOf(a, b)
    ensures forall n: nat :: Divides(m, n) <==> Divides(a, n) && Divides(b, n)
  {
    forall n: nat ensures Divides(LcmOf(a, b), n) <==> Divides(a, n) && Divides(b, n) {
      LcmIsJoin(a, b, n);
    }
    if a == 0 || b == 0 {
      return 0;
    }
    var g := Gcd(a, b);
    GcdDividesBoth(a, b);
    return (a / g) * b;
  }

  lemma LcmTimesGcd(a: nat, b: nat)
    ensures LcmOf(a, b) * GcdOf(a, b) == a * b
  {
    GcdDividesBoth(a, b);
    if a != 0 && b != 0 {
      var k := Cofactor(GcdOf(a, b), a);
      assert (k * b) * GcdOf(a, b) == (k * GcdOf(a, b)) * b;
    }
  }

  lemma LcmIsCommonMultiple(a: nat, b: nat)
    ensures Divides(a, LcmOf(a, b)) && Divides(b, LcmOf(a, b))
    ensures a > 0 && b > 0 ==> LcmOf(a, b) > 0
  {
    if a != 0 && b != 0 {
      GcdDividesBoth(a, b);
      var g := GcdOf(a, b);
      var x := Cofactor(g, a);
      var y := Cofactor(g, b);
      assert x > 0;
      assert x * b == x * (y * g) == y * (x * g) == y * a;
      DividesProduct(b, x);
      DividesProduct(a, y);
      assert x * b > 0;
    }
  }

  lemma LcmDividesMultiples(a: nat, b: nat, m: nat)
    requires Divides(a, m) && Divides(b, m)
    ensures Divides(LcmOf(a, b), m)
  {
    if a == 0 || b == 0 {
    } else {
      var g, l := GcdOf(a, b), LcmOf(a, b);
      GcdDividesBoth(a, b);
      LcmTimesGcd(a, b);
      LcmIsCommonMultiple(a, b);
      var s, t := Bezout(a, b);
      var x := Cofactor(a, m);
      var y := Cofactor(b, m);
      var k := s * y + t * x;
      LcmQuotient(a, b, m, g, l, s, t, x, y);
      assert m == k * l;
      NonNegativeFactor(k, l, 0);
      DividesProduct(l, k);
    }
  }

  /** The arithmetic of `LcmDividesMultiples`: m g = m (s a + t b) = (s y + t x) a b = k l g. */
  lemma LcmQuotient(a: nat, b: nat, m: nat, g: nat, l: nat, s: int, t: int, x: nat, y: nat)
    requires g > 0 && l * g == a * b && s * a + t * b == g && m == x * a && m == y * b
    ensures m == (s * y + t * x) * l
  {
    var k := s * y + t * x;
    calc {
      m * g;
      m * (s * a + t * b);
      m * (s * a) + m * (t * b);
      { assert m * (s * a) == (y * b) * (s * a) == (s * y) * (a * b);
        assert m * (t * b) == (x * a) * (t * b) == (t * x) * (a * b); }
      (s * y) * (a * b) + (t * x) * (a * b);
      k * (a * b);
      k * (l * g);
      (k * l) * g;
    }
    NonNegativeFactor(m - k * l, g, 0);
    NonNegativeFactor(k * l - m, g, 0);
  }

  /** The lcm is the least upper bound: a number is a multiple of it exactly when it is one of both. */
  lemma LcmIsJoin(a: nat, b: nat, m: nat)
    ensures Divides(LcmOf(a, b), m) <==> Divides(a, m) && Divides(b, m)
  {
    LcmIsCommonMultiple(a, b);
    if Divides(LcmOf(a, b), m) {
      DividesTransitive(a, LcmOf(a, b), m);
      DividesTransitive(b, LcmOf(a, b), m);
    }
    if Divides(a, m) && Divides(b, m) {
      LcmDividesMultiples(a, b, m);
    }
  }

  lemma LcmOfEqual(a: nat)
    ensures LcmOf(a, a) == a
  {
    DividesProduct(a, 1);
    LcmIsJoin(a, a, a);
    LcmIsCommonMultiple(a, a);
    DividesAntisymmetric(LcmOf(a, a), a);
  }
}
