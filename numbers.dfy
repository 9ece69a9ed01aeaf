/** Python's `math.gcd` and `math.lcm` on natural numbers: Euclid's
    algorithm, and the least common multiple folded left to right. */
module Numbers {

  /** `d` divides `n`: some multiple of `d` is `n`. */
  ghost predicate Divides(d: nat, n: nat)
  {
    exists k: nat :: n == d * k
  }

  /** `math.gcd(a, b)`. */
  function Gcd(a: nat, b: nat): (r: nat)
    ensures a > 0 || b > 0 ==> r > 0
    decreases b
  {
    if b == 0 then a else Gcd(b, a % b)
  }

  /** `lcm(a, b)` as `math.lcm` computes it: `a // gcd(a, b) * b`, and 0
      when either is 0. */
  function Lcm(a: nat, b: nat): nat
  {
    if a == 0 || b == 0 then 0 else a / Gcd(a, b) * b
  }

  /** `math.lcm(*xs)`: 1 for no arguments, folded from the left. */
  function LcmAll(xs: seq<nat>): nat
  {
    if xs == [] then 1 else Lcm(LcmAll(xs[..|xs| - 1]), xs[|xs| - 1])
  }

  lemma {:induction false} DividesLinear(d: nat, x: nat, y: nat, c: nat)
    requires Divides(d, x) && Divides(d, y)
    ensures Divides(d, c * x + y)
  {
    var p: nat :| x == d * p;
    var q: nat :| y == d * q;
    Regroup(c, d, p);
    Distribute(d, c * p, q);
    assert c * x + y == d * (c * p + q);
  }

  lemma {:induction false} DividesDifference(d: nat, x: nat, y: nat, c: nat)
    requires Divides(d, x) && Divides(d, y) && c * x <= y
    ensures Divides(d, y - c * x)
  {
    var p: nat :| x == d * p;
    var q: nat :| y == d * q;
    Regroup(c, d, p);
    Distribute(d, q, -(c * p));
    assert y - c * x == d * (q - c * p);
    if d > 0 {
      NonNegativeFactor(d, q - c * p);
      MultipleOf(d, q - c * p);
    } else {
      assert y - c * x == d * 0;
    }
  }

  /** The gcd divides both arguments. */
  lemma {:induction false} GcdDivides(a: nat, b: nat)
    ensures Divides(Gcd(a, b), a) && Divides(Gcd(a, b), b)
    decreases b
  {
    if b == 0 {
      assert a == a * 1 && 0 == a * 0;
    } else {
      var g, q, m := Gcd(a, b), a / b, a % b;
      assert g == Gcd(b, m);
      GcdDivides(b, m);
      DividesLinear(g, b, m, q);
      assert q * b + m == a;
    }
  }

  /** ... and every common divisor divides it. */
  lemma {:induction false} GcdGreatest(a: nat, b: nat, d: nat)
    requires Divides(d, a) && Divides(d, b)
    ensures Divides(d, Gcd(a, b))
    decreases b
  {
    if b != 0 {
      assert a / b * b + a % b == a;
      DividesDifference(d, b, a, a / b);
      GcdGreatest(b, a % b, d);
    }
  }

  lemma {:induction false} MulAtLeast(g: nat, x: int)
    requires g > 0 && x >= 1
    ensures g * x >= g
  {
    assert g * x == g + g * (x - 1);
  }

  lemma {:induction false} DivExact(g: nat, p: nat)
    requires g > 0
    ensures g * p / g == p
  {
    var n := g * p;
    var r := n / g;
    assert n == g * r + n % g;
    assert g * (p - r) == n % g;
    if p - r >= 1 {
      MulAtLeast(g, p - r);
    }
  }

  /** The remainder is the only one below `l`. */
  lemma {:induction false} ModUnique(n: int, l: nat, x: int, r: int)
    requires l > 0 && n == l * x + r && 0 <= r < l
    ensures n % l == r
  {
    assert n == l * (n / l) + n % l;
    assert l * (x - n / l) == n % l - r;
    if x - n / l >= 1 {
      MulAtLeast(l, x - n / l);
    } else if n / l - x >= 1 {
      MulAtLeast(l, n / l - x);
    }
  }

  /** Adding a multiple of `l` leaves the remainder unchanged. */
  lemma {:induction false} ModShift(a: nat, c: nat, l: nat)
    requires l > 0 && a % l == 0
    ensures (a + c) % l == c % l
  {
    var q, d := a / l, c / l;
    assert a == l * q;
    assert c == l * d + c % l;
    Distribute(l, q, d);
    ModUnique(a + c, l, q + d, c % l);
  }

  lemma {:induction false} DividesTransitive(a: nat, b: nat, c: nat)
    requires Divides(a, b) && Divides(b, c)
    ensures Divides(a, c)
  {
    var p: nat :| b == a * p;
    var q: nat :| c == b * q;
    assert c == a * (p * q);
  }

  /** Bezout's identity, by the extended Euclidean algorithm. */
  lemma {:induction false} Bezout(a: nat, b: nat) returns (x: int, y: int)
    ensures x * a + y * b == Gcd(a, b)
    decreases b
  {
    if b == 0 {
      x, y := 1, 0;
    } else {
      var x', y' := Bezout(b, a % b);
      assert a % b == a - a / b * b;
      x, y := y', x' - y' * (a / b);
      calc {
        x * a + y * b;
        y' * a + x' * b - y' * (a / b) * b;
        x' * b + y' * (a - a / b * b);
        Gcd(a, b);
      }
    }
  }

  lemma {:induction false} MultipleOf(d: nat, k: nat)
    ensures Divides(d, d * k)
  {
  }

  /** For positive arguments, `lcm(a, b)` is a positive multiple of both
      ... */
  lemma {:induction false} LcmCommonMultiple(a: nat, b: nat)
    requires a > 0 && b > 0
    ensures Lcm(a, b) > 0 && Divides(a, Lcm(a, b)) && Divides(b, Lcm(a, b))
  {
    var g := Gcd(a, b);
    GcdDivides(a, b);
    var p: nat :| a == g * p;
    var q: nat :| b == g * q;
    DivExact(g, p);
    var l := Lcm(a, b);
    assert l == p * b;
    assert p >= 1;
    MulAtLeast(b, p);
    assert l == b * p;
    MultipleOf(b, p);
    assert l == a * q by {
      assert p * (g * q) == (g * p) * q;
    }
    MultipleOf(a, q);
  }

  lemma {:induction false} Cancel(g: int, u: int, v: int)
    requires g > 0 && g * u == g * v
    ensures u == v
  {
    assert g * (u - v) == 0;
    if u - v >= 1 {
      MulAtLeast(g, u - v);
    } else if v - u >= 1 {
      MulAtLeast(g, v - u);
    }
  }

  lemma {:induction false} NonNegativeFactor(l: int, k: int)
    requires l > 0 && l * k >= 0
    ensures k >= 0
  {
    if k < 0 {
      MulAtLeast(l, -k);
    }
  }

  lemma {:induction false} Distribute(u: int, v: int, w: int)
    ensures u * (v + w) == u * v + u * w
  {
  }

  lemma {:induction false} Regroup(u: int, v: int, w: int)
    ensures u * (v * w) == (u * v) * w == v * (u * w)
  {
  }

  /** The algebra of `LcmLeast`: with `x * a + y * b == g`, a common
      multiple `m` of `a` and `b` times `g` is `g * l` times an integer. */
  lemma {:induction false} ScaledMultiple(a: int, b: int, g: int, p: int, l: int, x: int, y: int, m: int, s: int, t: int)
    requires x * a + y * b == g && a == g * p && l == p * b
    requires m == a * s && m == b * t
    ensures m * g == g * (l * (x * t + y * s))
  {
    var ab := a * b;
    calc {
      m * g;
      { Distribute(m, x * a, y * b); }
      m * (x * a) + m * (y * b);
      { Regroup(m, x, a); Regroup(m, y, b); }
      x * (m * a) + y * (m * b);
      { assert m * a == (b * t) * a == ab * t by { Regroup(b, t, a); }
        assert m * b == (a * s) * b == ab * s by { Regroup(a, s, b); } }
      x * (ab * t) + y * (ab * s);
      { Regroup(x, ab, t); Regroup(y, ab, s); }
      ab * (x * t) + ab * (y * s);
      { Distribute(ab, x * t, y * s); }
      ab * (x * t + y * s);
      { assert ab == (g * p) * b == g * l by { Regroup(g, p, b); } }
      (g * l) * (x * t + y * s);
      { Regroup(g, l, x * t + y * s); }
      g * (l * (x * t + y * s));
    }
  }

  /** ... and divides every common multiple. */
  lemma {:induction false} LcmLeast(a: nat, b: nat, m: nat)
    requires a > 0 && b > 0 && Divides(a, m) && Divides(b, m)
    ensures Divides(Lcm(a, b), m)
  {
    var g := Gcd(a, b);
    GcdDivides(a, b);
    var p: nat :| a == g * p;
    DivExact(g, p);
    var l := Lcm(a, b);
    assert l == p * b;
    var s: nat :| m == a * s;
    var t: nat :| m == b * t;
    var x, y := Bezout(a, b);
    var k := x * t + y * s;
    ScaledMultiple(a, b, g, p, l, x, y, m, s, t);
    assert g * m == g * (l * k);
    Cancel(g, m, l * k);
    LcmCommonMultiple(a, b);
    NonNegativeFactor(l, k);
    MultipleOf(l, k);
  }

  /** `math.lcm(*xs)` of positive numbers is a positive common multiple of
      them all that divides every other common multiple. */
  lemma {:induction false} LcmAllLeast(xs: seq<nat>)
    requires forall i :: 0 <= i < |xs| ==> xs[i] > 0
    ensures LcmAll(xs) > 0
    ensures forall i :: 0 <= i < |xs| ==> Divides(xs[i], LcmAll(xs))
    ensures forall m: nat :: (forall i :: 0 <= i < |xs| ==> Divides(xs[i], m)) ==> Divides(LcmAll(xs), m)
    decreases |xs|
  {
    if xs == [] {
      forall m: nat ensures Divides(1, m) {
        assert m == 1 * m;
      }
    } else {
      var init, last := xs[..|xs| - 1], xs[|xs| - 1];
      LcmAllLeast(init);
      var l := LcmAll(init);
      LcmCommonMultiple(l, last);
      forall i | 0 <= i < |xs| ensures Divides(xs[i], LcmAll(xs)) {
        if i < |xs| - 1 {
          assert xs[i] == init[i];
          DividesTransitive(xs[i], l, LcmAll(xs));
        }
      }
      forall m: nat | forall i :: 0 <= i < |xs| ==> Divides(xs[i], m)
        ensures Divides(LcmAll(xs), m)
      {
        assert forall i :: 0 <= i < |init| ==> Divides(init[i], m) by {
          forall i | 0 <= i < |init| ensures Divides(init[i], m) {
            assert init[i] == xs[i];
          }
        }
        LcmLeast(l, last, m);
      }
    }
  }

  /** Hence no smaller positive number is a common multiple. */
  lemma {:induction false} DividesBound(d: nat, m: nat)
    requires Divides(d, m) && m > 0
    ensures d <= m
  {
    var k: nat :| m == d * k;
    if k > 0 {
      assert d * k == d + d * (k - 1);
    }
  }
}
