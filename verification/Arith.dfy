/**
 Division and multiplication facts used for chunk offsets and windows:

 - how many pieces cover a length, and where each starts (`CeilDiv`);
 - products and order, with the distributive and associative laws as lemmas, so
   that proofs can name the products they need;
 - quotient and remainder: uniqueness, multiples, steps, remainders that differ;
 - greatest common divisors: what they divide, Bezout's identity, and the largest
   remainder a multiple can leave.

 Everything is over mathematical integers.
 */
module Arith {

  /** How many pieces of size `c` cover `len`. */
  function CeilDiv(len: nat, c: nat): nat
    requires c >= 1
  {
    (len + c - 1) / c
  }

  lemma {:induction false} MulLe(a: nat, b: nat, c: nat)
    requires a <= b
    ensures a * c <= b * c
  {
    assert (b - a) * c >= 0;
    assert b * c == a * c + (b - a) * c;
  }

  lemma MulLt(a: nat, b: nat, c: nat)
    requires a < b
    ensures a * c + c <= b * c
  {
    MulLe(a + 1, b, c);
    assert (a + 1) * c == a * c + c;
  }

  lemma CeilDivBounds(len: nat, c: nat)
    requires c >= 1
    ensures len <= CeilDiv(len, c) * c < len + c
    ensures len >= 1 ==> CeilDiv(len, c) >= 1
  {
    var a := len + c - 1;
    assert a == a / c * c + a % c;
  }

  /** Piece `i` starts inside `len` exactly when it is counted. */
  lemma PieceStarts(len: nat, c: nat, i: nat)
    requires c >= 1
    ensures i < CeilDiv(len, c) <==> i * c < len
  {
    CeilDivBounds(len, c);
    var n := CeilDiv(len, c);
    if i < n {
      MulLt(i, n, c);
    } else {
      MulLe(n, i, c);
    }
  }

  lemma DivModUnique(a: nat, s: nat, q: nat, r: nat)
    requires s >= 1 && a == q * s + r && r < s
    ensures a % s == r && a / s == q
  {
    assert a == a / s * s + a % s;
    if q < a / s {
      MulLt(q, a / s, s);
    } else if a / s < q {
      MulLt(a / s, q, s);
    }
  }

  lemma MultipleMod(k: nat, s: nat)
    requires s >= 1
    ensures (k * s) % s == 0
  {
    DivModUnique(k * s, s, k, 0);
  }

  lemma SumOfMultiples(a: nat, b: nat, s: nat)
    requires s >= 1 && a % s == 0 && b % s == 0
    ensures (a + b) % s == 0
  {
    assert a == a / s * s && b == b / s * s;
    assert (a / s + b / s) * s == a / s * s + b / s * s;
    MultipleMod(a / s + b / s, s);
  }

  lemma {:induction false} StepMod(a: nat, s: nat)
    requires s >= 1
    ensures (a + 1) % s == if a % s + 1 == s then 0 else a % s + 1
  {
    assert a == a / s * s + a % s;
    if a % s + 1 == s {
      assert (a / s + 1) * s == a / s * s + s;
      DivModUnique(a + 1, s, a / s + 1, 0);
    } else {
      DivModUnique(a + 1, s, a / s, a % s + 1);
    }
  }

  function Gcd(a: nat, b: nat): nat
    decreases b
  {
    if b == 0 then a else Gcd(b, a % b)
  }

  lemma Assoc(a: int, b: int, c: int)
    ensures a * (b * c) == a * b * c
  {
  }

  lemma Distribute(a: int, b: int, c: int)
    ensures (a + b) * c == a * c + b * c && (a - b) * c == a * c - b * c
  {
  }

  /** What divides `b` and the remainder divides the number. */
  lemma MultipleOfDivisor(a: nat, b: nat, g: nat)
    requires b >= 1 && g >= 1 && b % g == 0 && (a % b) % g == 0
    ensures a % g == 0
  {
    var q, k, j := a / b, b / g, (a % b) / g;
    assert b == k * g && a % b == j * g && a == q * b + a % b;
    Assoc(q, k, g);
    Distribute(q * k, j, g);
    MultipleMod(q * k + j, g);
  }

  lemma {:induction false} GcdDivides(a: nat, b: nat)
    requires a >= 1 || b >= 1
    ensures Gcd(a, b) >= 1 && a % Gcd(a, b) == 0 && b % Gcd(a, b) == 0
    decreases b
  {
    if b == 0 {
      MultipleMod(1, a);
      MultipleMod(0, a);
    } else {
      GcdDivides(b, a % b);
      MultipleOfDivisor(a, b, Gcd(a, b));
    }
  }

  lemma {:induction false} Bezout(a: nat, b: nat) returns (x: int, y: int)
    ensures a * x + b * y == Gcd(a, b)
    decreases b
  {
    if b == 0 {
      return 1, 0;
    }
    var u, v := Bezout(b, a % b);
    var q, r := a / b, a % b;
    x, y := v, u - q * v;
    assert a == q * b + r;
    Distribute(q * b, r, v);
    Distribute(u, q * v, b);
    Assoc(q, b, v);
    Assoc(q, v, b);
  }

  lemma ModFrom(a: nat, s: nat, q: int, r: nat)
    requires s >= 1 && a == q * s + r && r < s
    ensures a % s == r
  {
    if q < 0 {
      MulLe(1, -q, s);
      Distribute(0, q, s);
    }
    DivModUnique(a, s, q, r);
  }

  /** The remainder of a multiple of `g`, modulo a multiple of `g`, is at most `s - g`. */
  lemma RemainderOfMultiple(a: nat, s: nat, g: nat)
    requires g >= 1 && s >= 1 && a % g == 0 && s % g == 0
    ensures a % s + g <= s
  {
    var q, k, j := a / s, s / g, a / g;
    var r := a % s;
    assert a == q * s + r && s == k * g && a == j * g;
    Assoc(q, k, g);
    Distribute(j, q * k, g);
    assert r == (j - q * k) * g;
    if j - q * k >= k {
      MulLe(k, j - q * k, g);
    } else if j - q * k >= 0 {
      MulLt(j - q * k, k, g);
    } else {
      MulLe(1, q * k - j, g);
      Distribute(q * k, j, g);
    }
  }

  lemma Combine(w: nat, s: nat, x: int, y: int, g: nat, k: nat)
    requires w * x + s * y == g
    ensures (k * s - x) * w == (k * w + y - 1) * s + (s - g)
  {
    Distribute(k * s, x, w);
    Distribute(k * w + y, 1, s);
    Distribute(k * w, y, s);
    Assoc(k, s, w);
    Assoc(k, w, s);
  }

  /** Some multiple of `w` leaves the largest remainder modulo `s` that its divisors allow. */
  lemma LargestRemainder(w: nat, s: nat) returns (m: nat)
    requires w >= 1 && s >= 1
    ensures (m * w) % s == s - Gcd(w, s)
  {
    var g := Gcd(w, s);
    GcdDivides(w, s);
    RemainderOfMultiple(0, s, g);
    var x, y := Bezout(w, s);
    var k := if x >= 0 then x else -x;
    MulLe(1, s, k);
    m := k * s - x;
    Combine(w, s, x, y, g, k);
    ModFrom(m * w, s, k * w + y - 1, s - g);
  }

  lemma GcdAtMost(w: nat, s: nat)
    requires w >= 1 && s >= 1
    ensures Gcd(w, s) <= s
  {
    GcdDivides(w, s);
    RemainderOfMultiple(0, s, Gcd(w, s));
  }

  /** A multiple of `s` up to `p` is at most the last one up to `p`. */
  lemma MultipleBelow(a: nat, p: nat, s: nat)
    requires s >= 1 && a % s == 0 && a <= p
    ensures a <= p - p % s
  {
    var k, b := a / s, p / s;
    assert a == k * s && p == b * s + p % s;
    if k > b {
      MulLt(b, k, s);
    } else {
      MulLe(k, b, s);
    }
  }

  /** Numbers less than `s` apart have different remainders. */
  lemma ModDiffer(i: nat, j: nat, s: nat)
    requires s >= 1 && i < j < i + s
    ensures i % s != j % s
  {
    if i % s == j % s {
      var a, b := i / s, j / s;
      assert i == a * s + i % s && j == b * s + j % s;
      if b <= a {
        MulLe(b, a, s);
      } else {
        MulLt(a, b, s);
      }
    }
  }
}
