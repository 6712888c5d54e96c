/**
  Bytewise string order, and numerals: with a fixed number of digits, and digit characters
  that grow with the digit, string order is numeric order.
 */
module Numerals {

  // ---------- string order ----------

  predicate Less(s: string, t: string) {
    t != [] && (s == [] || s[0] < t[0] || (s[0] == t[0] && Less(s[1..], t[1..])))
  }

  lemma {:induction false} LessIrreflexive(s: string)
    ensures !Less(s, s)
  {
    if s != [] {
      LessIrreflexive(s[1..]);
    }
  }

  lemma {:induction false} LessTotal(s: string, t: string)
    ensures Less(s, t) || s == t || Less(t, s)
  {
    if s != [] && t != [] && s[0] == t[0] {
      LessTotal(s[1..], t[1..]);
      assert s == [s[0]] + s[1..] && t == [t[0]] + t[1..];
    }
  }

  lemma {:induction false} LessTransitive(s: string, t: string, u: string)
    requires Less(s, t) && Less(t, u)
    ensures Less(s, u)
  {
    if s != [] && s[0] == t[0] == u[0] {
      LessTransitive(s[1..], t[1..], u[1..]);
    }
  }

  // The order of two strings is that of their equally long beginnings, or of what follows.
  lemma {:induction false} LessAppend(s: string, t: string, x: string, y: string)
    requires |s| == |t|
    ensures Less(s + x, t + y) <==> Less(s, t) || (s == t && Less(x, y))
  {
    if s == [] {
      assert s + x == x && t + y == y;
    } else {
      LessAppend(s[1..], t[1..], x, y);
      assert (s + x)[1..] == s[1..] + x && (t + y)[1..] == t[1..] + y;
      assert s == [s[0]] + s[1..] && t == [t[0]] + t[1..];
    }
  }

  // ---------- fixed-width numerals ----------

  // The last `w` digits of `n` in base `b`, most significant first.
  function Numeral(n: nat, w: nat, b: nat, digit: nat -> char): (s: string)
    requires 0 < b
    ensures |s| == w
    decreases w
  {
    if w == 0 then [] else Numeral(n / b, w - 1, b, digit) + [digit(n % b)]
  }

  // `n` without its last `w` digits.
  function Drop(n: nat, w: nat, b: nat): nat
    requires 0 < b
    decreases w
  {
    if w == 0 then n else Drop(n / b, w - 1, b)
  }

  predicate Fits(n: nat, w: nat, b: nat)
    requires 0 < b
  {
    Drop(n, w, b) == 0
  }

  ghost predicate Growing(digit: nat -> char, b: nat) {
    forall i, j :: 0 <= i < j < b ==> digit(i) < digit(j)
  }

  // Quotients order numbers, and remainders decide between equal quotients.
  lemma DivOrder(n: nat, m: nat, b: nat) returns (q: nat, x: nat, p: nat, y: nat)
    requires 0 < b && n < m
    ensures q == n / b && x == n % b && p == m / b && y == m % b && x < b && y < b
    ensures q < p || (q == p && x < y)
  {
    q, x, p, y := n / b, n % b, m / b, m % b;
    DivParts(n, b, q, x);
    DivParts(m, b, p, y);
    MulOrder(p, q, b);
  }

  lemma DivParts(n: nat, b: nat, q: nat, x: nat)
    requires 0 < b && q == n / b && x == n % b
    ensures n == b * q + x && x < b
  {
  }

  lemma {:induction false} MulOrder(a: nat, c: nat, b: nat)
    ensures a < c ==> b * a + b <= b * c
  {
    if a < c {
      MulOrder(a, c - 1, b);
      assert b * c == b * (c - 1) + b;
    }
  }

  /** Fixed-width numerals compare bytewise as their numbers do. */
  lemma {:induction false} NumeralGrows(n: nat, m: nat, w: nat, b: nat, digit: nat -> char)
    requires 0 < b && Growing(digit, b) && Fits(n, w, b) && Fits(m, w, b) && n < m
    ensures Less(Numeral(n, w, b, digit), Numeral(m, w, b, digit))
    decreases w
  {
    if w > 0 {
      var q, x, p, y := DivOrder(n, m, b);
      LessAppend(Numeral(q, w - 1, b, digit), Numeral(p, w - 1, b, digit), [digit(x)], [digit(y)]);
      if q < p {
        NumeralGrows(q, p, w - 1, b, digit);
      }
    }
  }

  /** Both directions, and injectivity. */
  lemma NumeralOrder(n: nat, m: nat, w: nat, b: nat, digit: nat -> char)
    requires 0 < b && Growing(digit, b) && Fits(n, w, b) && Fits(m, w, b)
    ensures n < m <==> Less(Numeral(n, w, b, digit), Numeral(m, w, b, digit))
    ensures n == m <==> Numeral(n, w, b, digit) == Numeral(m, w, b, digit)
  {
    LessIrreflexive(Numeral(n, w, b, digit));
    if n < m {
      NumeralGrows(n, m, w, b, digit);
    } else if m < n {
      NumeralGrows(m, n, w, b, digit);
      if Less(Numeral(n, w, b, digit), Numeral(m, w, b, digit)) {
        LessTransitive(Numeral(n, w, b, digit), Numeral(m, w, b, digit), Numeral(n, w, b, digit));
      }
    }
  }

  // The first digits of a numeral are the numeral of what is left without the others.
  lemma {:induction false} NumeralPrefix(n: nat, w: nat, k: nat, b: nat, digit: nat -> char)
    requires 0 < b
    ensures Numeral(n, w + k, b, digit)[..w] == Numeral(Drop(n, k, b), w, b, digit)
    decreases k
  {
    if k == 0 {
      assert Numeral(n, w, b, digit)[..w] == Numeral(n, w, b, digit);
    } else {
      var q, d := n / b, digit(n % b);
      NumeralPrefix(q, w, k - 1, b, digit);
      var front := Numeral(q, w + k - 1, b, digit);
      assert Numeral(n, w + k, b, digit) == front + [d];
      assert (front + [d])[..w] == front[..w];
      assert Drop(n, k, b) == Drop(q, k - 1, b);
    }
  }
}
