/** Strings in lexicographic order by code point, the order of DynamoDB sort keys
    and of Python's sorted(). */
module Lex {

  predicate LexLt(a: string, b: string)
    decreases |a|
  {
    if b == [] then false
    else if a == [] then true
    else a[0] < b[0] || (a[0] == b[0] && LexLt(a[1..], b[1..]))
  }

  predicate LexLe(a: string, b: string) {
    a == b || LexLt(a, b)
  }

  lemma {:induction false} LexTotal(a: string, b: string)
    ensures LexLt(a, b) || a == b || LexLt(b, a)
    ensures !(LexLt(a, b) && LexLt(b, a))
    ensures !LexLt(a, a)
    decreases |a|
  {
    if a != [] && b != [] {
      LexTotal(a[1..], b[1..]);
      assert a == [a[0]] + a[1..] && b == [b[0]] + b[1..];
    }
    LexIrreflexive(a);
  }

  lemma {:induction false} LexIrreflexive(a: string)
    ensures !LexLt(a, a)
    decreases |a|
  {
    if a != [] {
      LexIrreflexive(a[1..]);
    }
  }

  lemma {:induction false} LexTransitive(a: string, b: string, c: string)
    requires LexLt(a, b) && LexLt(b, c)
    ensures LexLt(a, c)
    decreases |a|
  {
    if a != [] && a[0] == b[0] && b[0] == c[0] {
      LexTransitive(a[1..], b[1..], c[1..]);
    }
  }

  lemma LexLeTransitive(a: string, b: string, c: string)
    requires LexLe(a, b) && LexLe(b, c)
    ensures LexLe(a, c)
  {
    if a != b && b != c {
      LexTransitive(a, b, c);
    }
  }

  /** Behind equally long prefixes, the order is that of the prefixes, then that of the rest. */
  lemma {:induction false} LexConcat(p: string, q: string, x: string, y: string)
    requires |p| == |q|
    ensures LexLt(p + x, q + y) <==> LexLt(p, q) || (p == q && LexLt(x, y))
    decreases |p|
  {
    if p == [] {
      assert p + x == x && q + y == y;
    } else {
      assert (p + x)[1..] == p[1..] + x && (q + y)[1..] == q[1..] + y;
      assert p == [p[0]] + p[1..] && q == [q[0]] + q[1..];
      LexConcat(p[1..], q[1..], x, y);
    }
  }

  /** Every non-empty set of strings has a greatest one. */
  lemma {:induction false} MaxExists(keys: set<string>) returns (m: string)
    requires keys != {}
    ensures m in keys && forall k :: k in keys ==> LexLe(k, m)
    decreases |keys|
  {
    m :| m in keys;
    var rest := keys - {m};
    if rest != {} {
      var n := MaxExists(rest);
      LexTotal(m, n);
      if LexLt(m, n) {
        m := n;
      } else {
        forall k | k in keys ensures LexLe(k, m) {
          if k != m {
            LexLeTransitive(k, n, m);
          }
        }
      }
    }
  }

  // ---------------------------------------------------------------- fixed-width decimals

  function Pow10(w: nat): nat {
    if w == 0 then 1 else 10 * Pow10(w - 1)
  }

  function Digit(d: nat): char
    requires d < 10
  {
    "0123456789"[d]
  }

  function Digits(n: nat, w: nat): (s: string)
    ensures |s| == w
    decreases w
  {
    if w == 0 then [] else Digits(n / 10, w - 1) + [Digit(n % 10)]
  }

  /** The number a text of decimal digits stands for. */
  function ValueOf(s: string): int {
    if s == [] then 0 else 10 * ValueOf(s[..|s| - 1]) + (s[|s| - 1] as int - '0' as int)
  }

  /** Zero-padded numbers read back as themselves, digit by digit. */
  lemma {:induction false} DigitsReadBack(n: nat, w: nat)
    requires n < Pow10(w)
    ensures ValueOf(Digits(n, w)) == n && forall i :: 0 <= i < w ==> '0' <= Digits(n, w)[i] <= '9'
    decreases w
  {
    if w > 0 {
      DigitsReadBack(n / 10, w - 1);
      DigitValue(n % 10);
      var s := Digits(n, w);
      assert s[..w - 1] == Digits(n / 10, w - 1) && s[w - 1] == Digit(n % 10);
    }
  }

  lemma DigitValue(d: nat)
    requires d < 10
    ensures Digit(d) as int - '0' as int == d && '0' <= Digit(d) <= '9'
  {
  }

  lemma DigitOrder(d: nat, e: nat)
    requires d < 10 && e < 10
    ensures Digit(d) < Digit(e) <==> d < e
    ensures Digit(d) == Digit(e) <==> d == e
  {
  }

  /** Zero-padded numbers sort as numbers. */
  lemma {:induction false} DigitsOrder(n: nat, m: nat, w: nat)
    requires n < Pow10(w) && m < Pow10(w)
    ensures LexLt(Digits(n, w), Digits(m, w)) <==> n < m
    ensures Digits(n, w) == Digits(m, w) <==> n == m
    decreases w
  {
    if w > 0 {
      DigitsOrder(n / 10, m / 10, w - 1);
      DigitOrder(n % 10, m % 10);
      var x, y := [Digit(n % 10)], [Digit(m % 10)];
      LexConcat(Digits(n / 10, w - 1), Digits(m / 10, w - 1), x, y);
      assert LexLt(x, y) <==> n % 10 < m % 10;
      assert Digits(n, w) == Digits(m, w) ==> Digits(n / 10, w - 1) == Digits(m / 10, w - 1) && x == y by {
        if Digits(n, w) == Digits(m, w) {
          assert Digits(n, w)[..w - 1] == Digits(n / 10, w - 1);
          assert Digits(m, w)[..w - 1] == Digits(m / 10, w - 1);
          assert Digits(n, w)[w - 1] == x[0] && Digits(m, w)[w - 1] == y[0];
        }
      }
    }
  }
}
