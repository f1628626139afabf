/** Java string helpers the reader relies on: String.trim() and the decimal
    text of an integer (Integer/Long.toString). */
module Text {

  /** String.trim() removes every leading and trailing char at or below U+0020. */
  predicate Trimmable(c: char) {
    c <= ' '
  }

  predicate AllTrimmable(s: string) {
    forall i :: 0 <= i < |s| ==> Trimmable(s[i])
  }

  function TrimStart(s: string): string {
    if s != [] && Trimmable(s[0]) then TrimStart(s[1..]) else s
  }

  function TrimEnd(s: string): string {
    if s != [] && Trimmable(s[|s| - 1]) then TrimEnd(s[..|s| - 1]) else s
  }

  function Trim(s: string): string {
    TrimEnd(TrimStart(s))
  }

  /** TrimStart drops a prefix of trimmable chars and stops at the first other one. */
  lemma {:induction false} TrimStartDropsPrefix(s: string)
    ensures var r := TrimStart(s);
            && |r| <= |s| && r == s[|s| - |r|..]
            && AllTrimmable(s[..|s| - |r|])
            && (r == [] || !Trimmable(r[0]))
  {
    if s != [] && Trimmable(s[0]) {
      TrimStartDropsPrefix(s[1..]);
      var r := TrimStart(s[1..]);
      var dropped := s[..|s| - |r|];
      forall i | 0 <= i < |dropped| ensures Trimmable(dropped[i]) {
        if i > 0 {
          assert dropped[i] == s[1..][..|s| - 1 - |r|][i - 1];
        }
      }
    }
  }

  /** TrimEnd drops a suffix of trimmable chars and stops at the last other one. */
  lemma {:induction false} TrimEndDropsSuffix(s: string)
    ensures var r := TrimEnd(s);
            && |r| <= |s| && r == s[..|r|]
            && AllTrimmable(s[|r|..])
            && (r == [] || !Trimmable(r[|r| - 1]))
  {
    if s != [] && Trimmable(s[|s| - 1]) {
      TrimEndDropsSuffix(s[..|s| - 1]);
      var r := TrimEnd(s[..|s| - 1]);
      var dropped := s[|r|..];
      forall i | 0 <= i < |dropped| ensures Trimmable(dropped[i]) {
        if |r| + i < |s| - 1 {
          assert dropped[i] == s[..|s| - 1][|r|..][i];
        }
      }
    }
  }

  /** `line.trim().equals("")` holds exactly when every char of the line is at or below U+0020. */
  lemma TrimEmptyIffAllTrimmable(s: string)
    ensures Trim(s) == [] <==> AllTrimmable(s)
  {
    TrimStartDropsPrefix(s);
    var t := TrimStart(s);
    TrimEndDropsSuffix(t);
    if t == [] {
      assert s[..|s|] == s;
    } else {
      assert s[|s| - |t|] == t[0];
    }
  }

  /** A trimmed string is a piece of the original with no trimmable char at
      either end, and what was cut off before and after it is all trimmable. */
  lemma TrimIsTrimmed(s: string)
    ensures Trim(s) == [] || (!Trimmable(Trim(s)[0]) && !Trimmable(Trim(s)[|Trim(s)| - 1]))
    ensures exists i, j :: 0 <= i <= j <= |s| && Trim(s) == s[i..j]
                           && AllTrimmable(s[..i]) && AllTrimmable(s[j..])
  {
    TrimStartDropsPrefix(s);
    var t := TrimStart(s);
    TrimEndDropsSuffix(t);
    var r := TrimEnd(t);
    if r != [] {
      assert r[0] == t[0];
    }
    var i := |s| - |t|;
    var j := i + |r|;
    assert r == s[i..j];
    assert s[j..] == t[|r|..];
    assert AllTrimmable(s[..i]) && AllTrimmable(s[j..]);
  }

  function Digit(d: nat): (c: char)
    requires d < 10
    ensures '0' <= c <= '9'
  {
    ('0' as int + d) as char
  }

  /** n / 10 and n % 10 for a nat, written by repeated subtraction rather than
      with `/` and `%`: the solver reasons about these recursive definitions
      by unfolding, which keeps the proofs about decimal text (and every
      proof that mentions a generated id) cheap, where the nonlinear
      operators made them slow. TensUnits ties them back to n. */
  function Tens(n: nat): (q: nat)
    ensures n >= 10 ==> q < n
  {
    if n < 10 then 0 else 1 + Tens(n - 10)
  }

  function Units(n: nat): (d: nat)
    ensures d < 10
  {
    if n < 10 then n else Units(n - 10)
  }

  lemma {:induction false} TensUnits(n: nat)
    ensures n == 10 * Tens(n) + Units(n)
    ensures n < 10 <==> Tens(n) == 0
  {
    if n >= 10 {
      TensUnits(n - 10);
    }
  }

  /** Tens and Units are Java's `n / 10` and `n % 10` on a non-negative n. */
  lemma TensUnitsAreDivMod(n: nat)
    ensures Tens(n) == n / 10 && Units(n) == n % 10
  {
    TensUnits(n);
  }

  /** Decimal digits of a natural number, most significant first, no leading zeros. */
  function NatText(n: nat): string {
    if n < 10 then [Digit(n)] else NatText(Tens(n)) + [Digit(Units(n))]
  }

  lemma {:induction false} NatTextDigits(n: nat)
    ensures var r := NatText(n);
            && |r| >= 1
            && (forall i :: 0 <= i < |r| ==> '0' <= r[i] <= '9')
            && ((|r| == 1) == (n < 10))
  {
    if n >= 10 {
      NatTextDigits(Tens(n));
    }
  }

  /** Integer/Long.toString: a leading '-' for negative numbers, then the digits. */
  function IntText(n: int): string {
    if n < 0 then "-" + NatText(-n) else NatText(n)
  }

  lemma IntTextSign(n: int)
    ensures |IntText(n)| >= 1
    ensures (IntText(n)[0] == '-') == (n < 0)
  {
    NatTextDigits(if n < 0 then -n else n);
  }

  lemma DigitInjective(a: nat, b: nat)
    requires a < 10 && b < 10 && Digit(a) == Digit(b)
    ensures a == b
  {
  }

  /** Distinct numbers have distinct decimal texts. */
  lemma {:induction false} NatTextInjective(a: nat, b: nat)
    requires NatText(a) == NatText(b)
    ensures a == b
  {
    var s := NatText(a);
    NatTextDigits(a);
    NatTextDigits(b);
    if a >= 10 && b >= 10 {
      assert NatText(Tens(a)) == s[..|s| - 1] == NatText(Tens(b));
      NatTextInjective(Tens(a), Tens(b));
      DigitInjective(Units(a), Units(b));
      TensUnits(a);
      TensUnits(b);
    } else if a < 10 && b < 10 {
      assert s[0] == Digit(a) && s[0] == Digit(b);
      DigitInjective(a, b);
    }
  }

  lemma IntTextInjective(a: int, b: int)
    requires IntText(a) == IntText(b)
    ensures a == b
  {
    IntTextSign(a);
    IntTextSign(b);
    if a < 0 && b < 0 {
      assert NatText(-a) == IntText(a)[1..] == NatText(-b);
      NatTextInjective(-a, -b);
    } else if a >= 0 && b >= 0 {
      NatTextInjective(a, b);
    }
  }
}
