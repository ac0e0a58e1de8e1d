/** Strings: decimal numerals, splitting at the last dash, ASCII upper-casing. */
module Text {
  import opened Exchange

  function Digit(d: nat): char
    requires d < 10
  {
    ['0', '1', '2', '3', '4', '5', '6', '7', '8', '9'][d]
  }

  predicate IsDigit(c: char) {
    '0' <= c <= '9'
  }

  predicate AllDigits(s: string) {
    s != [] && forall i :: 0 <= i < |s| ==> IsDigit(s[i])
  }

  function Decimal(n: nat): (s: string)
    ensures AllDigits(s)
  {
    if n < 10 then [Digit(n)] else Decimal(n / 10) + [Digit(n % 10)]
  }

  function ParseDecimal(s: string): nat
    requires AllDigits(s)
  {
    var n := |s| - 1;
    var d := s[n] as int - '0' as int;
    if n == 0 then d else 10 * ParseDecimal(s[..n]) + d
  }

  lemma {:induction false} DecimalRoundTrip(n: nat)
    ensures ParseDecimal(Decimal(n)) == n
  {
    if n >= 10 {
      DecimalRoundTrip(n / 10);
      var s := Decimal(n);
      assert s[..|s| - 1] == Decimal(n / 10);
    }
  }

  /** Numerals are positional: a further digit shifts the rest, and the digits are '0' to '9'. */
  lemma DecimalIs(n: nat, d: nat)
    requires d < 10
    ensures Decimal(d) == ["0123456789"[d]]
    ensures n > 0 ==> Decimal(10 * n + d) == Decimal(n) + ["0123456789"[d]]
  {}

  predicate NoDash(s: string) {
    forall i :: 0 <= i < |s| ==> s[i] != '-'
  }

  /** `a` and `x` joined by a dash. */
  function Dashed(a: string, x: string): string {
    a + "-" + x
  }

  lemma DashedAssociates(a: string, b: string, c: string)
    ensures Dashed(a, Dashed(b, c)) == Dashed(Dashed(a, b), c)
  {}

  /** What stands before and after the last dash. */
  function SplitLast(s: string): Option<(string, string)> {
    if s == [] then None
    else
      var n := |s| - 1;
      if s[n] == '-' then Some((s[..n], ""))
      else
        match SplitLast(s[..n])
        case None => None
        case Some((before, after)) => Some((before, after + [s[n]]))
  }

  lemma {:induction false} SplitDashed(a: string, x: string)
    requires NoDash(x)
    ensures SplitLast(Dashed(a, x)) == Some((a, x))
  {
    var s := Dashed(a, x);
    var n := |s| - 1;
    if x == [] {
      assert s == a + "-" && s[..n] == a;
    } else {
      var y := x[..|x| - 1];
      assert s[..n] == Dashed(a, y) && s[n] == x[|x| - 1] && y + [s[n]] == x;
      SplitDashed(a, y);
    }
  }

  /** ASCII upper-casing. */
  function UpperChar(c: char): char {
    if 'a' <= c <= 'z' then (c as int - 'a' as int + 'A' as int) as char else c
  }

  function Upper(s: string): (r: string)
    ensures |r| == |s|
    ensures forall i :: 0 <= i < |s| ==> r[i] == UpperChar(s[i])
  {
    seq(|s|, i requires 0 <= i < |s| => UpperChar(s[i]))
  }

  /** The 26 small letters become the capitals in order, everything else stays. */
  lemma UpperIs(k: nat, c: char)
    requires k < 26
    ensures UpperChar("abcdefghijklmnopqrstuvwxyz"[k]) == "ABCDEFGHIJKLMNOPQRSTUVWXYZ"[k]
    ensures (forall i :: 0 <= i < 26 ==> "abcdefghijklmnopqrstuvwxyz"[i] != c) ==> UpperChar(c) == c
  {
    if 'a' <= c <= 'z' {
      AlphabetAt(c as int - 'a' as int);
    }
    AlphabetAt(k);
  }

  lemma AlphabetAt(k: nat)
    requires k < 26
    ensures "abcdefghijklmnopqrstuvwxyz"[k] as int == 97 + k && "ABCDEFGHIJKLMNOPQRSTUVWXYZ"[k] as int == 65 + k
  {}
}
