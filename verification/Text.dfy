/** Decimal text and the order of strings. */
module Text {

  // ----- Lexicographic order -----

  predicate Less(a: string, b: string) {
    if b == "" then false
    else if a == "" then true
    else a[0] < b[0] || (a[0] == b[0] && Less(a[1..], b[1..]))
  }

  lemma {:induction false} LessIrreflexive(a: string)
    ensures !Less(a, a)
  {
    if a != "" { LessIrreflexive(a[1..]); }
  }

  lemma {:induction false} LessTransitive(a: string, b: string, c: string)
    requires Less(a, b) && Less(b, c)
    ensures Less(a, c)
  {
    if a != "" && a[0] == b[0] && b[0] == c[0] {
      LessTransitive(a[1..], b[1..], c[1..]);
    }
  }

  lemma {:induction false} LessTotal(a: string, b: string)
    ensures a == b || Less(a, b) || Less(b, a)
  {
    if a != "" && b != "" && a[0] == b[0] {
      LessTotal(a[1..], b[1..]);
      if a[1..] == b[1..] {
        assert a == [a[0]] + a[1..] && b == [b[0]] + b[1..];
      }
    }
  }

  /** A difference in an equally long beginning decides. */
  lemma {:induction false} LessBefore(a: string, b: string, x: string, y: string)
    requires |a| == |b| && Less(a, b)
    ensures Less(a + x, b + y)
  {
    assert (a + x)[1..] == a[1..] + x && (b + y)[1..] == b[1..] + y;
    if a[0] == b[0] {
      LessBefore(a[1..], b[1..], x, y);
    }
  }

  /** After an equal beginning the rest decides. */
  lemma {:induction false} LessAfter(a: string, x: string, y: string)
    requires Less(x, y)
    ensures Less(a + x, a + y)
  {
    if a == "" {
      assert a + x == x && a + y == y;
    } else {
      LessAfter(a[1..], x, y);
      assert (a + x)[1..] == a[1..] + x && (a + y)[1..] == a[1..] + y;
    }
  }

  // ----- Decimal numbers -----

  type Digit = d: int | 0 <= d < 10

  function DigitChar(d: Digit): char { '0' + d as char }

  predicate IsDigit(c: char) { '0' <= c <= '9' }

  function Zeros(k: nat): string { seq(k, _ => '0') }

  function Shorter(width: nat): nat { if width == 0 then 0 else width - 1 }

  /** A number in decimal, zero-padded to at least `width` digits. */
  function Padded(n: nat, width: nat): string {
    if n < 10 then Zeros(Shorter(width)) + [DigitChar(n)]
    else Padded(n / 10, Shorter(width)) + [DigitChar(n % 10)]
  }

  function Decimal(n: nat): string { Padded(n, 0) }

  function Pow10(k: nat): nat { if k == 0 then 1 else 10 * Pow10(k - 1) }

  predicate AllDigits(s: string) { forall i :: 0 <= i < |s| ==> IsDigit(s[i]) }

  function Value(s: string): nat
    requires AllDigits(s)
  {
    if s == "" then 0 else Value(s[..|s| - 1]) * 10 + (s[|s| - 1] - '0') as int
  }

  lemma {:induction false} ValueZeros(k: nat)
    ensures AllDigits(Zeros(k)) && Value(Zeros(k)) == 0
  {
    if k > 0 {
      ValueZeros(k - 1);
      assert Zeros(k)[..k - 1] == Zeros(k - 1);
    }
  }

  /** Reading back a printed number gives the number. */
  lemma {:induction false} PaddedReadsBack(n: nat, width: nat)
    ensures Padded(n, width) != "" && AllDigits(Padded(n, width)) && Value(Padded(n, width)) == n
  {
    var s := Padded(n, width);
    if n < 10 {
      ValueZeros(Shorter(width));
      assert s[..|s| - 1] == Zeros(Shorter(width));
    } else {
      PaddedReadsBack(n / 10, Shorter(width));
      assert s[..|s| - 1] == Padded(n / 10, Shorter(width));
    }
  }

  /** The text has exactly `width` digits if and only if the number fits. */
  lemma {:induction false} PaddedWidth(n: nat, width: nat)
    requires width > 0
    ensures if n < Pow10(width) then |Padded(n, width)| == width else |Padded(n, width)| > width
  {
    if n >= 10 {
      if width == 1 {
        PaddedAtLeastOne(n / 10);
      } else {
        PaddedWidth(n / 10, width - 1);
      }
    } else {
      Pow10AtLeastTen(width);
    }
  }

  lemma {:induction false} PaddedAtLeastOne(n: nat)
    ensures |Padded(n, 0)| >= 1
  {
  }

  lemma {:induction false} Pow10AtLeastTen(k: nat)
    requires k > 0
    ensures Pow10(k) >= 10
  {
    if k > 1 { Pow10AtLeastTen(k - 1); }
  }

  /** In a fixed width, string order is numeric order. */
  lemma {:induction false} PaddedOrder(m: nat, n: nat, width: nat)
    requires width > 0 && m < n < Pow10(width)
    ensures Less(Padded(m, width), Padded(n, width))
  {
    PaddedByDigit(m, width);
    PaddedByDigit(n, width);
    if width == 1 {
      LessAfter("", [DigitChar(m % 10)], [DigitChar(n % 10)]);
    } else if m / 10 == n / 10 {
      LessAfter(Padded(m / 10, width - 1), [DigitChar(m % 10)], [DigitChar(n % 10)]);
    } else {
      PaddedOrder(m / 10, n / 10, width - 1);
      PaddedWidth(m / 10, width - 1);
      PaddedWidth(n / 10, width - 1);
      LessBefore(Padded(m / 10, width - 1), Padded(n / 10, width - 1), [DigitChar(m % 10)], [DigitChar(n % 10)]);
    }
  }

  lemma {:induction false} PaddedByDigit(n: nat, width: nat)
    requires width > 0 && n < Pow10(width)
    ensures width == 1 ==> Padded(n, width) == [DigitChar(n)]
    ensures width > 1 ==> Padded(n, width) == Padded(n / 10, width - 1) + [DigitChar(n % 10)]
  {
    if n < 10 {
      if width > 1 {
        assert Zeros(width - 1) == Zeros(width - 2) + ['0'];
      }
    }
  }
}
