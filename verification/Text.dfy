/** Strings as the program uses them: Go's `<` on strings, the decimal digits that `%d` prints, the
    zero padding of `%013d`, and what the two scanners for the '|' separator find.

    Go compares strings byte by byte. Dafny's `char` is a Unicode code point, and UTF-8 keeps
    code-point order, so comparing `char`s gives the same answer. */
module Text {

  datatype Option<+T> = None | Some(value: T)

  /** a < b, as Go and Redis compare strings. */
  predicate Less(a: string, b: string) {
    if b == [] then false
    else if a == [] then true
    else if a[0] != b[0] then a[0] < b[0]
    else Less(a[1..], b[1..])
  }

  lemma {:induction false} LessIsTransitive(a: string, b: string, c: string)
    requires Less(a, b) && Less(b, c)
    ensures Less(a, c)
  {
    if a != [] && a[0] == b[0] && b[0] == c[0] {
      LessIsTransitive(a[1..], b[1..], c[1..]);
    }
  }

  /** Exactly one of a < b, a == b and b < a holds. */
  lemma {:induction false} LessIsTotal(a: string, b: string)
    ensures Less(a, b) || a == b || Less(b, a)
    ensures Less(a, b) ==> a != b && !Less(b, a)
  {
    if a != [] && b != [] && a[0] == b[0] {
      LessIsTotal(a[1..], b[1..]);
      assert a == [a[0]] + a[1..] && b == [b[0]] + b[1..];
    }
  }

  /** A common prefix does not take part in the comparison. */
  lemma {:induction false} LessSkipsPrefix(p: string, a: string, b: string)
    ensures Less(p + a, p + b) == Less(a, b)
  {
    if p == [] {
      assert p + a == a && p + b == b;
    } else {
      assert (p + a)[1..] == p[1..] + a && (p + b)[1..] == p[1..] + b;
      LessSkipsPrefix(p[1..], a, b);
    }
  }

  // ---------- decimal digits ----------

  function Digit(d: nat): char
    requires d < 10
  {
    ('0' as int + d) as char
  }

  function DigitValue(c: char): int {
    c as int - '0' as int
  }

  /** The decimal digits of n. */
  function Decimal(n: nat): string {
    if n < 10 then [Digit(n)] else Decimal(n / 10) + [Digit(n % 10)]
  }

  /** What `%d` prints. */
  function Signed(n: int): string {
    if n >= 0 then Decimal(n) else ['-'] + Decimal(-n)
  }

  /** What `%0<width>d` prints: a sign counts towards the width. */
  function ZeroPadded(n: int, width: nat): string {
    if n >= 0 then Zeros(width - |Decimal(n)|) + Decimal(n)
    else ['-'] + Zeros(width - 1 - |Decimal(-n)|) + Decimal(-n)
  }

  function Zeros(count: int): string {
    seq(if count > 0 then count else 0, _ => '0')
  }

  /** The value of a string of digits. */
  function ParseDecimal(s: string): int {
    if s == [] then 0 else 10 * ParseDecimal(s[..|s| - 1]) + DigitValue(s[|s| - 1])
  }

  predicate AllDigits(s: string) {
    forall k :: 0 <= k < |s| ==> '0' <= s[k] <= '9'
  }

  lemma {:induction false} DecimalIsDigits(n: nat)
    ensures Decimal(n) != [] && AllDigits(Decimal(n))
  {
    if n >= 10 {
      DecimalIsDigits(n / 10);
    }
  }

  lemma {:induction false} ParseUndoesDecimal(n: nat)
    ensures ParseDecimal(Decimal(n)) == n
  {
    if n < 10 {
      assert Decimal(n)[..0] == [];
    } else {
      ParseUndoesDecimal(n / 10);
      assert Decimal(n)[..|Decimal(n)| - 1] == Decimal(n / 10);
    }
  }

  /** strconv.ParseInt with its error dropped: zero unless the text is digits behind at most one sign. */
  function ParseInt(s: string): int {
    if s != [] && AllDigits(s) then ParseDecimal(s)
    else if |s| > 1 && AllDigits(s[1..]) && s[0] == '-' then -ParseDecimal(s[1..])
    else if |s| > 1 && AllDigits(s[1..]) && s[0] == '+' then ParseDecimal(s[1..])
    else 0
  }

  lemma ParseIntUndoesDecimal(n: nat)
    ensures ParseInt(Decimal(n)) == n
  {
    DecimalIsDigits(n);
    ParseUndoesDecimal(n);
  }

  /** The last `width` digits of n, leading zeros included. */
  function Fixed(n: nat, width: nat): string {
    if width == 0 then [] else Fixed(n / 10, width - 1) + [Digit(n % 10)]
  }

  function Pow10(k: nat): (p: nat)
    ensures p > 0
  {
    if k == 0 then 1 else 10 * Pow10(k - 1)
  }

  /** Within range, zero padding gives exactly `width` digits. */
  lemma {:induction false} PaddedIsFixed(n: nat, width: nat)
    requires 0 < width && n < Pow10(width)
    ensures |Decimal(n)| <= width
    ensures ZeroPadded(n, width) == Fixed(n, width)
  {
    if width == 1 {
      assert Pow10(1) == 10 * Pow10(0) == 10;
      assert Fixed(n, 1) == Fixed(n / 10, 0) + [Digit(n % 10)];
    } else if n < 10 {
      FixedZero(width - 1);
      assert n / 10 == 0;
    } else {
      PaddedIsFixed(n / 10, width - 1);
      assert Zeros(width - |Decimal(n)|) == Zeros(width - 1 - |Decimal(n / 10)|);
      assert ZeroPadded(n, width) == ZeroPadded(n / 10, width - 1) + [Digit(n % 10)];
    }
  }

  lemma {:induction false} FixedZero(width: nat)
    ensures Fixed(0, width) == Zeros(width)
  {
    if width > 0 {
      FixedZero(width - 1);
    }
  }

  lemma {:induction false} FixedLength(n: nat, width: nat)
    ensures |Fixed(n, width)| == width
  {
    if width > 0 {
      FixedLength(n / 10, width - 1);
    }
  }

  /** Fixed-width numbers followed by a suffix compare as (number, suffix) pairs. */
  lemma {:induction false} FixedOrder(a: nat, b: nat, width: nat, s: string, t: string)
    requires a < Pow10(width) && b < Pow10(width)
    ensures Less(Fixed(a, width) + s, Fixed(b, width) + t) <==> a < b || (a == b && Less(s, t))
  {
    if width == 0 {
      assert Fixed(a, 0) + s == s && Fixed(b, 0) + t == t;
    } else {
      var s', t' := [Digit(a % 10)] + s, [Digit(b % 10)] + t;
      assert Fixed(a, width) + s == Fixed(a / 10, width - 1) + s';
      assert Fixed(b, width) + t == Fixed(b / 10, width - 1) + t';
      FixedOrder(a / 10, b / 10, width - 1, s', t');
      assert s'[1..] == s && t'[1..] == t;
    }
  }

  // ---------- separators ----------

  const SEPARATOR := '|'

  /** Neither digits nor a sign contain the separator. */
  lemma PaddedHasNoSeparator(n: int, width: nat)
    ensures SEPARATOR !in ZeroPadded(n, width)
  {
    DecimalIsDigits(if n >= 0 then n else -n);
  }

  // ---------- the range of the padding ----------

  /** Padded numbers in range, followed by anything, compare as the numbers do, then as what follows. */
  lemma PaddedOrder(a: nat, b: nat, width: nat, s: string, t: string)
    requires width > 0 && a < Pow10(width) && b < Pow10(width)
    ensures Less(ZeroPadded(a, width) + s, ZeroPadded(b, width) + t) <==> a < b || (a == b && Less(s, t))
  {
    PaddedIsFixed(a, width);
    PaddedIsFixed(b, width);
    FixedOrder(a, b, width, s, t);
  }

  lemma {:induction false} LargeIsLong(n: nat, width: nat)
    requires n >= Pow10(width)
    ensures |Decimal(n)| > width
  {
    if width == 0 {
      DecimalIsDigits(n);
    } else {
      LargeIsLong(n / 10, width - 1);
    }
  }

  function Nines(count: nat): string {
    if count == 0 then [] else ['9'] + Nines(count - 1)
  }

  lemma {:induction false} NinesAtEnd(count: nat)
    ensures Nines(count) + ['9'] == Nines(count + 1)
  {
    if count > 0 {
      NinesAtEnd(count - 1);
    }
  }

  lemma {:induction false} NinesIsLargest(width: nat)
    ensures Fixed(Pow10(width) - 1, width) == Nines(width)
  {
    if width > 0 {
      NinesIsLargest(width - 1);
      NinesAtEnd(width - 1);
      assert (Pow10(width) - 1) / 10 == Pow10(width - 1) - 1 && (Pow10(width) - 1) % 10 == 9;
    }
  }

  /** More than n digits sort before n nines and a separator, because the separator sorts after digits. */
  lemma {:induction false} LongBeforeNines(digits: string, n: nat, s: string, t: string)
    requires AllDigits(digits) && |digits| > n
    ensures Less(digits + s, Nines(n) + ([SEPARATOR] + t))
  {
    var a, b := digits + s, Nines(n) + ([SEPARATOR] + t);
    assert a[0] == digits[0] && a[1..] == digits[1..] + s;
    if n > 0 {
      assert b[0] == '9' && b[1..] == Nines(n - 1) + ([SEPARATOR] + t);
      LongBeforeNines(digits[1..], n - 1, s, t);
    }
  }

  /** A number too wide for the padding sorts before the largest one that fits. */
  lemma WideSortsBeforeNines(t: nat, width: nat, x: string, y: string)
    requires width > 0 && t >= Pow10(width)
    ensures !Less(ZeroPadded(Pow10(width) - 1, width) + ([SEPARATOR] + x), ZeroPadded(t, width) + ([SEPARATOR] + y))
  {
    LargeIsLong(t, width);
    DecimalIsDigits(t);
    PaddedIsFixed(Pow10(width) - 1, width);
    NinesIsLargest(width);
    assert ZeroPadded(t, width) == Decimal(t);
    LongBeforeNines(Decimal(t), width, [SEPARATOR] + y, x);
    LessIsTotal(Decimal(t) + ([SEPARATOR] + y), Nines(width) + ([SEPARATOR] + x));
  }

  /** A negative number is a sign and its size, padded to one digit less. */
  lemma NegativeIsSigned(n: int, width: nat)
    requires n < 0 && width > 0
    ensures ZeroPadded(n, width) == ['-'] + ZeroPadded(-n, width - 1)
  {
  }

  /** Where the last separator is; -1 when there is none. */
  function LastIndex(v: string): (i: int)
    ensures -1 <= i < |v|
    ensures i >= 0 ==> v[i] == SEPARATOR
    ensures forall k :: i < k < |v| ==> v[k] != SEPARATOR
  {
    if v == [] then -1
    else if v[|v| - 1] == SEPARATOR then |v| - 1
    else LastIndex(v[..|v| - 1])
  }

  /** strings.LastIndex(v, "|") */
  method LastSeparator(v: string) returns (i: int)
    ensures i == LastIndex(v)
  {
    i := |v| - 1;
    while i >= 0 && v[i] != SEPARATOR
      invariant -1 <= i < |v|
      invariant forall k :: i < k < |v| ==> v[k] != SEPARATOR
    {
      i := i - 1;
    }
  }
}
