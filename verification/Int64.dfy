/** Two's-complement int64 (cache/memory/memory.go): the sign-bit overflow tests, and
    the decimal form counters are stored in. */
module Int64 {
  import opened Bson

  const MIN := -0x8000_0000_0000_0000
  const MAX := 0x7FFF_FFFF_FFFF_FFFF

  predicate IsInt64(x: int) {
    MIN <= x <= MAX
  }

  /** The 64 bits of a value, read as an unsigned number. */
  function Bits(x: int): nat
    requires IsInt64(x)
  {
    if x < 0 then x + 0x1_0000_0000_0000_0000 else x
  }

  /** The value of 64 bits. */
  function Signed(n: nat): (x: int)
    requires n < 0x1_0000_0000_0000_0000
    ensures IsInt64(x)
  {
    if n >= 0x8000_0000_0000_0000 then n - 0x1_0000_0000_0000_0000 else n
  }

  /** Go's wrapping conversion of a mathematical result. */
  function Wrap(x: int): (r: int)
    ensures IsInt64(r)
    ensures IsInt64(x) ==> r == x
  {
    Signed(x % 0x1_0000_0000_0000_0000)
  }

  /** What is left of a number once its highest bit is taken off. */
  function Below(n: nat, top: nat): nat {
    if n >= top then n - top else n
  }

  const TOP := 0x8000_0000_0000_0000

  /** Bitwise operations, highest bit first: top is the value of the highest bit
      looked at, halved down to 1. */
  function Xor(n: nat, m: nat, top: nat): (r: nat)
    ensures if top == 0 then r == 0 else r < 2 * top && (r >= top <==> (n >= top) != (m >= top))
  {
    if top == 0 then 0
    else (if (n >= top) != (m >= top) then top else 0) + Xor(Below(n, top), Below(m, top), top / 2)
  }

  function And(n: nat, m: nat, top: nat): (r: nat)
    ensures if top == 0 then r == 0 else r < 2 * top && (r >= top <==> n >= top && m >= top)
  {
    if top == 0 then 0
    else (if n >= top && m >= top then top else 0) + And(Below(n, top), Below(m, top), top / 2)
  }

  function BitXor(a: int, b: int): (r: int)
    requires IsInt64(a) && IsInt64(b)
    ensures IsInt64(r)
  {
    Signed(Xor(Bits(a), Bits(b), TOP))
  }

  function BitAnd(a: int, b: int): (r: int)
    requires IsInt64(a) && IsInt64(b)
    ensures IsInt64(r)
  {
    Signed(And(Bits(a), Bits(b), TOP))
  }

  lemma SignBits(a: int, b: int)
    requires IsInt64(a) && IsInt64(b)
    ensures BitXor(a, b) < 0 <==> (a < 0) != (b < 0)
    ensures BitAnd(a, b) < 0 <==> a < 0 && b < 0
  {
  }

  /** ((a ^ c) & (b ^ c)) < 0 */
  predicate AddOverflows(a: int, b: int, c: int)
    requires IsInt64(a) && IsInt64(b) && IsInt64(c)
  {
    BitAnd(BitXor(a, c), BitXor(b, c)) < 0
  }

  /** ((a ^ b) & (a ^ c)) < 0 */
  predicate SubOverflows(a: int, b: int, c: int)
    requires IsInt64(a) && IsInt64(b) && IsInt64(c)
  {
    BitAnd(BitXor(a, b), BitXor(a, c)) < 0
  }

  /** On the wrapped result the test is true exactly when the mathematical sum
      leaves the int64 range, for every pair, MinInt64 included; and when it is
      false the wrapped result is the exact one. */
  lemma AddTestExact(a: int, b: int)
    requires IsInt64(a) && IsInt64(b)
    ensures AddOverflows(a, b, Wrap(a + b)) <==> !IsInt64(a + b)
    ensures !AddOverflows(a, b, Wrap(a + b)) ==> Wrap(a + b) == a + b
  {
    var c := Wrap(a + b);
    SignBits(a, c);
    SignBits(b, c);
    SignBits(BitXor(a, c), BitXor(b, c));
    WrapCases(a + b);
  }

  /** The same for the difference, which is not a sum with the negated operand:
      -MinInt64 is no int64. */
  lemma SubTestExact(a: int, b: int)
    requires IsInt64(a) && IsInt64(b)
    ensures SubOverflows(a, b, Wrap(a - b)) <==> !IsInt64(a - b)
    ensures !SubOverflows(a, b, Wrap(a - b)) ==> Wrap(a - b) == a - b
  {
    var d := Wrap(a - b);
    SignBits(a, b);
    SignBits(a, d);
    SignBits(BitXor(a, b), BitXor(a, d));
    WrapCases(a - b);
  }

  lemma WrapCases(x: int)
    requires 2 * MIN <= x <= 2 * MAX + 1
    ensures Wrap(x) == if x < MIN then x + 0x1_0000_0000_0000_0000
                       else if x > MAX then x - 0x1_0000_0000_0000_0000 else x
  {
  }

  // ---- Decimal ----

  function DigitChar(d: int): char
    requires 0 <= d < 10
  {
    ('0' as int + d) as char
  }

  function DigitValue(c: char): Option<int> {
    if '0' <= c <= '9' then Some(c as int - '0' as int) else None
  }

  function Digits(n: nat): (s: string)
    ensures |s| > 0 && '0' <= s[0] <= '9'
  {
    if n < 10 then [DigitChar(n)] else Digits(n / 10) + [DigitChar(n % 10)]
  }

  /** strconv.FormatInt(n, 10) */
  function FormatInt(n: int): string {
    if n < 0 then "-" + Digits(-n) else Digits(n)
  }

  function ParseDigits(s: string): Option<nat>
    decreases |s|
  {
    if s == [] then None
    else
      var last := DigitValue(s[|s| - 1]);
      if last.None? then None
      else if |s| == 1 then Some(last.value)
      else match ParseDigits(s[..|s| - 1])
        case None => None
        case Some(before) => Some(10 * before + last.value)
  }

  /** strconv.ParseInt(s, 10, 64): an optional sign, then digits, within range. */
  function ParseInt(s: string): (r: Option<int>)
    ensures r.Some? ==> IsInt64(r.value)
  {
    var signed := s != [] && (s[0] == '-' || s[0] == '+');
    match ParseDigits(if signed then s[1..] else s)
    case None => None
    case Some(n) =>
      var x: int := if signed && s[0] == '-' then -(n as int) else n;
      if IsInt64(x) then Some(x) else None
  }

  lemma {:induction false} DigitsRoundTrip(n: nat)
    ensures ParseDigits(Digits(n)) == Some(n)
  {
    if n >= 10 {
      DigitsRoundTrip(n / 10);
      var s := Digits(n);
      assert s[..|s| - 1] == Digits(n / 10) && s[|s| - 1] == DigitChar(n % 10);
    }
  }

  lemma ParseNegative(s: string, n: nat)
    requires ParseDigits(s) == Some(n) && IsInt64(-(n as int))
    ensures ParseInt("-" + s) == Some(-(n as int))
  {
    assert ("-" + s)[1..] == s;
  }

  lemma ParseUnsigned(s: string, n: nat)
    requires ParseDigits(s) == Some(n) && IsInt64(n)
    requires s != [] && s[0] != '-' && s[0] != '+'
    ensures ParseInt(s) == Some(n)
  {
  }

  /** Every int64 survives being stored as text. */
  lemma DecimalRoundTrip(n: int)
    requires IsInt64(n)
    ensures ParseInt(FormatInt(n)) == Some(n)
  {
    if n < 0 {
      DigitsRoundTrip(-n);
      ParseNegative(Digits(-n), -n);
    } else {
      DigitsRoundTrip(n);
      ParseUnsigned(Digits(n), n);
    }
  }

  /** The text is the ordinary one: a digit each, the last for the remainder by ten, and
      a minus sign in front of a negative number; a plus sign is read as well. */
  lemma DecimalMeans(n: nat, d: nat)
    requires d < 10
    ensures FormatInt(d) == ["0123456789"[d]]
    ensures n > 0 ==> FormatInt(10 * n + d) == FormatInt(n) + ["0123456789"[d]]
    ensures n > 0 ==> FormatInt(-(n as int)) == "-" + FormatInt(n)
    ensures IsInt64(n) ==> ParseInt("+" + FormatInt(n)) == Some(n)
  {
    DigitsRoundTrip(n);
    assert ("+" + Digits(n))[1..] == Digits(n);
    assert (10 * n + d) / 10 == n && (10 * n + d) % 10 == d;
  }
}
