/** Splitting, joining and decimal numbers, as Rust's `split`, `join`, `to_string` and `parse` treat them. */
module Text {
  import opened Results

  // ---------------------------------------------------------------- split and join

  function Split(s: string, sep: char): (parts: seq<string>)
    ensures |parts| > 0
  {
    if s == "" then [""]
    else
      var rest := Split(s[1..], sep);
      if s[0] == sep then [""] + rest else [[s[0]] + rest[0]] + rest[1..]
  }

  function Join(parts: seq<string>, sep: char): string {
    if parts == [] then ""
    else if |parts| == 1 then parts[0]
    else parts[0] + [sep] + Join(parts[1..], sep)
  }

  predicate Lacks(s: string, sep: char) {
    forall i :: 0 <= i < |s| ==> s[i] != sep
  }

  predicate AllLack(parts: seq<string>, sep: char) {
    forall i :: 0 <= i < |parts| ==> Lacks(parts[i], sep)
  }

  lemma {:induction false} SplitFirst(a: string, rest: string, sep: char)
    requires Lacks(a, sep)
    ensures Split(a + [sep] + rest, sep) == [a] + Split(rest, sep)
    decreases |a|
  {
    var s := a + [sep] + rest;
    if a == "" {
      assert s[1..] == rest;
    } else {
      SplitFirst(a[1..], rest, sep);
      assert s[1..] == a[1..] + [sep] + rest;
      assert [s[0]] + a[1..] == a;
    }
  }

  lemma {:induction false} SplitWhole(a: string, sep: char)
    requires Lacks(a, sep)
    ensures Split(a, sep) == [a]
  {
    if a != "" {
      SplitWhole(a[1..], sep);
      assert [a[0]] + a[1..] == a;
    }
  }

  /** Splitting undoes joining when no part holds the separator. */
  lemma {:induction false} SplitOfJoin(parts: seq<string>, sep: char)
    requires parts != [] && AllLack(parts, sep)
    ensures Split(Join(parts, sep), sep) == parts
    decreases |parts|
  {
    if |parts| == 1 {
      SplitWhole(parts[0], sep);
    } else {
      SplitOfJoin(parts[1..], sep);
      SplitFirst(parts[0], Join(parts[1..], sep), sep);
    }
  }

  /** Joining undoes splitting, and the parts never hold the separator. */
  lemma {:induction false} JoinOfSplit(s: string, sep: char)
    ensures Join(Split(s, sep), sep) == s && AllLack(Split(s, sep), sep)
  {
    if s != "" {
      var rest := Split(s[1..], sep);
      JoinOfSplit(s[1..], sep);
      var parts := Split(s, sep);
      if s[0] == sep {
        assert parts[1..] == rest;
      } else {
        assert parts[1..] == rest[1..];
      }
    }
  }

  lemma {:induction false} JoinAppend(a: seq<string>, b: seq<string>, sep: char)
    requires a != [] && b != []
    ensures Join(a + b, sep) == Join(a, sep) + [sep] + Join(b, sep)
    decreases |a|
  {
    assert (a + b)[1..] == a[1..] + b;
    if |a| > 1 {
      JoinAppend(a[1..], b, sep);
    } else {
      assert a[1..] + b == b;
    }
  }

  /** A string whose parts start with those of a prefix that ends in the separator. */
  lemma {:induction false} SplitOfPrefixed(parts: seq<string>, rest: string, sep: char)
    requires parts != [] && AllLack(parts, sep)
    ensures Split(Join(parts, sep) + [sep] + rest, sep) == parts + Split(rest, sep)
  {
    var tail := Split(rest, sep);
    JoinOfSplit(rest, sep);
    JoinAppend(parts, tail, sep);
    SplitOfJoin(parts + tail, sep);
  }

  // ---------------------------------------------------------------- decimal numbers

  function DigitOf(d: nat): char
    requires d < 10
  {
    "0123456789"[d]
  }

  function ValueOf(c: char): Option<nat> {
    if '0' <= c <= '9' then Some((c as int - '0' as int) as nat) else None
  }

  function Digits(n: nat): (s: string)
    ensures s != ""
  {
    if n < 10 then [DigitOf(n)] else Digits(n / 10) + [DigitOf(n % 10)]
  }

  /** One or more digits. */
  function ParseDigits(s: string): Option<nat> {
    if s == "" then None
    else
      var last := ValueOf(s[|s| - 1]);
      if last.None? then None
      else if |s| == 1 then last
      else
        match ParseDigits(s[..|s| - 1])
        case None => None
        case Some(front) => Some(10 * front + last.value)
  }

  function Unsigned(s: string): string {
    if s != "" && s[0] == '+' then s[1..] else s
  }

  /** An unsigned number up to `max`, with an optional plus sign. */
  function ParseNat(s: string, max: nat): Option<nat> {
    match ParseDigits(Unsigned(s))
    case None => None
    case Some(n) => if n <= max then Some(n) else None
  }

  const I64_MIN: int := -0x8000_0000_0000_0000
  const I64_MAX: nat := 0x7FFF_FFFF_FFFF_FFFF
  const U64_MAX: nat := 0xFFFF_FFFF_FFFF_FFFF

  function Decimal(n: int): string {
    if n < 0 then "-" + Digits(-n) else Digits(n)
  }

  predicate IsI64(n: int) {
    I64_MIN <= n <= I64_MAX
  }

  function ParseInt(s: string): Option<int> {
    if s != "" && s[0] == '-' then
      match ParseDigits(s[1..])
      case None => None
      case Some(n) => if I64_MIN <= 0 - n then Some(0 - n) else None
    else
      match ParseNat(s, I64_MAX)
      case None => None
      case Some(n) => Some(n)
  }

  predicate IsDigit(c: char) {
    '0' <= c <= '9'
  }

  lemma {:induction false} DigitsAreDigits(n: nat)
    ensures forall i :: 0 <= i < |Digits(n)| ==> IsDigit(Digits(n)[i])
  {
    if n >= 10 {
      DigitsAreDigits(n / 10);
    }
  }

  lemma {:induction false} DigitsRoundTrip(n: nat)
    ensures ParseDigits(Digits(n)) == Some(n)
  {
    if n >= 10 {
      DigitsRoundTrip(n / 10);
      assert Digits(n)[..|Digits(n)| - 1] == Digits(n / 10);
    }
  }

  lemma NatRoundTrip(n: nat, max: nat)
    requires n <= max
    ensures ParseNat(Digits(n), max) == Some(n)
  {
    DigitsRoundTrip(n);
    DigitsAreDigits(n);
    assert IsDigit(Digits(n)[0]);
  }

  function Zeros(k: nat): string {
    seq(k, i => '0')
  }

  /** The decimal text of the number behind any number of zeros. */
  ghost predicate Writes(s: string, n: nat) {
    |Digits(n)| <= |s| && s == Zeros(|s| - |Digits(n)|) + Digits(n)
  }

  lemma {:induction false} DigitsMean(s: string, n: nat)
    ensures ParseDigits(s) == Some(n) ==> Writes(s, n)
    decreases |s|
  {
    if ParseDigits(s) == Some(n) && |s| > 1 {
      var front, last := s[..|s| - 1], s[|s| - 1];
      var m := ParseDigits(front).value;
      DigitsMean(front, m);
      assert s == front + [last] && n / 10 == m && n % 10 == ValueOf(last).value;
      DigitOfValue(last);
      if m == 0 {
        assert front == Zeros(|front| - 1) + ['0'] == Zeros(|front|);
        assert Digits(n) == [last];
      } else {
        assert Digits(n) == Digits(m) + [last];
      }
    } else if ParseDigits(s) == Some(n) {
      DigitOfValue(s[0]);
      assert s == Zeros(0) + Digits(n);
    }
  }

  lemma DigitOfValue(c: char)
    ensures ValueOf(c).Some? ==> ValueOf(c).value < 10 && DigitOf(ValueOf(c).value) == c
    ensures DigitOf(0) == '0'
  {
  }

  lemma {:induction false} ZerosParse(k: nat)
    requires k > 0
    ensures ParseDigits(Zeros(k)) == Some(0)
  {
    if k > 1 {
      ZerosParse(k - 1);
      assert Zeros(k)[..k - 1] == Zeros(k - 1);
    }
  }

  lemma {:induction false} WrittenParses(k: nat, n: nat)
    ensures ParseDigits(Zeros(k) + Digits(n)) == Some(n)
    decreases n
  {
    hide ParseDigits;
    if n >= 10 {
      WrittenParses(k, n / 10);
      AppendDigit(Zeros(k) + Digits(n / 10), n / 10, n % 10);
      assert Zeros(k) + Digits(n) == Zeros(k) + Digits(n / 10) + [DigitOf(n % 10)];
    } else if k > 0 {
      ZerosParse(k);
      AppendDigit(Zeros(k), 0, n);
    } else {
      DigitsRoundTrip(n);
      assert Zeros(k) + Digits(n) == Digits(n);
    }
  }

  lemma AppendDigit(front: string, m: nat, d: nat)
    requires ParseDigits(front) == Some(m) && d < 10
    ensures ParseDigits(front + [DigitOf(d)]) == Some(10 * m + d)
  {
    assert (front + [DigitOf(d)])[..|front|] == front;
  }

  lemma {:induction false} ParsesExactly(s: string, n: nat)
    ensures ParseDigits(s) == Some(n) <==> Writes(s, n)
  {
    DigitsMean(s, n);
    if Writes(s, n) {
      WrittenParses(|s| - |Digits(n)|, n);
    }
  }

  lemma {:induction false} WrittenIsDigits(s: string, n: nat)
    requires Writes(s, n)
    ensures s != "" && IsDigit(s[0])
  {
    DigitsAreDigits(n);
    assert s[0] == if |s| > |Digits(n)| then '0' else Digits(n)[0];
  }

  /**
   * Exactly these texts parse to a signed 64-bit number: its digits behind any zeros, after a minus sign if it is not
   * positive, and otherwise also after a plus sign.
   */
  lemma {:induction false} IntParsesExactly(s: string, n: int)
    ensures ParseInt(s) == Some(n) <==>
      && -0x8000_0000_0000_0000 <= n <= 0x7FFF_FFFF_FFFF_FFFF
      && (|| (n >= 0 && Writes(s, n))
          || (n >= 0 && s != "" && s[0] == '+' && Writes(s[1..], n))
          || (n <= 0 && s != "" && s[0] == '-' && Writes(s[1..], -n)))
  {
    hide Digits, ParseDigits, Writes;
    if n >= 0 {
      ParsesExactly(s, n);
      if Writes(s, n) {
        WrittenIsDigits(s, n);
      }
    }
    if s != "" {
      ParsesExactly(s[1..], if n < 0 then -n else n);
    }
  }

  lemma IntRoundTrip(n: int)
    requires IsI64(n)
    ensures ParseInt(Decimal(n)) == Some(n)
  {
    hide Digits, ParseDigits;
    if n < 0 {
      DigitsRoundTrip(-n);
      assert Decimal(n)[1..] == Digits(-n);
    } else {
      NatRoundTrip(n, I64_MAX);
      DigitsAreDigits(n);
      assert IsDigit(Digits(n)[0]);
    }
  }

  lemma DecimalLacks(n: int, sep: char)
    requires sep == ':' || sep == ','
    ensures Lacks(Decimal(n), sep)
  {
    DigitsAreDigits(if n < 0 then -n else n);
    forall i | 0 <= i < |Decimal(n)| ensures Decimal(n)[i] != sep {
      if n < 0 && i > 0 {
        assert Decimal(n)[i] == Digits(-n)[i - 1];
        assert IsDigit(Digits(-n)[i - 1]);
      } else if n >= 0 {
        assert IsDigit(Digits(n)[i]);
      }
    }
  }

  lemma DecimalInjective(a: int, b: int)
    requires IsI64(a) && IsI64(b) && Decimal(a) == Decimal(b)
    ensures a == b
  {
    IntRoundTrip(a);
    IntRoundTrip(b);
  }
}
