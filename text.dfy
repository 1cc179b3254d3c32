/** String helpers that stand for the JavaScript built-ins the route relies on:
    `Number.prototype.toString()` on non-negative integers, `String.prototype.padStart`,
    `String.prototype.endsWith`, and the line splitting a reader of the produced file does. */
module Text {

  datatype Option<T> = None | Some(value: T)

  predicate IsDigit(c: char) { '0' <= c <= '9' }

  predicate AllDigits(s: string) { forall i :: 0 <= i < |s| ==> IsDigit(s[i]) }

  function DigitValue(c: char): (d: nat)
    requires IsDigit(c)
    ensures d < 10
  {
    c as int - '0' as int
  }

  function DigitChar(d: nat): (c: char)
    requires d < 10
    ensures IsDigit(c) && DigitValue(c) == d
  {
    ('0' as int + d) as char
  }

  /** The base-ten value of a digit string, most significant digit first; "" reads as 0. */
  function DigitsValue(s: string): nat
    requires AllDigits(s)
  {
    if s == [] then 0 else DigitsValue(s[..|s| - 1]) * 10 + DigitValue(s[|s| - 1])
  }

  /** `n.toString()` for a non-negative integer `n`: its decimal digits without leading zeros. */
  function DecimalString(n: nat): (s: string)
    ensures 1 <= |s| && AllDigits(s)
    ensures DigitsValue(s) == n
    ensures s[0] == '0' ==> n == 0 && |s| == 1
  {
    if n < 10 then [DigitChar(n)]
    else
      var s := DecimalString(n / 10) + [DigitChar(n % 10)];
      assert s[..|s| - 1] == DecimalString(n / 10);
      s
  }

  /** One digit for values below 10, two for values below 100, more beyond. */
  lemma {:induction false} DecimalStringLength(n: nat)
    ensures |DecimalString(n)| == 1 <==> n < 10
    ensures |DecimalString(n)| == 2 <==> 10 <= n < 100
  {
    if n >= 10 {
      DecimalStringLength(n / 10);
    }
  }

  /** A leading '0' does not change the value of a digit string. */
  lemma {:induction false} LeadingZeroValue(s: string)
    requires AllDigits(s)
    ensures AllDigits(['0'] + s) && DigitsValue(['0'] + s) == DigitsValue(s)
  {
    var t := ['0'] + s;
    if s != [] {
      assert t[..|t| - 1] == ['0'] + s[..|s| - 1];
      LeadingZeroValue(s[..|s| - 1]);
    }
  }

  function Repeat(c: char, k: nat): (r: string)
    ensures |r| == k && forall i :: 0 <= i < k ==> r[i] == c
  {
    if k == 0 then [] else [c] + Repeat(c, k - 1)
  }

  /** `s.padStart(target, fill)` with a one-character filler: never shortens `s`,
      and fills on the left up to `target` characters. */
  function PadStart(s: string, target: nat, fill: char): (r: string)
    ensures |r| == if |s| >= target then |s| else target
    ensures r[|r| - |s|..] == s
    ensures forall i :: 0 <= i < |r| - |s| ==> r[i] == fill
  {
    if |s| >= target then s else Repeat(fill, target - |s|) + s
  }

  /** `n.toString().padStart(2, '0')`: at least two digits, denoting `n`, exactly two below 100;
      from two digits on it is the decimal of `n` itself, neither padded nor truncated. */
  function Pad2(n: nat): (r: string)
    ensures |r| >= 2 && AllDigits(r) && DigitsValue(r) == n
    ensures |r| == 2 <==> n < 100
    ensures n >= 10 ==> r == DecimalString(n)
  {
    var d := DecimalString(n);
    DecimalStringLength(n);
    LeadingZeroValue(d);
    assert |d| == 1 ==> PadStart(d, 2, '0') == ['0'] + d;
    PadStart(d, 2, '0')
  }

  /** Below 100, the two characters of `Pad2(n)` are its tens and units digits. */
  lemma Pad2Digits(n: nat)
    requires n < 100
    ensures Pad2(n) == [DigitChar(n / 10), DigitChar(n % 10)]
  {
    DecimalStringLength(n);
    if n >= 10 {
      assert DecimalString(n / 10) == [DigitChar(n / 10)];
    }
  }

  predicate EndsWith(s: string, suffix: string)
  {
    |suffix| <= |s| && s[|s| - |suffix|..] == suffix
  }

  /** Splits `s` at the first occurrence of the non-empty separator `sep`. */
  function SplitFirst(s: string, sep: string): (r: Option<(string, string)>)
    requires sep != []
    ensures r.Some? ==> s == r.value.0 + sep + r.value.1
    decreases |s|
  {
    if |sep| <= |s| && s[..|sep|] == sep then Some(([], s[|sep|..]))
    else if s == [] then None
    else
      match SplitFirst(s[1..], sep)
      case None => None
      case Some((a, b)) => Some(([s[0]] + a, b))
  }

  /** A part free of the separator's first character is split off exactly. */
  lemma {:induction false} SplitFirstExact(a: string, sep: string, b: string)
    requires sep != [] && sep[0] !in a
    ensures SplitFirst(a + sep + b, sep) == Some((a, b))
  {
    var s := a + sep + b;
    if a == [] {
      assert s[..|sep|] == sep;
      assert s[|sep|..] == b;
    } else {
      assert s[0] == a[0] != sep[0];
      assert s[1..] == a[1..] + sep + b;
      SplitFirstExact(a[1..], sep, b);
      assert [s[0]] + a[1..] == a;
    }
  }

  /** A string without the separator's first character is not split. */
  lemma {:induction false} SplitFirstAbsent(a: string, sep: string)
    requires sep != [] && sep[0] !in a
    ensures SplitFirst(a, sep) == None
  {
    if a != [] {
      assert a[0] != sep[0];
      SplitFirstAbsent(a[1..], sep);
    }
  }

  /** `s.split('\n')`: the pieces between newlines, so that a newline-terminated text ends with "". */
  function SplitLines(s: string): (lines: seq<string>)
    ensures |lines| >= 1
    decreases |s|
  {
    match SplitFirst(s, "\n")
    case None => [s]
    case Some((a, b)) => [a] + SplitLines(b)
  }

  lemma SplitLinesCons(a: string, b: string)
    requires '\n' !in a
    ensures SplitLines(a + "\n" + b) == [a] + SplitLines(b)
  {
    SplitFirstExact(a, "\n", b);
  }

  lemma SplitLinesSingle(a: string)
    requires '\n' !in a
    ensures SplitLines(a) == [a]
  {
    SplitFirstAbsent(a, "\n");
  }
}
