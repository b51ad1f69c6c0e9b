/**
 * `strconv.Atoi` on a 64-bit platform, including the value it returns beside
 * an error: 0 for a syntax error, the clamped bound for a range error.
 */
module GoStrconv {
  import opened GoRuntime

  predicate IsDigit(c: char)
  {
    '0' <= c <= '9'
  }

  function DigitValue(c: char): nat
    requires IsDigit(c)
  {
    (c - '0') as nat
  }

  /** What the unsigned base-10 scan finds: a value, a non-digit, or a value past 2^64 - 1. */
  datatype Scan = Digits(n: nat) | SyntaxError | Overflow

  /**
   * The digit loop of `strconv.ParseUint` in base 10, from the left with the
   * value read so far in `acc`: it stops at the first non-digit (a syntax
   * error) or at the first digit that takes the value past 2^64 - 1 (a range
   * error), whichever comes first.
   */
  function ScanDecimal(s: string, acc: nat): (r: Scan)
    requires acc <= MaxUint64
    ensures r.Digits? ==> acc <= r.n <= MaxUint64
    decreases |s|
  {
    if s == [] then Digits(acc)
    else if !IsDigit(s[0]) then SyntaxError
    else
      var n := acc * 10 + DigitValue(s[0]);
      if n > MaxUint64 then Overflow else ScanDecimal(s[1..], n)
  }

  /** Go's `(int, error)` pair of `strconv.Atoi`: `ok` is `err == nil`. */
  datatype Parsed = Parsed(value: int, ok: bool)

  /** `strconv.Atoi(s)`: an optional sign, then one or more decimal digits, within the 64-bit range. */
  function Atoi(s: string): (r: Parsed)
    ensures IsInt64(r.value)
    ensures !r.ok ==> r.value == 0 || r.value == MinInt64 || r.value == MaxInt64
    ensures s == [] ==> !r.ok
  {
    if s == [] then Parsed(0, false)
    else
      var neg := s[0] == '-';
      var body := if s[0] == '-' || s[0] == '+' then s[1..] else s;
      if body == [] then Parsed(0, false)
      else
        match ScanDecimal(body, 0)
        case SyntaxError => Parsed(0, false)
        case Overflow => Parsed(if neg then MinInt64 else MaxInt64, false)
        case Digits(n) =>
          if !neg && n > MaxInt64 then Parsed(MaxInt64, false)
          else if neg && n > -MinInt64 then Parsed(MinInt64, false)
          else
            var v: int := if neg then 0 - n as int else n;
            Parsed(v, true)
  }

  /** A scan that finds a value has read only digits. */
  lemma {:induction false} ScanDigitsOnly(s: string, acc: nat)
    requires acc <= MaxUint64 && ScanDecimal(s, acc).Digits?
    ensures forall k :: 0 <= k < |s| ==> IsDigit(s[k])
    decreases |s|
  {
    if s != [] {
      ScanDigitsOnly(s[1..], acc * 10 + DigitValue(s[0]));
      assert forall k :: 1 <= k < |s| ==> s[k] == s[1..][k - 1];
    }
  }

  /** A string `Atoi` accepts is an optional sign followed by decimal digits. */
  lemma AtoiAcceptsOnlyNumerals(s: string)
    requires Atoi(s).ok
    ensures |s| > 0
    ensures forall k :: 0 <= k < |s| ==> IsDigit(s[k]) || (k == 0 && (s[0] == '-' || s[0] == '+'))
  {
    var body := if s[0] == '-' || s[0] == '+' then s[1..] else s;
    ScanDigitsOnly(body, 0);
    if s[0] == '-' || s[0] == '+' {
      assert forall k :: 1 <= k < |s| ==> s[k] == body[k - 1];
    }
  }

  /** The decimal numeral of a natural number, as `strconv.Itoa` writes it. */
  function Numeral(n: nat): (r: string)
    ensures |r| > 0
    decreases n
  {
    if n < 10 then ["0123456789"[n]] else Numeral(n / 10) + ["0123456789"[n % 10]]
  }

  /** Scanning `a + b` is scanning `a` and then going on with `b` from where it stopped. */
  lemma {:induction false} ScanConcat(a: string, b: string, acc: nat)
    requires acc <= MaxUint64
    ensures ScanDecimal(a + b, acc) ==
      match ScanDecimal(a, acc)
      case Digits(m) => ScanDecimal(b, m)
      case other => other
    decreases |a|
  {
    if a == [] {
      assert a + b == b;
    } else {
      assert (a + b)[0] == a[0] && (a + b)[1..] == a[1..] + b;
      if IsDigit(a[0]) && acc * 10 + DigitValue(a[0]) <= MaxUint64 {
        ScanConcat(a[1..], b, acc * 10 + DigitValue(a[0]));
      }
    }
  }

  /** Scanning one more digit appends it to the value read so far. */
  lemma ScanOneDigit(m: nat, acc: nat)
    requires m < 10 && acc * 10 + m <= MaxUint64
    ensures ScanDecimal(["0123456789"[m]], acc) == Digits(acc * 10 + m)
  {
    var c := "0123456789"[m];
    assert IsDigit(c) && DigitValue(c) == m;
    assert [c][1..] == [];
  }

  lemma {:induction false} ScanNumeral(n: nat)
    requires n <= MaxUint64
    ensures ScanDecimal(Numeral(n), 0) == Digits(n)
    decreases n
  {
    if n < 10 {
      ScanOneDigit(n, 0);
    } else {
      var q, m := n / 10, n % 10;
      assert q * 10 + m == n && q <= n;
      ScanNumeral(q);
      ScanConcat(Numeral(q), ["0123456789"[m]], 0);
      ScanOneDigit(m, q);
    }
  }

  /** `Atoi` reads back every 64-bit integer from its numeral (with a `-` for a negative one). */
  lemma AtoiNumeralRoundTrip(x: int)
    requires IsInt64(x)
    ensures Atoi(if x < 0 then "-" + Numeral(-x) else Numeral(x)) == Parsed(x, true)
  {
    var n: nat := if x < 0 then -x else x;
    ScanNumeral(n);
    var s := if x < 0 then "-" + Numeral(n) else Numeral(n);
    if x < 0 {
      assert s[0] == '-' && s[1..] == Numeral(n);
    } else {
      var c := Numeral(n)[0];
      assert IsDigit(c) by { ScanDigitsOnly(Numeral(n), 0); }
    }
  }
}
