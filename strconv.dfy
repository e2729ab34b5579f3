/**
 * The parts of Go's `strconv` and `fmt` that the program leans on:
 * `strconv.ParseInt(s, 10, 64)` (the departure-time decoder), decimal
 * formatting with `%d` (URLs and error messages) and `strconv.Quote`
 * (inside the text of a parse error). Go strings are byte strings, so
 * everything here works on bytes.
 */
module Strconv {
  import opened Wrappers

  type byte = b: int | 0 <= b < 256

  const MaxInt64: int := 0x7fff_ffff_ffff_ffff
  const MinInt64: int := -0x8000_0000_0000_0000
  const MaxUint64: int := 0xffff_ffff_ffff_ffff

  const Plus: byte := '+' as int
  const Minus: byte := '-' as int
  const Zero: byte := '0' as int

  function Pow10(n: nat): (p: nat)
    ensures p >= 1
  {
    if n == 0 then 1 else 10 * Pow10(n - 1)
  }

  predicate IsDigit(b: byte) {
    '0' as int <= b <= '9' as int
  }

  predicate AllDigits(s: seq<byte>) {
    forall i :: 0 <= i < |s| ==> IsDigit(s[i])
  }

  /** The number a string of decimal digits denotes, most significant digit first. */
  function DigitsValue(s: seq<byte>): (v: nat)
    requires AllDigits(s)
    ensures v < Pow10(|s|)
  {
    if s == [] then 0
    else
      assert IsDigit(s[0]) && AllDigits(s[1..]);
      var dig: nat := s[0] - Zero;
      var rest := DigitsValue(s[1..]);
      var p := Pow10(|s| - 1);
      assert Pow10(|s|) == 10 * p;
      DigitPlace(dig, p, rest);
      dig * p + rest
  }

  /** A digit in front of fewer than p, at place value p, stays below 10 * p. */
  lemma DigitPlace(dig: nat, p: nat, rest: nat)
    requires dig <= 9 && rest < p
    ensures dig * p + rest < 10 * p
  {
    MulMono(dig, 9, p);
  }

  /** What a strconv.NumError records: the failing function, its input and the cause. */
  datatype NumCause = ErrSyntax | ErrRange

  datatype NumError = NumError(fn: string, num: seq<byte>, cause: NumCause)

  /** Outcome of the digit loop of strconv.ParseUint (base 10, 64 bits). */
  datatype UintScan = UintValue(n: nat) | UintSyntax | UintRange

  /** `cutoff` of strconv.ParseUint: the smallest n for which n*10 overflows uint64. */
  const UintCutoff: nat := MaxUint64 / 10 + 1

  /**
   * The digit loop of strconv.ParseUint: it stops at the first byte that is
   * not a decimal digit (syntax error) or at the first step that would leave
   * uint64 (range error), whichever comes first.
   */
  function ScanUint(d: seq<byte>, n: nat): UintScan
    decreases |d|
  {
    if d == [] then UintValue(n)
    else if !IsDigit(d[0]) then UintSyntax
    else if n >= UintCutoff then UintRange
    else
      var n1 := n * 10 + (d[0] - Zero);
      if n1 > MaxUint64 then UintRange else ScanUint(d[1..], n1)
  }

  /**
   * strconv.ParseInt(s, 10, 64): an optional sign, then ParseUint on the rest;
   * syntax errors are re-labelled as ParseInt errors on the whole input, and a
   * magnitude outside int64 is a range error.
   */
  function ParseInt(s: seq<byte>): Result<int, NumError> {
    if s == [] then Err(NumError("ParseInt", s, ErrSyntax))
    else
      var neg := s[0] == Minus;
      var body := if s[0] == Plus || s[0] == Minus then s[1..] else s;
      var scan := if body == [] then UintSyntax else ScanUint(body, 0);
      match scan
      case UintSyntax => Err(NumError("ParseInt", s, ErrSyntax))
      case UintRange => Err(NumError("ParseInt", s, ErrRange))
      case UintValue(un) =>
        if !neg && un > MaxInt64 then Err(NumError("ParseInt", s, ErrRange))
        else if neg && un > -MinInt64 then Err(NumError("ParseInt", s, ErrRange))
        else
          var v: int := un;
          Ok(if neg then -v else v)
  }

  /** The sign-stripped part of a numeral. */
  function Unsigned(s: seq<byte>): seq<byte> {
    if |s| > 0 && (s[0] == Plus || s[0] == Minus) then s[1..] else s
  }

  /** The syntax ParseInt accepts in base 10: an optional sign, then at least one decimal digit. */
  predicate DecimalSyntax(s: seq<byte>) {
    var u := Unsigned(s);
    |u| > 0 && AllDigits(u)
  }

  /** The value of a numeral in DecimalSyntax, read independently of the scanning loop. */
  function NumeralValue(s: seq<byte>): int
    requires DecimalSyntax(s)
  {
    var v: int := DigitsValue(Unsigned(s));
    if s[0] == Minus then -v else v
  }

  /** The digit loop computes the positional value as long as it stays below 10^19. */
  lemma {:induction false} ScanUintValue(d: seq<byte>, n: nat, k: nat)
    requires AllDigits(d) && n < Pow10(k) && k + |d| <= 19
    ensures ScanUint(d, n) == UintValue(n * Pow10(|d|) + DigitsValue(d))
    decreases |d|
  {
    if d != [] {
      var dig := d[0] - Zero;
      ScanStep(n, k, dig);
      var n1 := n * 10 + dig;
      ScanUintValue(d[1..], n1, k + 1);
      var p := Pow10(|d| - 1);
      Regroup(n, dig, p);
      assert n1 * p == n * Pow10(|d|) + dig * p;
    }
  }

  /** One step of the digit loop neither overflows nor reaches the cutoff below 10^19. */
  lemma ScanStep(n: nat, k: nat, dig: nat)
    requires n < Pow10(k) && dig < 10 && k <= 18
    ensures n < UintCutoff
    ensures n * 10 + dig < Pow10(k + 1) && n * 10 + dig <= MaxUint64
  {
    Pow10Monotone(k, 18);
    Pow10Monotone(k + 1, 19);
    Pow10Bounds();
    MulMono(n, Pow10(k) - 1, 10);
  }

  lemma MulMono(a: nat, b: nat, c: nat)
    requires a <= b
    ensures a * c <= b * c
  {
  }

  lemma Regroup(n: nat, dig: nat, p: nat)
    ensures (n * 10 + dig) * p == n * (10 * p) + dig * p
  {
  }

  /** The two powers of ten that bound the uint64 and int64 ranges. */
  lemma Pow10Bounds()
    ensures Pow10(18) == 1_000_000_000_000_000_000
    ensures Pow10(19) == 10_000_000_000_000_000_000
  {
    assert Pow10(2) == 100;
    assert Pow10(4) == 10_000;
    assert Pow10(6) == 1_000_000;
    assert Pow10(8) == 100_000_000;
    assert Pow10(10) == 10_000_000_000;
    assert Pow10(12) == 1_000_000_000_000;
    assert Pow10(14) == 100_000_000_000_000;
    assert Pow10(16) == 10_000_000_000_000_000;
  }

  lemma {:induction false} Pow10Monotone(a: nat, b: nat)
    requires a <= b
    ensures Pow10(a) <= Pow10(b)
    decreases b
  {
    if a < b {
      Pow10Monotone(a, b - 1);
    }
  }

  /** ParseInt accepts a numeral of at most 19 digits whose value fits int64, and yields that value. */
  lemma ParseIntValue(s: seq<byte>)
    requires DecimalSyntax(s) && |Unsigned(s)| <= 19
    requires MinInt64 <= NumeralValue(s) <= MaxInt64
    ensures ParseInt(s) == Ok(NumeralValue(s))
  {
    ScanUintValue(Unsigned(s), 0, 0);
  }

  /** ParseInt rejects anything of at most 19 digits that is not a numeral with a syntax error on the whole input. */
  lemma ParseIntSyntax(s: seq<byte>)
    requires !DecimalSyntax(s) && |Unsigned(s)| <= 19
    ensures ParseInt(s) == Err(NumError("ParseInt", s, ErrSyntax))
  {
    var u := Unsigned(s);
    if |u| > 0 {
      ScanStopsAtNonDigit(u, 0, 0);
    }
  }

  /**
   * ParseInt on an input of at most 18 bytes: it succeeds exactly on the
   * decimal syntax, then yields the numeral's value, and otherwise reports a
   * syntax error on the whole input. No range error is possible.
   */
  lemma ParseIntShort(s: seq<byte>)
    requires |s| <= 18
    ensures ParseInt(s).Ok? <==> DecimalSyntax(s)
    ensures DecimalSyntax(s) ==> ParseInt(s) == Ok(NumeralValue(s))
    ensures !DecimalSyntax(s) ==> ParseInt(s) == Err(NumError("ParseInt", s, ErrSyntax))
  {
    if DecimalSyntax(s) {
      Pow10Monotone(|Unsigned(s)|, 18);
      Pow10Bounds();
      ParseIntValue(s);
    } else {
      ParseIntSyntax(s);
    }
  }

  /** In a short input with a non-digit, the loop reports a syntax error before any range error. */
  lemma {:induction false} ScanStopsAtNonDigit(d: seq<byte>, n: nat, k: nat)
    requires !AllDigits(d) && n < Pow10(k) && k + |d| <= 19
    ensures ScanUint(d, n) == UintSyntax
    decreases |d|
  {
    if IsDigit(d[0]) {
      var n1 := n * 10 + (d[0] - Zero);
      ScanStep(n, k, d[0] - Zero);
      assert ScanUint(d, n) == ScanUint(d[1..], n1);
      NonDigitInTail(d);
      ScanStopsAtNonDigit(d[1..], n1, k + 1);
    }
  }

  lemma NonDigitInTail(d: seq<byte>)
    requires !AllDigits(d) && |d| > 0 && IsDigit(d[0])
    ensures !AllDigits(d[1..])
  {
    var i :| 0 <= i < |d| && !IsDigit(d[i]);
    assert d[1..][i - 1] == d[i];
  }

  /** `n` as exactly `w` decimal digits, zero-padded on the left (the `%0wd` verb). */
  function ZeroPad(n: nat, w: nat): (s: seq<byte>)
    requires n < Pow10(w)
    ensures |s| == w && AllDigits(s)
  {
    if w == 0 then []
    else
      LeadingDigit(n, w);
      var rest := ZeroPad(n % Pow10(w - 1), w - 1);
      var s := [Zero + n / Pow10(w - 1)] + rest;
      assert forall i :: 1 <= i < |s| ==> s[i] == rest[i - 1];
      s
  }

  /** Splitting a `w`-digit number into its leading digit and the rest. */
  lemma LeadingDigit(n: nat, w: nat)
    requires w > 0 && n < Pow10(w)
    ensures 0 <= n / Pow10(w - 1) < 10 && 0 <= n % Pow10(w - 1) < Pow10(w - 1)
    ensures n == (n / Pow10(w - 1)) * Pow10(w - 1) + n % Pow10(w - 1)
  {
  }

  lemma DivZero(n: nat, p: nat)
    requires p >= 1 && n / p == 0
    ensures n < p
  {
  }

  /** Reading the zero-padded digits back gives the number. */
  lemma {:induction false} ZeroPadValue(n: nat, w: nat)
    requires n < Pow10(w)
    ensures DigitsValue(ZeroPad(n, w)) == n
    decreases w
  {
    if w > 0 {
      LeadingDigit(n, w);
      var p := Pow10(w - 1);
      ZeroPadValue(n % p, w - 1);
      var s := ZeroPad(n, w);
      assert s[1..] == ZeroPad(n % p, w - 1);
      assert s[0] - Zero == n / p;
    }
  }

  lemma {:induction false} Pow10Add(a: nat, b: nat)
    ensures Pow10(a + b) == Pow10(a) * Pow10(b)
    decreases a
  {
    if a > 0 {
      Pow10Add(a - 1, b);
    }
  }

  /** Euclidean division is determined by its quotient and remainder. */
  lemma DivModUnique(n: nat, d: nat, q: nat, r: nat)
    requires 0 <= r < d && n == q * d + r
    ensures n / d == q && n % d == r
  {
    var q2, r2 := n / d, n % d;
    if q < q2 {
      MulStrict(q, q2, d);
    } else if q2 < q {
      MulStrict(q2, q, d);
    }
  }

  lemma MulStrict(a: nat, b: nat, d: nat)
    requires a < b
    ensures a * d + d <= b * d
  {
    MulMono(a + 1, b, d);
  }

  /** Dividing by x then by y is dividing by x*y; the digits between are (n / x) % y. */
  lemma DivDiv(n: nat, x: nat, y: nat)
    requires x >= 1 && y >= 1
    ensures (n / x) / y == n / (x * y)
    ensures (n % (x * y)) / x == (n / x) % y
  {
    var q, r := n / x, n % x;
    var s, t := q / y, q % y;
    Nest(n, x, q, r, y, s, t);
    NestBound(x, r, y, t);
    DivModUnique(n, x * y, s, t * x + r);
    DivModUnique(t * x + r, x, t, r);
  }

  lemma Nest(n: nat, x: nat, q: nat, r: nat, y: nat, s: nat, t: nat)
    requires n == q * x + r && q == s * y + t
    ensures n == s * (x * y) + (t * x + r)
  {
    calc {
      q * x;
      (s * y + t) * x;
      s * (x * y) + t * x;
    }
  }

  lemma NestBound(x: nat, r: nat, y: nat, t: nat)
    requires r < x && t < y
    ensures t * x + r < x * y
  {
    MulMono(t, y - 1, x);
    assert (y - 1) * x == x * y - x;
  }

  /** The first `a` of `a + b` zero-padded digits are the zero-padded digits of n / 10^b. */
  lemma {:induction false} ZeroPadPrefix(n: nat, a: nat, b: nat)
    requires n < Pow10(a + b)
    ensures n / Pow10(b) < Pow10(a)
    ensures ZeroPad(n, a + b)[..a] == ZeroPad(n / Pow10(b), a)
    decreases a
  {
    Pow10Add(a, b);
    DivBelow(n, Pow10(a), Pow10(b));
    if a > 0 {
      var w := a + b;
      var top := Pow10(w - 1);
      LeadingDigit(n, w);
      ZeroPadPrefix(n % top, a - 1, b);
      PrefixArith(n, a, b);
      var lhs := ZeroPad(n, w);
      var rest := ZeroPad(n % top, (a - 1) + b);
      assert lhs == [Zero + n / top] + rest;
      assert lhs[..a] == [Zero + n / top] + rest[..a - 1];
    }
  }

  /** The leading digit and the remaining prefix digits of n, seen through n / 10^b. */
  lemma PrefixArith(n: nat, a: nat, b: nat)
    requires a > 0
    ensures (n / Pow10(b)) / Pow10(a - 1) == n / Pow10(a + b - 1)
    ensures (n % Pow10(a + b - 1)) / Pow10(b) == (n / Pow10(b)) % Pow10(a - 1)
  {
    Pow10Add(b, a - 1);
    assert Pow10(a + b - 1) == Pow10(b) * Pow10(a - 1);
    DivDiv(n, Pow10(b), Pow10(a - 1));
  }

  lemma DivBelow(n: nat, x: nat, y: nat)
    requires y >= 1 && n < x * y
    ensures n / y < x
  {
  }

  /** The number of decimal digits `%d` prints for a natural number. */
  function Width(n: nat): (w: nat)
    ensures 1 <= w && n < Pow10(w)
    ensures n >= Pow10(w - 1) || n == 0
  {
    if n < 10 then 1 else 1 + Width(n / 10)
  }

  /** `%d` of a natural number: its digits without leading zeros. */
  function FormatUint(n: nat): seq<byte> {
    ZeroPad(n, Width(n))
  }

  /** `%d` (or strconv.Itoa) of an integer: a '-' for negatives, then the digits of the magnitude. */
  function FormatInt(n: int): seq<byte> {
    if n < 0 then [Minus] + FormatUint(-n) else FormatUint(n)
  }

  /** The text `%d` formats is canonical: digits only after the sign, no leading zero. */
  lemma FormatIntCanonical(n: int)
    ensures DecimalSyntax(FormatInt(n))
    ensures FormatInt(n)[0] == Minus <==> n < 0
    ensures n >= 0 ==> AllDigits(FormatInt(n))
    ensures var u := Unsigned(FormatInt(n)); u[0] == Zero ==> u == [Zero]
  {
    var m := if n < 0 then -n else n;
    var u := FormatUint(m);
    assert Unsigned(FormatInt(n)) == u;
    if u[0] == Zero {
      var p := Pow10(Width(m) - 1);
      assert m / p == 0;
      DivZero(m, p);
    }
  }

  /** Parsing what `%d` printed gives the number back, over the whole int64 range. */
  lemma FormatParseRoundTrip(n: int)
    requires MinInt64 <= n <= MaxInt64
    ensures ParseInt(FormatInt(n)) == Ok(n)
  {
    var m := if n < 0 then -n else n;
    Pow10Bounds();
    WidthBound(m);
    FormattedValue(n);
    ParseIntValue(FormatInt(n));
  }

  /** Magnitudes up to 10^19 - 1 print in at most 19 digits. */
  lemma WidthBound(m: nat)
    requires m < Pow10(19)
    ensures Width(m) <= 19
  {
    var w := Width(m);
    if w > 19 {
      Pow10Monotone(19, w - 1);
    }
  }

  /** The numeral `%d` prints denotes the number printed. */
  lemma FormattedValue(n: int)
    ensures DecimalSyntax(FormatInt(n))
    ensures |Unsigned(FormatInt(n))| == Width(if n < 0 then -n else n)
    ensures NumeralValue(FormatInt(n)) == n
  {
    var m := if n < 0 then -n else n;
    ZeroPadValue(m, Width(m));
    FormatIntCanonical(n);
    assert Unsigned(FormatInt(n)) == FormatUint(m);
  }

  /** ASCII text as a Go string: one character per byte. */
  function AsString(s: seq<byte>): (t: string)
    ensures |t| == |s| && forall i :: 0 <= i < |s| ==> t[i] as int == s[i]
  {
    if s == [] then "" else [s[0] as char] + AsString(s[1..])
  }

  /** A Go string literal of ASCII text as its bytes. */
  function AsciiBytes(t: string): (s: seq<byte>)
    requires forall i :: 0 <= i < |t| ==> t[i] as int < 128
    ensures |s| == |t| && forall i :: 0 <= i < |t| ==> s[i] == t[i] as int
  {
    if t == "" then [] else [t[0] as int] + AsciiBytes(t[1..])
  }

  function LowerHex(d: int): char
    requires 0 <= d < 16
  {
    "0123456789abcdef"[d]
  }

  /** How strconv.Quote writes one byte inside the quotes. */
  function QuoteByte(b: byte): string {
    if b == '"' as int then "\\\""
    else if b == '\\' as int then "\\\\"
    else if b == 7 then "\\a"
    else if b == 8 then "\\b"
    else if b == 12 then "\\f"
    else if b == 10 then "\\n"
    else if b == 13 then "\\r"
    else if b == 9 then "\\t"
    else if b == 11 then "\\v"
    else if 0x20 <= b < 0x7f then [b as char]
    else "\\x" + [LowerHex(b / 16), LowerHex(b % 16)]
  }

  function QuoteBody(s: seq<byte>): string {
    if s == [] then "" else QuoteByte(s[0]) + QuoteBody(s[1..])
  }

  /** strconv.Quote: the bytes between double quotes, with escapes. */
  function Quote(s: seq<byte>): (q: string)
    ensures |q| >= 2 && q[0] == '"' && q[|q| - 1] == '"'
  {
    "\"" + QuoteBody(s) + "\""
  }

  /** Printable ASCII other than `"` and `\` is quoted verbatim. */
  lemma {:induction false} QuotePlain(s: seq<byte>)
    requires forall i :: 0 <= i < |s| ==> 0x20 <= s[i] < 0x7f && s[i] != '"' as int && s[i] != '\\' as int
    ensures Quote(s) == "\"" + AsString(s) + "\""
  {
    QuoteBodyPlain(s);
  }

  lemma {:induction false} QuoteBodyPlain(s: seq<byte>)
    requires forall i :: 0 <= i < |s| ==> 0x20 <= s[i] < 0x7f && s[i] != '"' as int && s[i] != '\\' as int
    ensures QuoteBody(s) == AsString(s)
  {
    if s != [] {
      QuoteBodyPlain(s[1..]);
    }
  }

  /** The text of a NumError: `strconv.ParseInt: parsing "x": invalid syntax`. */
  function NumErrorText(e: NumError): string {
    "strconv." + e.fn + ": parsing " + Quote(e.num) + ": "
      + (match e.cause case ErrSyntax => "invalid syntax" case ErrRange => "value out of range")
  }

  /** The syntax error on printable text prints that text between plain quotes. */
  lemma SyntaxErrorText(w: seq<byte>)
    requires forall i :: 0 <= i < |w| ==> 0x20 <= w[i] < 0x7f && w[i] != '"' as int && w[i] != '\\' as int
    ensures NumErrorText(NumError("ParseInt", w, ErrSyntax))
      == "strconv." + "ParseInt" + ": parsing " + ("\"" + AsString(w) + "\"") + ": " + "invalid syntax"
  {
    QuotePlain(w);
  }
}
