/** Names of rotated files: printing, parsing, and the order in which pruning considers them. */
module RotationNames {
  import opened Records

  const SEQ_MODULUS: nat := 0x1_0000_0000

  predicate IsDigit(ch: char) {
    '0' <= ch <= '9'
  }

  predicate AllDigits(s: string) {
    forall i :: 0 <= i < |s| ==> IsDigit(s[i])
  }

  /** YYYYMMDD_HHMMSS: eight digits, an underscore, six digits. */
  predicate IsStamp(ts: string) {
    |ts| == 15 && AllDigits(ts[..8]) && ts[8] == '_' && AllDigits(ts[9..])
  }

  function DigitChar(d: nat): char
    requires d < 10
  {
    (('0' as int) + d) as char
  }

  function DigitValue(ch: char): nat
    requires IsDigit(ch)
  {
    (ch as int) - ('0' as int)
  }

  /** Decimal rendering without leading zeros. */
  function Decimal(n: nat): (s: string)
    ensures s != "" && AllDigits(s)
  {
    if n < 10 then [DigitChar(n)] else Decimal(n / 10) + [DigitChar(n % 10)]
  }

  function Value(s: string): nat
    requires AllDigits(s)
  {
    if s == "" then 0 else 10 * Value(s[..|s| - 1]) + DigitValue(s[|s| - 1])
  }

  lemma {:induction false} ValueOfDecimal(n: nat)
    ensures Value(Decimal(n)) == n
  {
    var s := Decimal(n);
    if n >= 10 {
      ValueOfDecimal(n / 10);
      assert s[..|s| - 1] == Decimal(n / 10);
    } else {
      assert s[..0] == "";
    }
  }

  /** <base>.<ts> for sequence number 0, <base>.<ts>.<seq> otherwise. */
  function RotatedName(base: string, ts: string, n: nat): string {
    base + "." + ts + (if n == 0 then "" else "." + Decimal(n))
  }

  datatype Suffix = Suffix(ts: string, n: nat)

  predicate HasSuffixShape(rest: string) {
    && |rest| >= 15
    && IsStamp(rest[..15])
    && (|rest| == 15 || (rest[15] == '.' && |rest| > 16 && AllDigits(rest[16..])))
  }

  /** The time stamp and 32-bit sequence number of a rotated file of `base`. */
  function Parse(filename: string, base: string): Option<Suffix> {
    if base + "." <= filename && HasSuffixShape(filename[|base| + 1..]) then
      var rest := filename[|base| + 1..];
      Some(Suffix(rest[..15], if |rest| == 15 then 0 else Value(rest[16..]) % SEQ_MODULUS))
    else None
  }

  method DigitsIn(s: string, from: nat, to: nat) returns (ok: bool)
    requires from <= to <= |s|
    ensures ok == AllDigits(s[from..to])
  {
    var i := from;
    while i < to
      invariant from <= i <= to
      invariant forall k :: from <= k < i ==> IsDigit(s[k])
    {
      if s[i] < '0' || s[i] > '9' {
        assert !IsDigit(s[from..to][i - from]);
        return false;
      }
      i := i + 1;
    }
    return true;
  }

  method ParseRotationSuffix(filename: string, base: string) returns (r: Option<Suffix>)
    ensures r == Parse(filename, base)
  {
    var prefix := base + ".";
    if !(prefix <= filename) {
      return None;
    }
    var rest := filename[|prefix|..];
    if |rest| < 15 {
      return None;
    }
    assert rest == filename[|base| + 1..];
    var ts := rest[..15];
    assert ts[0..8] == ts[..8] && ts[9..15] == ts[9..];
    var date := DigitsIn(ts, 0, 8);
    if !date || ts[8] != '_' {
      return None;
    }
    var time := DigitsIn(ts, 9, 15);
    if !time {
      return None;
    }
    var n := 0;
    if |rest| > 15 {
      if rest[15] != '.' {
        return None;
      }
      var digits := rest[16..];
      if digits == "" {
        return None;
      }
      var i := 0;
      while i < |digits|
        invariant 0 <= i <= |digits| && AllDigits(digits[..i])
        invariant n == Value(digits[..i]) % SEQ_MODULUS
      {
        if digits[i] < '0' || digits[i] > '9' {
          return None;
        }
        assert digits[..i + 1][..i] == digits[..i];
        AppendDigitMod(Value(digits[..i]), DigitValue(digits[i]));
        n := (n * 10 + DigitValue(digits[i])) % SEQ_MODULUS;
        i := i + 1;
      }
      assert digits[..|digits|] == digits;
    }
    return Some(Suffix(ts, n));
  }

  /** Accumulating modulo 2^32 digit by digit is the value modulo 2^32. */
  lemma AppendDigitMod(v: nat, d: nat)
    ensures (v % SEQ_MODULUS * 10 + d) % SEQ_MODULUS == (10 * v + d) % SEQ_MODULUS
  {
    var q, r := v / SEQ_MODULUS, v % SEQ_MODULUS;
    assert 10 * v + d == (r * 10 + d) + SEQ_MODULUS * (10 * q);
    ModOfMultiple(r * 10 + d, 10 * q);
  }

  lemma {:induction false} ModOfMultiple(a: nat, k: nat)
    ensures (a + SEQ_MODULUS * k) % SEQ_MODULUS == a % SEQ_MODULUS
    decreases k
  {
    if k > 0 {
      ModOfMultiple(a, k - 1);
      assert a + SEQ_MODULUS * k == (a + SEQ_MODULUS * (k - 1)) + SEQ_MODULUS;
    }
  }

  /** Parsing undoes printing, whatever dots and digits the base name holds. */
  lemma ParseOfRotatedName(base: string, ts: string, n: nat)
    requires IsStamp(ts) && n < SEQ_MODULUS
    ensures Parse(RotatedName(base, ts, n), base) == Some(Suffix(ts, n))
  {
    var tail := if n == 0 then "" else "." + Decimal(n);
    RestOfName(base, ts, tail);
    if n > 0 {
      DecimalTail(n);
    }
  }

  lemma DecimalTail(n: nat)
    requires 0 < n < SEQ_MODULUS
    ensures var tail := "." + Decimal(n);
            && |tail| > 1 && tail[0] == '.' && AllDigits(tail[1..]) && Value(tail[1..]) % SEQ_MODULUS == n
  {
    assert ("." + Decimal(n))[1..] == Decimal(n);
    ValueOfDecimal(n);
  }

  /** What the parser cuts a name into. */
  lemma RestOfName(base: string, ts: string, tail: string)
    requires |ts| == 15
    ensures var name := base + "." + ts + tail;
            && base + "." <= name
            && var rest := name[|base| + 1..];
               && |rest| == 15 + |tail| && rest[..15] == ts
               && (tail != "" ==> rest[15] == tail[0] && rest[16..] == tail[1..])
  {
    var name := base + "." + ts + tail;
    assert name == base + "." + (ts + tail);
    assert name[|base| + 1..] == ts + tail;
  }

  /** A tail behind the stamp denoting sequence number n modulo 2^32. */
  predicate IsTail(tail: string, n: nat) {
    (tail == "" && n == 0)
    || (|tail| > 1 && tail[0] == '.' && AllDigits(tail[1..]) && n == Value(tail[1..]) % 4294967296)
  }

  lemma AcceptedHasTail(filename: string, base: string, ts: string, n: nat) returns (tail: string)
    requires Parse(filename, base) == Some(Suffix(ts, n))
    ensures IsStamp(ts) && filename == base + "." + ts + tail && IsTail(tail, n)
  {
    var rest := filename[|base| + 1..];
    tail := rest[15..];
    assert filename == (base + ".") + rest;
    assert rest == ts + tail;
    assert (base + ".") + (ts + tail) == base + "." + ts + tail;
    assert |rest| > 15 ==> tail[1..] == rest[16..];
  }

  lemma TailIsAccepted(base: string, ts: string, tail: string, n: nat)
    requires IsStamp(ts) && IsTail(tail, n)
    ensures Parse(base + "." + ts + tail, base) == Some(Suffix(ts, n))
  {
    RestOfName(base, ts, tail);
  }

  /** Exactly the names <base>.<stamp> and <base>.<stamp>.<digits> are accepted. */
  lemma ParseAccepts(filename: string, base: string, ts: string, n: nat)
    ensures Parse(filename, base) == Some(Suffix(ts, n))
       <==> IsStamp(ts) && exists tail :: filename == base + "." + ts + tail && IsTail(tail, n)
  {
    if Parse(filename, base) == Some(Suffix(ts, n)) {
      var tail := AcceptedHasTail(filename, base, ts, n);
      assert filename == base + "." + ts + tail && IsTail(tail, n);
    }
    if IsStamp(ts) {
      forall tail | filename == base + "." + ts + tail && IsTail(tail, n)
        ensures Parse(filename, base) == Some(Suffix(ts, n))
      {
        TailIsAccepted(base, ts, tail, n);
      }
    }
  }

  lemma RotatedNameInjective(base: string, ts: string, n: nat, ts': string, n': nat)
    requires IsStamp(ts) && IsStamp(ts') && n < SEQ_MODULUS && n' < SEQ_MODULUS
    requires RotatedName(base, ts, n) == RotatedName(base, ts', n')
    ensures ts == ts' && n == n'
  {
    ParseOfRotatedName(base, ts, n);
    ParseOfRotatedName(base, ts', n');
  }

  lemma BaseDoesNotParse(base: string)
    ensures Parse(base, base) == None
  {
  }

  // ----- the order of candidates -----

  /** Lexicographic comparison of strings. */
  predicate Less(a: string, b: string) {
    b != "" && (a == "" || a[0] < b[0] || (a[0] == b[0] && Less(a[1..], b[1..])))
  }

  lemma {:induction false} LessTotal(a: string, b: string)
    ensures a == b || Less(a, b) || Less(b, a)
    ensures !(Less(a, b) && Less(b, a))
    ensures a == b ==> !Less(a, b)
  {
    if a != "" && b != "" {
      LessTotal(a[1..], b[1..]);
      assert a == [a[0]] + a[1..] && b == [b[0]] + b[1..];
    }
  }

  lemma {:induction false} LessTransitive(a: string, b: string, d: string)
    requires Less(a, b) && Less(b, d)
    ensures Less(a, d)
  {
    if a != "" && a[0] == b[0] == d[0] {
      LessTransitive(a[1..], b[1..], d[1..]);
    }
  }

  /** Candidates are ordered by stamp, then by sequence number. */
  predicate Before(x: Suffix, y: Suffix) {
    if x.ts != y.ts then Less(x.ts, y.ts) else x.n < y.n
  }

  lemma BeforeOrder(x: Suffix, y: Suffix, z: Suffix)
    ensures !(Before(x, y) && Before(y, x))
    ensures !Before(y, x) && !Before(z, y) ==> !Before(z, x)
    ensures Before(x, y) && Before(y, z) ==> Before(x, z)
  {
    LessTotal(x.ts, y.ts);
    LessTotal(y.ts, z.ts);
    LessTotal(x.ts, z.ts);
    if Less(x.ts, y.ts) && Less(y.ts, z.ts) { LessTransitive(x.ts, y.ts, z.ts); }
    if Less(z.ts, x.ts) && Less(x.ts, y.ts) { LessTransitive(z.ts, x.ts, y.ts); }
    if Less(y.ts, z.ts) && Less(z.ts, x.ts) { LessTransitive(y.ts, z.ts, x.ts); }
  }

  // ----- the format of names, literally -----

  /** Numbers print without leading zeros. */
  lemma {:induction false} DecimalShape(n: nat)
    ensures Decimal(n) != "" && AllDigits(Decimal(n))
    ensures Decimal(0) == "0"
    ensures n > 0 ==> Decimal(n)[0] != '0'
    ensures forall s :: AllDigits(s) && s != "" && (|s| == 1 || s[0] != '0') && Value(s) == n ==> s == Decimal(n)
  {
    if n >= 10 {
      DecimalShape(n / 10);
    }
    forall s | AllDigits(s) && s != "" && (|s| == 1 || s[0] != '0') && Value(s) == n ensures s == Decimal(n) {
      OnlyDecimal(s);
    }
  }

  /** A digit string without leading zero is the printed form of its value. */
  lemma {:induction false} OnlyDecimal(s: string)
    requires AllDigits(s) && s != "" && (|s| == 1 || s[0] != '0')
    ensures s == Decimal(Value(s))
    ensures |s| > 1 ==> Value(s) >= 10
  {
    var m := |s| - 1;
    if m > 0 {
      OnlyDecimal(s[..m]);
      assert s[..m][0] == s[0];
      assert Value(s[..m]) >= 1 by {
        if |s[..m]| == 1 {
          assert s[..m][..0] == "";
        }
      }
      assert s == s[..m] + [s[m]];
    } else {
      assert s[..0] == "" && s == [s[0]];
    }
  }

  /** The first rotation of a second has no number in its name, and every other one its number. */
  lemma NamesOfASecond()
    ensures RotatedName("app.log", "20250101_120000", 0) == "app.log.20250101_120000"
    ensures RotatedName("app.log", "20250101_120000", 1) == "app.log.20250101_120000.1"
    ensures RotatedName("app.log", "20250101_120000", 42) == "app.log.20250101_120000.42"
  {
    assert Decimal(1) == "1" && Decimal(4) == "4" && Decimal(42) == "42";
  }

  lemma IsStampExample()
    ensures IsStamp("20250101_120000")
  {
    var ts := "20250101_120000";
    assert ts[..8] == "20250101" && ts[9..] == "120000";
  }

  /** These names are read back, and names with any other separator are not taken for rotations. */
  lemma ReadNames()
    ensures Parse("app.log.20250101_120000", "app.log") == Some(Suffix("20250101_120000", 0))
    ensures Parse("app.log.20250101_120000.42", "app.log") == Some(Suffix("20250101_120000", 42))
    ensures Parse("app.log.20250101-120000", "app.log") == None
    ensures Parse("app.log_20250101_120000", "app.log") == None
    ensures Parse("app.log.20250101_120000.", "app.log") == None
  {
    NamesOfASecond();
    IsStampExample();
    ParseOfRotatedName("app.log", "20250101_120000", 0);
    ParseOfRotatedName("app.log", "20250101_120000", 42);
    OtherSeparators();
  }

  lemma OtherSeparators()
    ensures Parse("app.log.20250101-120000", "app.log") == None
    ensures Parse("app.log_20250101_120000", "app.log") == None
    ensures Parse("app.log.20250101_120000.", "app.log") == None
  {
    var a, b, d := "app.log.20250101-120000", "app.log_20250101_120000", "app.log.20250101_120000.";
    assert a[8..] == "20250101-120000" && a[8..][..15][8] == '-';
    assert b[7] == '_' && ("app.log" + ".")[7] == '.';
    assert d[8..] == "20250101_120000.";
  }
}
