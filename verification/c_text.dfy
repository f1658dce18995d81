/** The C library's text functions, as far as the index and the settings file use them.
    A char stands for one byte of a file; C strings end at their first NUL byte. */
module CText {

  datatype Option<+T> = None | Some(value: T)

  predicate EndsWith(value: string, suffix: string) {
    |suffix| <= |value| && value[|value| - |suffix|..] == suffix
  }

  predicate PartAt(value: string, part: string, i: int) {
    0 <= i <= |value| - |part| && value[i..i + |part|] == part
  }

  lemma PartChar(value: string, part: string, i: int, k: nat)
    requires PartAt(value, part, i) && k < |part|
    ensures value[i + k] == part[k]
  {
    assert value[i..i + |part|][k] == value[i + k];
  }

  /** strstr(value, part) != 0 */
  predicate Contains(value: string, part: string) {
    exists i | 0 <= i <= |value| :: PartAt(value, part, i)
  }

  predicate StartsWith(value: string, prefix: string) {
    |prefix| <= |value| && value[..|prefix|] == prefix
  }

  lemma Reassociated(a: string, b: string, c: string)
    ensures a + (b + c) == a + b + c
  {}

  /** strchr as an offset: the first c, or the length when there is none. */
  function IndexOf(s: string, c: char): (i: nat)
    ensures i <= |s| && c !in s[..i]
    ensures i < |s| ==> s[i] == c
  {
    if s == [] || s[0] == c then 0 else
      var rest := IndexOf(s[1..], c);
      assert s[..1 + rest] == [s[0]] + s[1..][..rest];
      1 + rest
  }

  lemma {:induction false} IndexOfCut(before: string, c: char, after: string)
    requires c !in before
    ensures IndexOf(before + [c] + after, c) == |before|
    ensures (before + [c] + after)[..|before|] == before
    ensures (before + [c] + after)[|before| + 1..] == after
  {
    var s := before + [c] + after;
    if before != [] {
      IndexOfCut(before[1..], c, after);
      assert s[1..] == before[1..] + [c] + after;
    }
  }

  lemma {:induction false} IndexOfAbsent(s: string, c: char)
    requires c !in s
    ensures IndexOf(s, c) == |s|
  {
    if s != [] {
      IndexOfAbsent(s[1..], c);
    }
  }

  datatype CutResult = Uncut | Cut(before: string, after: string)

  /** strchr followed by writing a NUL there: the text before and after the first c. */
  function CutAt(s: string, c: char): (r: CutResult)
    ensures r.Cut? ==> s == r.before + [c] + r.after && c !in r.before
    ensures r.Uncut? ==> c !in s
  {
    var i := IndexOf(s, c);
    if i == |s| then (assert s[..i] == s; Uncut) else Cut(s[..i], s[i + 1..])
  }

  lemma CutOf(before: string, c: char, after: string)
    requires c !in before
    ensures CutAt(before + [c] + after, c) == Cut(before, after)
  {
    IndexOfCut(before, c, after);
  }

  /** strrchr as an offset. */
  function LastIndexOf(s: string, c: char): (i: nat)
    ensures i <= |s|
    ensures i < |s| ==> s[i] == c && c !in s[i + 1..]
    ensures i == |s| ==> c !in s
  {
    if s == [] then 0
    else if s[|s| - 1] == c then |s| - 1
    else
      var n := |s| - 1;
      var i := LastIndexOf(s[..n], c);
      assert s == s[..n] + [s[n]];
      if i < n then (assert s[i + 1..] == s[..n][i + 1..] + [s[n]]; i) else |s|
  }

  function CString(s: string): (r: string)
    ensures '\0' !in r && |r| <= |s|
  {
    s[..IndexOf(s, '\0')]
  }

  /** strncpy into a zeroed buffer of the given size. */
  function Truncated(s: string, size: nat): (r: string)
    requires 0 < size
  {
    if |s| < size then s else s[..size - 1]
  }

  /** trimLine: line feeds and carriage returns are dropped from the end. */
  function TrimLine(s: string): (r: string)
    ensures r <= s
  {
    if s != [] && (s[|s| - 1] == '\n' || s[|s| - 1] == '\r') then TrimLine(s[..|s| - 1]) else s
  }

  /** fgets on a non-empty remainder: how many bytes it takes. */
  function FgetsLength(text: string, size: nat): (n: nat)
    requires text != [] && 2 <= size
    ensures 0 < n <= |text| && n < size
    ensures '\n' !in text[..n - 1]
  {
    var newline := IndexOf(text, '\n');
    var wanted := if newline < |text| then newline + 1 else newline;
    var n := if wanted < size then wanted else size - 1;
    assert forall k | 0 <= k < n - 1 :: text[k] == text[..newline][k];
    n
  }

  /** The line as the parse loops see it: read by fgets, ended at a NUL, trimmed. */
  function LineOf(text: string, size: nat): (r: string)
    requires text != [] && 2 <= size
    ensures '\n' !in r && '\0' !in r && |r| < size
  {
    var raw := text[..FgetsLength(text, size)];
    var line := TrimLine(CString(raw));
    LineHasNoNewline(raw);
    line
  }

  lemma LineHasNoNewline(raw: string)
    requires raw != [] && '\n' !in raw[..|raw| - 1]
    ensures '\n' !in TrimLine(CString(raw)) && '\0' !in TrimLine(CString(raw))
  {
    var text := CString(raw);
    var line := TrimLine(text);
    if text != [] && text[|text| - 1] == '\n' {
      TrimDropsLast(text);
    }
    assert forall k | 0 <= k < |raw| - 1 :: raw[k] == raw[..|raw| - 1][k];
    assert forall k | 0 <= k < |line| :: line[k] == text[k] == raw[k];
  }

  lemma TrimDropsLast(s: string)
    requires s != [] && s[|s| - 1] == '\n'
    ensures |TrimLine(s)| < |s|
  {
    assert TrimLine(s) == TrimLine(s[..|s| - 1]);
  }

  /** A printed line that fits the buffer comes back exactly, and the rest is what follows it. */
  lemma PrintedLine(body: string, rest: string, size: nat)
    requires '\n' !in body && '\0' !in body && |body| + 2 <= size
    requires body == [] || body[|body| - 1] != '\r'
    ensures var text := body + ['\n'] + rest;
            && LineOf(text, size) == body
            && text[FgetsLength(text, size)..] == rest
  {
    var text := body + ['\n'] + rest;
    IndexOfCut(body, '\n', rest);
    var raw := text[..FgetsLength(text, size)];
    assert raw == body + ['\n'];
    IndexOfAbsent(raw, '\0');
    assert CString(raw) == raw;
    assert raw[..|raw| - 1] == body;
    assert TrimLine(raw) == TrimLine(body) == body;
  }

  // ---- numbers -------------------------------------------------------------------------------

  const DIGITS: string := "0123456789abcdef"

  function DigitChar(d: nat): (c: char)
    requires d < 16
  {
    DIGITS[d]
  }

  /** The value of one digit, or 99 for a char that is no digit in any base. */
  function DigitValue(c: char): (d: nat) {
    if '0' <= c <= '9' then (c - '0') as nat
    else if 'a' <= c <= 'f' then (c - 'a') as nat + 10
    else if 'A' <= c <= 'F' then (c - 'A') as nat + 10
    else 99
  }

  lemma DigitRoundTrip(d: nat)
    requires d < 16
    ensures DigitValue(DigitChar(d)) == d
    ensures '0' <= DigitChar(d) <= '9' || 'a' <= DigitChar(d) <= 'f'
    ensures d < 10 ==> '0' <= DigitChar(d) <= '9'
  {
    if d == 0 {} else if d == 1 {} else if d == 2 {} else if d == 3 {} else if d == 4 {}
    else if d == 5 {} else if d == 6 {} else if d == 7 {} else if d == 8 {} else {}
  }

  type Base = b: nat | b == 10 || b == 16 witness 10

  function Digits(n: nat, base: Base): (s: string)
    ensures s != []
  {
    if n < base then [DigitChar(n)] else Digits(n / base, base) + [DigitChar(n % base)]
  }

  /** %lld, %d */
  function Decimal(n: int): (s: string)
    ensures s != []
  {
    if n < 0 then "-" + Digits(-n, 10) else Digits(n, 10)
  }

  predicate AllDigits(s: string, base: Base) {
    forall k | 0 <= k < |s| :: DigitValue(s[k]) < base
  }

  function DigitRun(s: string, base: Base): (n: nat)
    ensures n <= |s| && AllDigits(s[..n], base)
    ensures n < |s| ==> DigitValue(s[n]) >= base
  {
    if s == [] || DigitValue(s[0]) >= base then 0 else
      var n := DigitRun(s[1..], base);
      assert s[..1 + n] == [s[0]] + s[1..][..n];
      1 + n
  }

  function Value(s: string, base: Base): nat {
    if s == [] then 0 else Value(s[..|s| - 1], base) * base + DigitValue(s[|s| - 1])
  }

  lemma {:induction false} DigitsValue(n: nat, base: Base)
    ensures AllDigits(Digits(n, base), base) && Value(Digits(n, base), base) == n
    ensures forall c <- Digits(n, base) :: '0' <= c <= '9' || 'a' <= c <= 'f'
    ensures base == 10 ==> forall c <- Digits(n, base) :: '0' <= c <= '9'
  {
    var s := Digits(n, base);
    if n < base {
      DigitRoundTrip(n);
      assert s[..|s| - 1] == [];
    } else {
      DigitsValue(n / base, base);
      DigitRoundTrip(n % base);
      assert s[..|s| - 1] == Digits(n / base, base);
    }
  }

  lemma {:induction false} DigitsLength(n: nat, base: Base, width: nat)
    requires 0 < width && n < Power(base, width)
    ensures |Digits(n, base)| <= width
  {
    if n >= base {
      DigitsLength(n / base, base, width - 1);
    }
  }

  function Power(base: Base, e: nat): nat {
    if e == 0 then 1 else base * Power(base, e - 1)
  }

  predicate Space(c: char) {
    c == ' ' || '\t' <= c <= '\r'
  }

  function SkipSpaces(s: string): (r: string)
    ensures |r| <= |s|
  {
    if s != [] && Space(s[0]) then SkipSpaces(s[1..]) else s
  }

  lemma NotSpaced(s: string)
    requires s != [] && !Space(s[0])
    ensures SkipSpaces(s) == s
  {}

  datatype Scan = NoNumber | Number(value: int, rest: string)

  function ScanMagnitude(s: string): Scan {
    var n := DigitRun(s, 10);
    if n == 0 then NoNumber else Number(Value(s[..n], 10), s[n..])
  }

  /** One %d conversion, or one strtol call: blanks, a sign, digits. */
  function ScanInt(s: string): Scan {
    var t := SkipSpaces(s);
    if t != [] && t[0] == '-' then Negated(ScanMagnitude(t[1..]))
    else if t != [] && t[0] == '+' then ScanMagnitude(t[1..])
    else ScanMagnitude(t)
  }

  function Negated(scan: Scan): Scan {
    if scan.NoNumber? then scan else Number(-scan.value, scan.rest)
  }

  function Saturated(v: int, low: int, high: int): (r: int)
    requires low <= high
    ensures low <= r <= high && (low <= v <= high ==> r == v)
  {
    if v < low then low else if v > high then high else v
  }

  const INT64_MIN: int := -0x8000_0000_0000_0000
  const INT64_MAX: int := 0x7fff_ffff_ffff_ffff
  const INT32_MIN: int := -0x8000_0000
  const INT32_MAX: int := 0x7fff_ffff
  const UINT64_MAX: int := 0xffff_ffff_ffff_ffff

  /** strtoll(s, 0, 10) */
  function Strtoll(s: string): (r: int)
    ensures INT64_MIN <= r <= INT64_MAX
  {
    match ScanInt(s)
    case NoNumber => 0
    case Number(v, _) => Saturated(v, INT64_MIN, INT64_MAX)
  }

  /** atoi, with the saturation of strtol on a 32-bit long. */
  function Atoi(s: string): (r: int)
    ensures INT32_MIN <= r <= INT32_MAX
  {
    match ScanInt(s)
    case NoNumber => 0
    case Number(v, _) => Saturated(v, INT32_MIN, INT32_MAX)
  }

  /** strtoull(s, 0, 16): an optional 0x is skipped, a minus sign wraps. */
  function StrtoullHex(s: string): (r: int)
    ensures 0 <= r <= UINT64_MAX
  {
    var t := SkipSpaces(s);
    if t != [] && t[0] == '-' then
      var v := HexMagnitude(t[1..]);
      if 0 < v <= UINT64_MAX then UINT64_MAX + 1 - v else Saturated(v, 0, UINT64_MAX)
    else if t != [] && t[0] == '+' then Saturated(HexMagnitude(t[1..]), 0, UINT64_MAX)
    else Saturated(HexMagnitude(t), 0, UINT64_MAX)
  }

  function HexMagnitude(s: string): (r: nat) {
    var prefixed := |s| > 2 && s[0] == '0' && (s[1] == 'x' || s[1] == 'X') && DigitValue(s[2]) < 16;
    var t := if prefixed then s[2..] else s;
    Value(t[..DigitRun(t, 16)], 16)
  }

  lemma {:induction false} DigitRunStops(digits: string, rest: string, base: Base)
    requires AllDigits(digits, base)
    requires rest == [] || DigitValue(rest[0]) >= base
    ensures DigitRun(digits + rest, base) == |digits|
    ensures (digits + rest)[..|digits|] == digits && (digits + rest)[|digits|..] == rest
  {
    var s := digits + rest;
    if digits == [] {
      assert s == rest;
    } else {
      DigitRunStops(digits[1..], rest, base);
      assert s[1..] == digits[1..] + rest;
    }
  }

  lemma MagnitudeScans(m: nat, rest: string)
    requires rest == [] || DigitValue(rest[0]) >= 10
    ensures ScanMagnitude(Digits(m, 10) + rest) == Number(m, rest)
  {
    DigitsValue(m, 10);
    DigitRunStops(Digits(m, 10), rest, 10);
  }

  /** Every printed integer is read back by %d, strtoll or atoi, wherever a non-digit follows it. */
  lemma DecimalScans(n: int, rest: string)
    requires rest == [] || DigitValue(rest[0]) >= 10
    ensures ScanInt(Decimal(n) + rest) == Number(n, rest)
  {
    var m: nat := if n < 0 then -n else n;
    MagnitudeScans(m, rest);
    DigitsValue(m, 10);
    assert Digits(m, 10)[0] in Digits(m, 10);
    SignScans(n, Digits(m, 10) + rest);
    assert "-" + Digits(m, 10) + rest == "-" + (Digits(m, 10) + rest);
  }

  lemma SignScans(n: int, t: string)
    requires t != [] && '0' <= t[0] <= '9'
    ensures ScanInt(if n < 0 then "-" + t else t) == if n < 0 then Negated(ScanMagnitude(t)) else ScanMagnitude(t)
  {
    var s := if n < 0 then "-" + t else t;
    NotSpaced(s);
    if n < 0 {
      assert s[1..] == t;
    }
  }

  lemma DecimalAlone(n: int)
    ensures ScanInt(Decimal(n)) == Number(n, "")
    ensures INT64_MIN <= n <= INT64_MAX ==> Strtoll(Decimal(n)) == n
    ensures INT32_MIN <= n <= INT32_MAX ==> Atoi(Decimal(n)) == n
  {
    DecimalScans(n, "");
    assert Decimal(n) + "" == Decimal(n);
  }

  /** %llx and strtoull base 16 are inverse on every 64-bit mask. */
  lemma HexScans(n: nat)
    requires n <= UINT64_MAX
    ensures StrtoullHex(Digits(n, 16)) == n
  {
    var s := Digits(n, 16);
    DigitsValue(n, 16);
    assert s[0] in s;
    NotSpaced(s);
    HexDigitsValue(n);
  }

  lemma HexDigitsValue(n: nat)
    ensures HexMagnitude(Digits(n, 16)) == n
  {
    var s := Digits(n, 16);
    DigitsValue(n, 16);
    assert |s| > 1 ==> s[1] in s;
    DigitRunStops(s, "", 16);
    assert s + "" == s;
    assert s[..|s|] == s;
  }

  lemma DecimalChars(n: int)
    ensures forall c <- Decimal(n) :: '0' <= c <= '9' || c == '-'
  {
    DigitsValue(if n < 0 then -n else n, 10);
  }

  lemma DecimalLength(n: int, width: nat)
    requires 0 < width && n < Power(10, width) && -n < Power(10, width)
    ensures |Decimal(n)| <= width + 1
  {
    DigitsLength(if n < 0 then -n else n, 10, width);
  }
}
