/** jsonEscape, against a decoder for the strings of section 7 of RFC 8259. */
module JsonText {
  import opened CText

  function EscapedByte(c: char): string {
    if c == '"' || c == '\\' then ['\\', c]
    else if c == '\n' then "\\n"
    else if c == '\r' then "\\r"
    else if c == '\t' then "\\t"
    else if c < ' ' then "\\u00" + [DigitChar(c as nat / 16), DigitChar(c as nat % 16)]
    else [c]
  }

  function EscapedBody(value: string): string {
    if value == "" then "" else EscapedByte(value[0]) + EscapedBody(value[1..])
  }

  lemma EscapedStep(output: string, text: string, p: nat)
    requires p < |text|
    ensures output + EscapedBody(text[p..]) == output + EscapedByte(text[p]) + EscapedBody(text[p + 1..])
  {
    assert text[p..][1..] == text[p + 1..];
    assert output + (EscapedByte(text[p]) + EscapedBody(text[p + 1..]))
        == output + EscapedByte(text[p]) + EscapedBody(text[p + 1..]);
  }

  /** One turn of the loop: what it puts out for a byte. */
  method PutEscaped(output: string, c: char) returns (longer: string)
    ensures longer == output + EscapedByte(c)
  {
    if c == '"' || c == '\\' {
      longer := output + ['\\', c];
    } else if c == '\n' {
      longer := output + "\\n";
    } else if c == '\r' {
      longer := output + "\\r";
    } else if c == '\t' {
      longer := output + "\\t";
    } else if c < ' ' {
      longer := output + ("\\u00" + [DigitChar(c as nat / 16), DigitChar(c as nat % 16)]);
    } else {
      longer := output + [c];
    }
  }

  /** The loop of jsonEscape; the value is a C string, so it ends at its first NUL byte. */
  method JsonEscape(value: string) returns (output: string)
    ensures output == "\"" + EscapedBody(CString(value)) + "\""
  {
    hide EscapedByte;
    output := "\"";
    var p := 0;
    ghost var text := CString(value);
    while p < |value| && value[p] != '\0'
      invariant p <= |text| && text <= value && (|text| < |value| ==> value[|text|] == '\0')
      invariant "\"" + EscapedBody(text) == output + EscapedBody(text[p..])
    {
      EscapedStep(output, text, p);
      output := PutEscaped(output, value[p]);
      p := p + 1;
    }
    assert EscapedBody(text[p..]) == "";
    output := output + "\"";
  }

  // ---- the decoder -----------------------------------------------------------------------------

  /** UTF-8 of a code point below 0x10000; a lone surrogate has none. */
  function Utf8(point: nat): Option<string>
    requires point < 0x1_0000
  {
    if point < 0x80 then Some([point as char])
    else if point < 0x800 then Some([(0xc0 + point / 64) as char, (0x80 + point % 64) as char])
    else if 0xd800 <= point < 0xe000 then None
    else Some([(0xe0 + point / 4096) as char, (0x80 + point / 64 % 64) as char, (0x80 + point % 64) as char])
  }

  function SimpleEscape(c: char): Option<char> {
    match c
    case '"' => Some('"')
    case '\\' => Some('\\')
    case '/' => Some('/')
    case 'b' => Some(8 as char)
    case 'f' => Some(12 as char)
    case 'n' => Some('\n')
    case 'r' => Some('\r')
    case 't' => Some('\t')
    case _ => None
  }

  function Prefixed(first: string, rest: Option<string>): Option<string> {
    match rest
    case None => None
    case Some(s) => Some(first + s)
  }

  /** Everything after the opening quote: the text ends at its first unescaped quote, which is also its last byte. */
  function DecodedBody(s: string): Option<string> {
    if s == "" then None
    else if s[0] == '"' then if |s| == 1 then Some("") else None
    else if s[0] < ' ' then None
    else if s[0] != '\\' then Prefixed([s[0]], DecodedBody(s[1..]))
    else if |s| < 2 then None
    else if s[1] == 'u' then
      if |s| < 6 || !AllDigits(s[2..6], 16) then None else
      var point := Value(s[2..6], 16);
      FourDigits(s[2..6]);
      match Utf8(point)
      case None => None
      case Some(bytes) => Prefixed(bytes, DecodedBody(s[6..]))
    else
      match SimpleEscape(s[1])
      case None => None
      case Some(c) => Prefixed([c], DecodedBody(s[2..]))
  }

  function Decoded(token: string): Option<string> {
    if token == "" || token[0] != '"' then None else DecodedBody(token[1..])
  }

  lemma FourDigits(s: string)
    requires |s| == 4 && AllDigits(s, 16)
    ensures Value(s, 16) == ((DigitValue(s[0]) * 16 + DigitValue(s[1])) * 16 + DigitValue(s[2])) * 16 + DigitValue(s[3])
    ensures Value(s, 16) < 0x1_0000
  {
    var a, b, c := s[..3], s[..2], s[..1];
    assert a[..2] == b && b[..1] == c && c[..0] == "";
    assert Value(c, 16) == DigitValue(s[0]);
    assert Value(b, 16) == DigitValue(s[0]) * 16 + DigitValue(s[1]);
    assert Value(a, 16) == (DigitValue(s[0]) * 16 + DigitValue(s[1])) * 16 + DigitValue(s[2]);
  }

  /** The value of the four digits of an escaped control character. */
  lemma ControlDigits(c: char)
    requires c < ' '
    ensures var s := ['0', '0', DigitChar(c as nat / 16), DigitChar(c as nat % 16)];
            AllDigits(s, 16) && Value(s, 16) == c as nat
  {
    DigitRoundTrip(c as nat / 16);
    DigitRoundTrip(c as nat % 16);
    FourDigits(['0', '0', DigitChar(c as nat / 16), DigitChar(c as nat % 16)]);
  }

  lemma ControlDecodes(c: char, rest: string)
    requires c < ' '
    ensures DecodedBody("\\u00" + [DigitChar(c as nat / 16), DigitChar(c as nat % 16)] + rest)
            == Prefixed([c], DecodedBody(rest))
  {
    hide AllDigits, Value, DigitChar;
    var h, l := DigitChar(c as nat / 16), DigitChar(c as nat % 16);
    var s := "\\u00" + [h, l] + rest;
    ControlDigits(c);
    assert s[2..6] == ['0', '0', h, l];
    assert s[6..] == rest;
  }

  lemma ByteDecodes(c: char, rest: string)
    ensures DecodedBody(EscapedByte(c) + rest) == Prefixed([c], DecodedBody(rest))
  {
    var s := EscapedByte(c) + rest;
    if c < ' ' && c != '\n' && c != '\r' && c != '\t' {
      ControlDecodes(c, rest);
    } else if s[0] == '\\' {
      assert s[2..] == rest;
    } else {
      assert s[1..] == rest;
    }
  }

  /** Decoding what jsonEscape wrote gives the text back, for every byte string. */
  lemma {:induction false} JsonRoundTrip(value: string)
    ensures DecodedBody(EscapedBody(value) + "\"") == Some(value)
    ensures Decoded("\"" + EscapedBody(value) + "\"") == Some(value)
  {
    var token := "\"" + EscapedBody(value) + "\"";
    assert token[1..] == EscapedBody(value) + "\"";
    if value != "" {
      var rest := EscapedBody(value[1..]) + "\"";
      JsonRoundTrip(value[1..]);
      ByteDecodes(value[0], rest);
      assert EscapedBody(value) + "\"" == EscapedByte(value[0]) + rest;
      assert value == [value[0]] + value[1..];
    }
  }

  /** Where a scanner that skips escaped bytes finds the closing quote, counted from the start of the body. */
  function ClosingQuote(s: string): nat {
    if s == "" || s[0] == '"' then 0
    else if s[0] == '\\' && |s| >= 2 then 2 + ClosingQuote(s[2..])
    else 1 + ClosingQuote(s[1..])
  }

  /** No control byte is left raw, and no quote inside the string is left unescaped. */
  lemma {:induction false} EscapedIsClean(value: string)
    ensures forall c <- EscapedBody(value) :: c >= ' '
    ensures ClosingQuote(EscapedBody(value) + "\"") == |EscapedBody(value)|
  {
    if value != "" {
      var rest := EscapedBody(value[1..]) + "\"";
      EscapedIsClean(value[1..]);
      ByteIsSkipped(value[0], rest);
      assert EscapedBody(value) + "\"" == EscapedByte(value[0]) + rest;
    }
  }

  lemma {:induction false} PlainIsSkipped(plain: string, rest: string)
    requires '"' !in plain && '\\' !in plain
    ensures ClosingQuote(plain + rest) == |plain| + ClosingQuote(rest)
  {
    if plain == "" {
      assert plain + rest == rest;
    } else {
      PlainIsSkipped(plain[1..], rest);
      assert (plain + rest)[1..] == plain[1..] + rest;
    }
  }

  lemma ControlIsPlain(c: char)
    requires c < ' '
    ensures var s := "u00" + [DigitChar(c as nat / 16), DigitChar(c as nat % 16)];
            '"' !in s && '\\' !in s && forall x <- s :: x >= ' '
  {
    DigitRoundTrip(c as nat / 16);
    DigitRoundTrip(c as nat % 16);
  }

  lemma ByteIsSkipped(c: char, rest: string)
    ensures forall x <- EscapedByte(c) :: x >= ' '
    ensures ClosingQuote(EscapedByte(c) + rest) == |EscapedByte(c)| + ClosingQuote(rest)
  {
    var e := EscapedByte(c);
    if |e| > 2 {
      ControlIsPlain(c);
      assert e == "\\" + ("u00" + [DigitChar(c as nat / 16), DigitChar(c as nat % 16)]);
      EscapeIsSkipped(e, rest);
    } else if |e| == 2 {
      EscapeIsSkipped(e, rest);
    } else {
      PlainIsSkipped(e, rest);
    }
  }

  lemma EscapeIsSkipped(e: string, rest: string)
    requires |e| >= 2 && e[0] == '\\' && '"' !in e[2..] && '\\' !in e[2..]
    ensures ClosingQuote(e + rest) == |e| + ClosingQuote(rest)
  {
    assert (e + rest)[2..] == e[2..] + rest;
    PlainIsSkipped(e[2..], rest);
  }
}
