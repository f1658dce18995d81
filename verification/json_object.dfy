/** Flat JSON objects of texts, numbers and truth values: how the sidecar prints one, and a reader by sections 2 to 7
    of RFC 8259. */
module JsonObject {
  import opened CText
  import opened JsonText

  datatype JsonValue = Text(text: string) | Number(number: int) | Truth(truth: bool)
  datatype Member = Member(key: string, value: JsonValue)

  // ---- printing ------------------------------------------------------------------------------

  function PrintedValue(v: JsonValue): (s: string)
    ensures s != ""
  {
    match v
    case Text(text) => "\"" + EscapedBody(text) + "\""
    case Number(n) => Decimal(n)
    case Truth(b) => if b then "true" else "false"
  }

  function PrintedMember(m: Member): string {
    "\n  \"" + m.key + "\":" + PrintedValue(m.value)
  }

  function PrintedMembers(members: seq<Member>): string {
    if members == [] then ""
    else if |members| == 1 then PrintedMember(members[0])
    else PrintedMember(members[0]) + "," + PrintedMembers(members[1..])
  }

  function PrintedObject(members: seq<Member>): string {
    "{" + PrintedMembers(members) + "\n}\n"
  }

  // ---- reading -------------------------------------------------------------------------------

  datatype Reading<T> = Failed | Got(value: T, rest: string)

  predicate White(c: char) {
    c == ' ' || c == '\n' || c == '\r' || c == '\t'
  }

  function SkipWhite(s: string): (r: string)
    ensures |r| <= |s| && (r == "" || !White(r[0]))
  {
    if s != "" && White(s[0]) then SkipWhite(s[1..]) else s
  }

  function ReadText(s: string): (r: Reading<string>)
    ensures r.Got? ==> |r.rest| < |s|
  {
    if s == "" || s[0] != '"' then Failed else
    var n := ClosingQuote(s[1..]);
    if 1 + n >= |s| then Failed else
    match DecodedBody(s[1..n + 2])
    case None => Failed
    case Some(text) => Got(text, s[n + 2..])
  }

  /** An integer without a leading zero, with a minus sign if it is negative. */
  function ReadNumber(s: string): (r: Reading<int>)
    ensures r.Got? ==> |r.rest| < |s|
  {
    var negative := s != "" && s[0] == '-';
    var t := if negative then s[1..] else s;
    var n := DigitRun(t, 10);
    if n == 0 || (n > 1 && t[0] == '0') then Failed else
    var magnitude: int := Value(t[..n], 10);
    Got(if negative then -magnitude else magnitude, t[n..])
  }

  function ReadValue(s: string): (r: Reading<JsonValue>)
    ensures r.Got? ==> |r.rest| < |s|
  {
    if StartsWith(s, "\"") then
      match ReadText(s)
      case Failed => Failed
      case Got(text, rest) => Got(Text(text), rest)
    else if StartsWith(s, "true") then Got(Truth(true), s[4..])
    else if StartsWith(s, "false") then Got(Truth(false), s[5..])
    else
      match ReadNumber(s)
      case Failed => Failed
      case Got(n, rest) => Got(JsonValue.Number(n), rest)
  }

  function ReadMember(s: string): (r: Reading<Member>)
    ensures r.Got? ==> |r.rest| < |s|
  {
    match ReadText(SkipWhite(s))
    case Failed => Failed
    case Got(key, afterKey) =>
      var colon := SkipWhite(afterKey);
      if colon == "" || colon[0] != ':' then Failed else
      match ReadValue(SkipWhite(colon[1..]))
      case Failed => Failed
      case Got(value, rest) => Got(Member(key, value), rest)
  }

  /** The members up to and including the closing brace. */
  function ReadMembers(s: string): (r: Reading<seq<Member>>)
    decreases |s|
  {
    match ReadMember(s)
    case Failed => Failed
    case Got(m, rest) =>
      var next := SkipWhite(rest);
      if next == "" then Failed
      else if next[0] == '}' then Got([m], next[1..])
      else if next[0] != ',' then Failed
      else
        match ReadMembers(next[1..])
        case Failed => Failed
        case Got(more, end) => Got([m] + more, end)
  }

  function ReadObject(s: string): Option<seq<Member>> {
    var open := SkipWhite(s);
    if open == "" || open[0] != '{' then None else
    var first := SkipWhite(open[1..]);
    if first != "" && first[0] == '}' then (if SkipWhite(first[1..]) == "" then Some([]) else None) else
    match ReadMembers(open[1..])
    case Failed => None
    case Got(members, rest) => if SkipWhite(rest) == "" then Some(members) else None
  }

  // ---- the round trip --------------------------------------------------------------------------

  lemma {:induction false} QuoteCloses(value: string, rest: string)
    ensures ClosingQuote(EscapedBody(value) + "\"" + rest) == |EscapedBody(value)|
  {
    hide EscapedByte;
    if value == "" {
      assert EscapedBody(value) + "\"" + rest == "\"" + rest;
    } else {
      var tail := EscapedBody(value[1..]) + "\"" + rest;
      QuoteCloses(value[1..], rest);
      ByteIsSkipped(value[0], tail);
      assert EscapedBody(value) + "\"" + rest == EscapedByte(value[0]) + tail;
    }
  }

  lemma TextReads(value: string, rest: string)
    ensures ReadText("\"" + EscapedBody(value) + "\"" + rest) == Got(value, rest)
  {
    hide EscapedBody, ClosingQuote, DecodedBody;
    var body := EscapedBody(value);
    var s := "\"" + body + "\"" + rest;
    QuoteCloses(value, rest);
    JsonRoundTrip(value);
    assert s[1..] == body + "\"" + rest;
    assert s[1..|body| + 2] == body + "\"";
    assert s[|body| + 2..] == rest;
  }

  lemma {:induction false} NoLeadingZero(n: nat)
    ensures var s := Digits(n, 10); |s| > 1 ==> s[0] != '0'
  {
    if n >= 10 {
      NoLeadingZero(n / 10);
      DigitRoundTrip(n / 10 % 10);
      if n / 10 < 10 {
        DigitRoundTrip(n / 10);
      }
    }
  }

  lemma DigitsRead(m: nat, rest: string)
    requires rest == "" || DigitValue(rest[0]) >= 10
    ensures var t, n := Digits(m, 10) + rest, |Digits(m, 10)|;
            && DigitRun(t, 10) == n && Value(t[..n], 10) == m && t[n..] == rest
            && '0' <= t[0] <= '9' && (n > 1 ==> t[0] != '0')
  {
    DigitsValue(m, 10);
    NoLeadingZero(m);
    DigitRunStops(Digits(m, 10), rest, 10);
    assert Digits(m, 10)[0] in Digits(m, 10);
    hide Digits, DigitRun, Value;
  }

  lemma NumberReads(n: int, rest: string)
    requires rest == "" || DigitValue(rest[0]) >= 10
    ensures ReadNumber(Decimal(n) + rest) == Got(n, rest)
  {
    hide Digits, DigitRun, Value, DigitValue;
    if n < 0 {
      DigitsRead(-n, rest);
      assert Decimal(n) + rest == "-" + (Digits(-n, 10) + rest);
      assert ("-" + (Digits(-n, 10) + rest))[1..] == Digits(-n, 10) + rest;
    } else {
      DigitsRead(n, rest);
    }
  }

  lemma ValueReads(v: JsonValue, rest: string)
    requires rest != "" && (rest[0] == ',' || rest[0] == '\n')
    ensures ReadValue(PrintedValue(v) + rest) == Got(v, rest)
    ensures !White(PrintedValue(v)[0])
  {
    hide EscapedBody, ReadText, ReadNumber, Decimal;
    var s := PrintedValue(v) + rest;
    match v
    case Text(text) =>
      TextReads(text, rest);
    case Number(n) =>
      NumberReads(n, rest);
      DecimalChars(n);
      assert s[0] == Decimal(n)[0] && Decimal(n)[0] in Decimal(n);
    case Truth(b) =>
      assert s[..4] == (if b then "true" else "fals");
      assert !b ==> s[..5] == "false";
      assert s[|PrintedValue(v)|..] == rest;
  }

  /** Keys that are printed as they are. */
  predicate PlainKey(key: string) {
    forall i | 0 <= i < |key| :: key[i] >= ' ' && key[i] != '"' && key[i] != '\\'
  }

  predicate PlainKeys(members: seq<Member>) {
    forall i | 0 <= i < |members| :: PlainKey(members[i].key)
  }

  lemma {:induction false} PlainKeyIsItself(key: string)
    requires PlainKey(key)
    ensures EscapedBody(key) == key
  {
    if key != "" {
      PlainKeyIsItself(key[1..]);
      assert EscapedByte(key[0]) == [key[0]];
      hide EscapedByte;
      assert key == [key[0]] + key[1..];
    }
  }

  lemma IndentSkipped(text: string)
    requires text != "" && !White(text[0])
    ensures SkipWhite("\n  " + text) == text
  {
    assert ("\n  " + text)[1..] == "  " + text;
    assert ("  " + text)[1..] == " " + text;
    assert (" " + text)[1..] == text;
    assert SkipWhite(text) == text;
    assert SkipWhite(" " + text) == text;
    assert SkipWhite("  " + text) == text;
  }

  lemma MemberReads(m: Member, rest: string)
    requires PlainKey(m.key) && rest != "" && (rest[0] == ',' || rest[0] == '\n')
    ensures ReadMember(PrintedMember(m) + rest) == Got(m, rest)
  {
    hide PrintedValue, ReadText, ReadValue, EscapedBody;
    var value := PrintedValue(m.value) + rest;
    var s := PrintedMember(m) + rest;
    PlainKeyIsItself(m.key);
    TextReads(m.key, ":" + value);
    ValueReads(m.value, rest);
    var text := "\"" + m.key + "\"" + (":" + value);
    assert s == "\n  " + text;
    IndentSkipped(text);
    assert (":" + value)[1..] == value;
  }

  lemma LastMemberReads(m: Member, rest: string)
    requires PlainKey(m.key)
    ensures ReadMembers(PrintedMember(m) + ("\n}" + rest)) == Got([m], rest)
  {
    hide PrintedMember, ReadMember;
    var end := "\n}" + rest;
    MemberReads(m, end);
    assert end[1..] == "}" + rest;
    assert SkipWhite(end) == "}" + rest;
    assert ("}" + rest)[1..] == rest;
  }

  lemma FirstMemberReads(m: Member, tail: string)
    requires PlainKey(m.key) && ReadMembers(tail).Got?
    ensures ReadMembers(PrintedMember(m) + ("," + tail)) == Got([m] + ReadMembers(tail).value, ReadMembers(tail).rest)
  {
    hide PrintedMember, ReadMember;
    MemberReads(m, "," + tail);
    assert ("," + tail)[1..] == tail;
  }

  lemma {:induction false} MembersRead(members: seq<Member>, rest: string)
    requires members != [] && PlainKeys(members)
    ensures ReadMembers(PrintedMembers(members) + ("\n}" + rest)) == Got(members, rest)
    decreases |members|
  {
    hide PrintedMember, ReadMembers, PlainKey;
    var end := "\n}" + rest;
    if |members| == 1 {
      LastMemberReads(members[0], rest);
      assert members == [members[0]];
    } else {
      var tail := PrintedMembers(members[1..]) + end;
      MembersRead(members[1..], rest);
      FirstMemberReads(members[0], tail);
      assert PrintedMembers(members) + end == PrintedMember(members[0]) + ("," + tail);
      assert members == [members[0]] + members[1..];
    }
  }

  /** Reading a printed object gives back its members, in order. */
  lemma ObjectRoundTrip(members: seq<Member>)
    requires members != [] && PlainKeys(members)
    ensures ReadObject(PrintedObject(members)) == Some(members)
  {
    hide PrintedMembers, ReadMembers, PlainKey;
    var s := PrintedObject(members);
    assert s[1..] == PrintedMembers(members) + ("\n}" + "\n");
    MembersRead(members, "\n");
    FirstIsNoBrace(members);
    assert SkipWhite("\n") == "" by {
      assert "\n"[1..] == "";
    }
  }

  lemma FirstIsNoBrace(members: seq<Member>)
    requires members != []
    ensures var s := SkipWhite(PrintedMembers(members) + ("\n}" + "\n")); s != "" && s[0] == '"'
  {
    hide PrintedValue, SkipWhite;
    var s := PrintedMembers(members) + ("\n}" + "\n");
    assert s == "\n  " + s[3..] && s[3] == '"';
    IndentSkipped(s[3..]);
  }
}
