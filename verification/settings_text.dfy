/** The settings file: the lines saveSettings prints and what loadSettings makes of any text. */
module SettingsText {
  import opened CText
  import opened PresetCatalog
  import opened RecentLine

  const SETTINGS_LINE_BUFFER: nat := 256

  datatype Adjustment = Adjustment(contrast: int, grain: int, motion: int)
  const NO_ADJUSTMENT: Adjustment := Adjustment(0, 0, 0)

  /** RuntimeSettings. The recent array and its count are one sequence: entries past the count are zero. */
  datatype RuntimeSettings = RuntimeSettings(
    selectedPreset: PresetNumber, intensity: int, favoritesLo: int, favoritesHi: int,
    recent: seq<PresetNumber>, adjustments: seq<Adjustment>, motion: int, diagnostics: bool)

  function Defaults(): RuntimeSettings {
    RuntimeSettings(0, 100, 0, 0, [], seq(PRESET_COUNT, _ => NO_ADJUSTMENT), 2, false)
  }

  predicate InRange(a: Adjustment) {
    -40 <= a.contrast <= 40 && -20 <= a.grain <= 20 && -30 <= a.motion <= 30
  }

  /** What the loader guarantees of any file: ranges, but not distinct recents. */
  ghost predicate Bounded(s: RuntimeSettings) {
    && 0 <= s.intensity <= 100 && 0 <= s.motion <= 2
    && 0 <= s.favoritesLo <= UINT64_MAX && 0 <= s.favoritesHi <= UINT64_MAX
    && |s.recent| <= MAX_RECENT
    && |s.adjustments| == PRESET_COUNT && forall i | 0 <= i < PRESET_COUNT :: InRange(s.adjustments[i])
  }

  ghost predicate WellFormed(s: RuntimeSettings) {
    Bounded(s) && Distinct(s.recent)
  }

  // ---- printing ------------------------------------------------------------------------------

  function AdjustLine(preset: PresetNumber, a: Adjustment): string {
    "adjust=" + PresetId(preset) + "," + Decimal(a.contrast) + "," + Decimal(a.grain) + "," + Decimal(a.motion)
  }

  function AdjustLines(adjustments: seq<Adjustment>, from: nat): seq<string>
    requires |adjustments| == PRESET_COUNT && from <= PRESET_COUNT
    decreases PRESET_COUNT - from
  {
    if from == PRESET_COUNT then [] else
    (if adjustments[from] != NO_ADJUSTMENT then [AdjustLine(from, adjustments[from])] else []) +
    AdjustLines(adjustments, from + 1)
  }

  function HeadLines(s: RuntimeSettings): (lines: seq<string>)
    requires 0 <= s.favoritesLo && 0 <= s.favoritesHi
    ensures |lines| == 8
  {
    ["version=2",
     "preset=" + PresetId(s.selectedPreset),
     "intensity=" + Decimal(s.intensity),
     "favorites_lo=" + Digits(s.favoritesLo, 16),
     "favorites_hi=" + Digits(s.favoritesHi, 16),
     "motion=" + Decimal(s.motion),
     "diagnostics=" + (if s.diagnostics then "1" else "0"),
     "recent=" + Joined(s.recent)]
  }

  function Printed(lines: seq<string>): string {
    if lines == [] then "" else lines[0] + ['\n'] + Printed(lines[1..])
  }

  function SettingsFile(s: RuntimeSettings): string
    requires 0 <= s.favoritesLo && 0 <= s.favoritesHi && |s.adjustments| == PRESET_COUNT
  {
    Printed(HeadLines(s) + AdjustLines(s.adjustments, 0))
  }

  // ---- parsing -------------------------------------------------------------------------------

  /** The loop over the comma-separated ids; an unknown id becomes preset 0, ids past the twelfth are dropped. */
  function ReadRecent(cursor: string, recent: seq<PresetNumber>): (r: seq<PresetNumber>)
    ensures |recent| <= MAX_RECENT ==> |r| <= MAX_RECENT
    decreases |cursor|
  {
    if cursor == "" || |recent| >= MAX_RECENT then recent else
    match CutAt(cursor, ',')
    case Uncut => recent + [PresetIndex(cursor)]
    case Cut(id, rest) => ReadRecent(rest, recent + [PresetIndex(id)])
  }

  datatype ScannedRow = NoRow | Row(id: string, adjustment: Adjustment)

  /** A comma and then a %d. */
  function ScanField(s: string): Scan {
    if s == "" || s[0] != ',' then NoNumber else ScanInt(s[1..])
  }

  /** sscanf with "%63[^,],%d,%d,%d" */
  function ScanRow(s: string): ScannedRow {
    var comma := IndexOf(s, ',');
    var n := if comma < 63 then comma else 63;
    if n == 0 then NoRow else
    match ScanField(s[n..])
    case NoNumber => NoRow
    case Number(contrast, afterContrast) =>
      match ScanField(afterContrast)
      case NoNumber => NoRow
      case Number(grain, afterGrain) =>
        match ScanField(afterGrain)
        case NoNumber => NoRow
        case Number(motion, _) => Row(s[..n], Adjustment(contrast, grain, motion))
  }

  function Clamped(a: Adjustment): (r: Adjustment)
    ensures InRange(r) && (InRange(a) ==> r == a)
  {
    Adjustment(Saturated(a.contrast, -40, 40), Saturated(a.grain, -20, 20), Saturated(a.motion, -30, 30))
  }

  function ReadRow(s: RuntimeSettings, text: string): RuntimeSettings
    requires |s.adjustments| == PRESET_COUNT
  {
    match ScanRow(text)
    case NoRow => s
    case Row(id, a) => s.(adjustments := s.adjustments[PresetIndex(id) := Clamped(a)])
  }

  /** One line of loadSettings: the first key that matches takes it, any other line is ignored. */
  function ReadLine(s: RuntimeSettings, line: string): (r: RuntimeSettings)
    requires |s.adjustments| == PRESET_COUNT
    ensures |r.adjustments| == PRESET_COUNT
  {
    if StartsWith(line, "preset=") then s.(selectedPreset := PresetIndex(line[7..]))
    else if StartsWith(line, "intensity=") then s.(intensity := Atoi(line[10..]))
    else if StartsWith(line, "favorites_lo=") then s.(favoritesLo := StrtoullHex(line[13..]))
    else if StartsWith(line, "favorites_hi=") then s.(favoritesHi := StrtoullHex(line[13..]))
    else if StartsWith(line, "motion=") then s.(motion := Atoi(line[7..]))
    else if StartsWith(line, "diagnostics=") then s.(diagnostics := Atoi(line[12..]) != 0)
    else if StartsWith(line, "recent=") then s.(recent := ReadRecent(line[7..], s.recent))
    else if StartsWith(line, "adjust=") then ReadRow(s, line[7..])
    else s
  }

  function ReadLines(s: RuntimeSettings, text: string): (r: RuntimeSettings)
    requires |s.adjustments| == PRESET_COUNT
    ensures |r.adjustments| == PRESET_COUNT
    decreases |text|
  {
    if text == "" then s else
    ReadLines(ReadLine(s, LineOf(text, SETTINGS_LINE_BUFFER)), text[FgetsLength(text, SETTINGS_LINE_BUFFER)..])
  }

  /** The two checks after the loop. */
  function Checked(s: RuntimeSettings): RuntimeSettings {
    var t := if 0 <= s.intensity <= 100 then s else s.(intensity := 100);
    if 0 <= t.motion <= 2 then t else t.(motion := 2)
  }

  function Loaded(text: string): RuntimeSettings {
    Checked(ReadLines(Defaults(), text))
  }

  // ---- any file gives settings in range --------------------------------------------------------

  ghost predicate PartlyBounded(s: RuntimeSettings) {
    Bounded(s.(intensity := 100, motion := 2))
  }

  lemma {:induction false} ReadLinesBounded(s: RuntimeSettings, text: string)
    requires PartlyBounded(s)
    ensures PartlyBounded(ReadLines(s, text))
    decreases |text|
  {
    hide LineOf, FgetsLength, ScanRow, ReadRecent, PresetIndex, StrtoullHex, Atoi, StartsWith, Clamped;
    if text != "" {
      ReadLinesBounded(ReadLine(s, LineOf(text, SETTINGS_LINE_BUFFER)),
                       text[FgetsLength(text, SETTINGS_LINE_BUFFER)..]);
    }
  }

  /** Whatever the file holds, every loaded value is in range. */
  lemma LoadedIsBounded(text: string)
    ensures Bounded(Loaded(text))
  {
    ReadLinesBounded(Defaults(), text);
  }

  // ---- the round trip --------------------------------------------------------------------------

  /** A line loadSettings reads back whole. */
  ghost predicate Readable(line: string) {
    && '\n' !in line && '\0' !in line && |line| + 2 <= SETTINGS_LINE_BUFFER
    && (line == "" || line[|line| - 1] != '\r')
  }

  function ReadAll(s: RuntimeSettings, lines: seq<string>): (r: RuntimeSettings)
    requires |s.adjustments| == PRESET_COUNT
    ensures |r.adjustments| == PRESET_COUNT
    decreases |lines|
  {
    if lines == [] then s else ReadAll(ReadLine(s, lines[0]), lines[1..])
  }

  lemma ReadFirst(s: RuntimeSettings, line: string, rest: string)
    requires |s.adjustments| == PRESET_COUNT && Readable(line)
    ensures ReadLines(s, line + ['\n'] + rest) == ReadLines(ReadLine(s, line), rest)
  {
    hide LineOf, FgetsLength, ReadLine;
    PrintedLine(line, rest, SETTINGS_LINE_BUFFER);
  }

  lemma {:induction false} PrintedLinesRead(s: RuntimeSettings, lines: seq<string>, rest: string)
    requires |s.adjustments| == PRESET_COUNT && forall line <- lines :: Readable(line)
    ensures ReadLines(s, Printed(lines) + rest) == ReadLines(ReadAll(s, lines), rest)
    decreases |lines|
  {
    hide ReadLine, ReadLines, Readable;
    if lines == [] {
      assert Printed(lines) + rest == rest;
    } else {
      assert lines[0] in lines;
      ReadFirst(s, lines[0], Printed(lines[1..]) + rest);
      PrintedLinesRead(ReadLine(s, lines[0]), lines[1..], rest);
      assert Printed(lines) + rest == lines[0] + ['\n'] + (Printed(lines[1..]) + rest);
    }
  }

  lemma KeyDiffers(line: string, key: string, k: nat)
    requires k < |key| && k < |line| && line[k] != key[k]
    ensures !StartsWith(line, key)
  {
    assert |key| <= |line| ==> line[..|key|][k] == line[k];
  }

  lemma KeyMatches(key: string, value: string)
    ensures StartsWith(key + value, key) && (key + value)[|key|..] == value
  {
    assert (key + value)[..|key|] == key;
  }

  lemma PresetLine(t: RuntimeSettings, p: PresetNumber)
    requires |t.adjustments| == PRESET_COUNT
    ensures ReadLine(t, "preset=" + PresetId(p)) == t.(selectedPreset := p)
  {
    hide PresetId, PresetIndex;
    KeyMatches("preset=", PresetId(p));
    LookupInverts(p);
  }

  lemma IntensityLine(t: RuntimeSettings, n: int)
    requires |t.adjustments| == PRESET_COUNT && 0 <= n <= 100
    ensures ReadLine(t, "intensity=" + Decimal(n)) == t.(intensity := n)
  {
    hide StartsWith, Decimal;
    var line := "intensity=" + Decimal(n);
    KeyDiffers(line, "preset=", 0);
    KeyMatches("intensity=", Decimal(n));
    DecimalAlone(n);
  }

  lemma FavoritesLoLine(t: RuntimeSettings, n: nat)
    requires |t.adjustments| == PRESET_COUNT && n <= UINT64_MAX
    ensures ReadLine(t, "favorites_lo=" + Digits(n, 16)) == t.(favoritesLo := n)
  {
    hide StartsWith, Digits, StrtoullHex;
    var line := "favorites_lo=" + Digits(n, 16);
    KeyDiffers(line, "preset=", 0);
    KeyDiffers(line, "intensity=", 0);
    KeyMatches("favorites_lo=", Digits(n, 16));
    HexScans(n);
  }

  lemma FavoritesHiLine(t: RuntimeSettings, n: nat)
    requires |t.adjustments| == PRESET_COUNT && n <= UINT64_MAX
    ensures ReadLine(t, "favorites_hi=" + Digits(n, 16)) == t.(favoritesHi := n)
  {
    hide StartsWith, Digits, StrtoullHex;
    var line := "favorites_hi=" + Digits(n, 16);
    KeyDiffers(line, "preset=", 0);
    KeyDiffers(line, "intensity=", 0);
    KeyDiffers(line, "favorites_lo=", 10);
    KeyMatches("favorites_hi=", Digits(n, 16));
    HexScans(n);
  }

  lemma MotionLine(t: RuntimeSettings, n: int)
    requires |t.adjustments| == PRESET_COUNT && 0 <= n <= 2
    ensures ReadLine(t, "motion=" + Decimal(n)) == t.(motion := n)
  {
    hide StartsWith, Decimal;
    var line := "motion=" + Decimal(n);
    KeyDiffers(line, "preset=", 0);
    KeyDiffers(line, "intensity=", 0);
    KeyDiffers(line, "favorites_lo=", 0);
    KeyDiffers(line, "favorites_hi=", 0);
    KeyMatches("motion=", Decimal(n));
    DecimalAlone(n);
  }

  lemma OtherKeys(line: string)
    requires line != "" && line[0] in "dra"
    ensures !StartsWith(line, "preset=") && !StartsWith(line, "intensity=") && !StartsWith(line, "favorites_lo=")
    ensures !StartsWith(line, "favorites_hi=") && !StartsWith(line, "motion=")
  {
    KeyDiffers(line, "preset=", 0);
    KeyDiffers(line, "intensity=", 0);
    KeyDiffers(line, "favorites_lo=", 0);
    KeyDiffers(line, "favorites_hi=", 0);
    KeyDiffers(line, "motion=", 0);
  }

  lemma DiagnosticsLine(t: RuntimeSettings, on: bool)
    requires |t.adjustments| == PRESET_COUNT
    ensures ReadLine(t, "diagnostics=" + (if on then "1" else "0")) == t.(diagnostics := on)
  {
    hide StartsWith;
    var value := if on then "1" else "0";
    OtherKeys("diagnostics=" + value);
    KeyMatches("diagnostics=", value);
    DecimalAlone(if on then 1 else 0);
    assert Decimal(1) == "1" && Decimal(0) == "0";
  }

  /** A version line changes nothing, whatever it says. */
  lemma AnyVersion(t: RuntimeSettings, v: string)
    requires |t.adjustments| == PRESET_COUNT
    ensures ReadLine(t, "version=" + v) == t
  {
    hide StartsWith;
    var line := "version=" + v;
    KeyDiffers(line, "preset=", 0);
    KeyDiffers(line, "intensity=", 0);
    KeyDiffers(line, "favorites_lo=", 0);
    KeyDiffers(line, "favorites_hi=", 0);
    KeyDiffers(line, "motion=", 0);
    KeyDiffers(line, "diagnostics=", 0);
    KeyDiffers(line, "recent=", 0);
    KeyDiffers(line, "adjust=", 0);
  }

  /** A file loads as what follows its version line, so a file of any version is read as one of this version. */
  lemma VersionIsIgnored(v: string, rest: string)
    requires Readable("version=" + v)
    ensures Loaded("version=" + v + ['\n'] + rest) == Loaded(rest)
  {
    hide ReadLine, ReadLines;
    ReadFirst(Defaults(), "version=" + v, rest);
    AnyVersion(Defaults(), v);
  }

  lemma NoComma(p: PresetNumber)
    ensures ',' !in PresetId(p) && PresetId(p) != "" && |PresetId(p)| < 63
  {
    IdFacts(p);
  }

  lemma {:induction false} RecentReads(recent: seq<PresetNumber>, before: seq<PresetNumber>)
    requires |before| + |recent| <= MAX_RECENT
    ensures ReadRecent(Joined(recent), before) == before + recent
    decreases |recent|
  {
    hide PresetId, PresetIndex, CutAt;
    if recent != [] {
      var id := PresetId(recent[0]);
      NoComma(recent[0]);
      LookupInverts(recent[0]);
      if |recent| > 1 {
        CutOf(id, ',', Joined(recent[1..]));
        assert Joined(recent) == id + [','] + Joined(recent[1..]);
        RecentReads(recent[1..], before + [recent[0]]);
        assert before + [recent[0]] + recent[1..] == before + recent;
      } else {
        assert CutAt(id, ',') == Uncut;
        assert before + recent == before + [recent[0]];
      }
    }
  }

  lemma RecentListLine(t: RuntimeSettings, recent: seq<PresetNumber>)
    requires |t.adjustments| == PRESET_COUNT && t.recent == [] && |recent| <= MAX_RECENT
    ensures ReadLine(t, "recent=" + Joined(recent)) == t.(recent := recent)
  {
    hide StartsWith, Joined;
    var line := "recent=" + Joined(recent);
    OtherKeys(line);
    KeyDiffers(line, "diagnostics=", 0);
    KeyMatches("recent=", Joined(recent));
    RecentReads(recent, []);
  }

  lemma FieldScans(n: int, rest: string)
    requires rest == "" || rest[0] == ','
    ensures ScanField("," + Decimal(n) + rest) == Number(n, rest)
  {
    hide Decimal, ScanInt;
    DecimalScans(n, rest);
    assert ("," + Decimal(n) + rest)[1..] == Decimal(n) + rest;
  }

  lemma RowScans(id: string, a: Adjustment)
    requires ',' !in id && id != "" && |id| < 63
    ensures ScanRow(id + "," + Decimal(a.contrast) + "," + Decimal(a.grain) + "," + Decimal(a.motion)) == Row(id, a)
  {
    hide Decimal, ScanField;
    var afterGrain := "," + Decimal(a.motion) + "";
    var afterContrast := "," + Decimal(a.grain) + afterGrain;
    var afterId := "," + Decimal(a.contrast) + afterContrast;
    var text := id + "," + Decimal(a.contrast) + "," + Decimal(a.grain) + "," + Decimal(a.motion);
    assert text == id + [','] + afterId[1..] == id + afterId;
    IndexOfCut(id, ',', afterId[1..]);
    FieldScans(a.contrast, afterContrast);
    FieldScans(a.grain, afterGrain);
    FieldScans(a.motion, "");
  }

  lemma AdjustLineReads(t: RuntimeSettings, p: PresetNumber, a: Adjustment)
    requires |t.adjustments| == PRESET_COUNT && InRange(a)
    ensures ReadLine(t, AdjustLine(p, a)) == t.(adjustments := t.adjustments[p := a])
  {
    hide StartsWith, Decimal, ScanRow, PresetId, PresetIndex;
    var row := PresetId(p) + "," + Decimal(a.contrast) + "," + Decimal(a.grain) + "," + Decimal(a.motion);
    assert AdjustLine(p, a) == "adjust=" + row;
    OtherKeys("adjust=" + row);
    KeyDiffers("adjust=" + row, "diagnostics=", 0);
    KeyDiffers("adjust=" + row, "recent=", 0);
    KeyMatches("adjust=", row);
    NoComma(p);
    RowScans(PresetId(p), a);
    LookupInverts(p);
  }

  /** Reading the sparse rows from a preset on fills in exactly the adjustments from there on. */
  lemma AdjustLinesFrom(adjustments: seq<Adjustment>, from: nat)
    requires |adjustments| == PRESET_COUNT && from < PRESET_COUNT
    ensures var tail := AdjustLines(adjustments, from + 1);
            AdjustLines(adjustments, from) ==
              if adjustments[from] == NO_ADJUSTMENT then tail else [AdjustLine(from, adjustments[from])] + tail
  {
    hide AdjustLine;
  }

  lemma ReadAllFrom(t: RuntimeSettings, line: string, tail: seq<string>)
    requires |t.adjustments| == PRESET_COUNT
    ensures ReadAll(t, [line] + tail) == ReadAll(ReadLine(t, line), tail)
  {
    hide ReadLine;
    assert ([line] + tail)[1..] == tail;
  }

  lemma {:induction false} AdjustLinesRead(t: RuntimeSettings, adjustments: seq<Adjustment>, from: nat)
    requires |t.adjustments| == |adjustments| == PRESET_COUNT && from <= PRESET_COUNT
    requires forall i | 0 <= i < PRESET_COUNT :: InRange(adjustments[i])
    requires t.adjustments[..from] == adjustments[..from]
    requires forall i | from <= i < PRESET_COUNT :: t.adjustments[i] == NO_ADJUSTMENT
    ensures ReadAll(t, AdjustLines(adjustments, from)) == t.(adjustments := adjustments)
    decreases PRESET_COUNT - from
  {
    hide ReadLine, AdjustLine, InRange;
    if from == PRESET_COUNT {
      assert t.adjustments == adjustments;
    } else {
      hide ReadAll, AdjustLines;
      var next := t.(adjustments := t.adjustments[from := adjustments[from]]);
      AdjustLinesRead(next, adjustments, from + 1);
      AdjustLinesFrom(adjustments, from);
      if adjustments[from] == NO_ADJUSTMENT {
        assert next.adjustments == t.adjustments;
      } else {
        AdjustLineReads(t, from, adjustments[from]);
        ReadAllFrom(t, AdjustLine(from, adjustments[from]), AdjustLines(adjustments, from + 1));
      }
    }
  }

  lemma {:induction false} AdjustLinesReadable(adjustments: seq<Adjustment>, from: nat)
    requires |adjustments| == PRESET_COUNT && from <= PRESET_COUNT
    requires forall i | 0 <= i < PRESET_COUNT :: InRange(adjustments[i])
    ensures forall line <- AdjustLines(adjustments, from) :: Readable(line)
    decreases PRESET_COUNT - from
  {
    hide Readable, AdjustLine, InRange;
    if from < PRESET_COUNT {
      AdjustLinesReadable(adjustments, from + 1);
      AdjustLineReadable(from, adjustments[from]);
    }
  }

  lemma SmallDecimal(n: int)
    requires -1000 < n < 1000
    ensures |Decimal(n)| <= 4 && forall c <- Decimal(n) :: '0' <= c <= '9' || c == '-'
  {
    assert Power(10, 3) == 1000;
    DecimalLength(n, 3);
    DecimalChars(n);
  }

  lemma AdjustLineReadable(p: PresetNumber, a: Adjustment)
    requires InRange(a)
    ensures Readable(AdjustLine(p, a))
  {
    hide Decimal, PresetId;
    IdFacts(p);
    SmallDecimal(a.contrast);
    SmallDecimal(a.grain);
    SmallDecimal(a.motion);
    var m := Decimal(a.motion);
    var line := AdjustLine(p, a);
    assert line[|line| - 1] == m[|m| - 1] && m[|m| - 1] in m;
  }

  lemma MaskDigits(n: nat)
    requires n <= UINT64_MAX
    ensures |Digits(n, 16)| <= 16 && forall c <- Digits(n, 16) :: '0' <= c <= '9' || 'a' <= c <= 'f'
  {
    DigitsValue(n, 16);
    assert Power(16, 8) == 0x1_0000_0000;
    assert Power(16, 12) == 0x1_0000 * Power(16, 8);
    assert Power(16, 16) == 0x1_0000 * Power(16, 12);
    DigitsLength(n, 16, 16);
  }

  predicate PlainChar(c: char) {
    IdChar(c) || c == ',' || c == '-'
  }

  lemma {:induction false} JoinedChars(recent: seq<PresetNumber>)
    ensures forall c <- Joined(recent) :: PlainChar(c)
  {
    hide PresetId;
    if recent != [] {
      IdFacts(recent[0]);
      JoinedChars(recent[1..]);
    }
  }

  lemma KeyedReadable(key: string, value: string)
    requires key != "" && '\n' !in key && '\0' !in key && '\r' !in key
    requires |key + value| + 2 <= SETTINGS_LINE_BUFFER && forall c <- value :: PlainChar(c)
    ensures Readable(key + value)
  {
    var line := key + value;
    assert line[|line| - 1] in key || line[|line| - 1] in value;
  }

  lemma NumbersReadable(s: RuntimeSettings)
    requires Bounded(s)
    ensures Readable("intensity=" + Decimal(s.intensity)) && Readable("motion=" + Decimal(s.motion))
  {
    hide Readable, Decimal;
    SmallDecimal(s.intensity);
    SmallDecimal(s.motion);
    KeyedReadable("intensity=", Decimal(s.intensity));
    KeyedReadable("motion=", Decimal(s.motion));
  }

  lemma MasksReadable(s: RuntimeSettings)
    requires Bounded(s)
    ensures Readable("favorites_lo=" + Digits(s.favoritesLo, 16))
        && Readable("favorites_hi=" + Digits(s.favoritesHi, 16))
  {
    hide Readable, Digits;
    MaskDigits(s.favoritesLo);
    MaskDigits(s.favoritesHi);
    KeyedReadable("favorites_lo=", Digits(s.favoritesLo, 16));
    KeyedReadable("favorites_hi=", Digits(s.favoritesHi, 16));
  }

  lemma HeadReadable(s: RuntimeSettings)
    requires Bounded(s)
    ensures forall line <- HeadLines(s)[..7] :: Readable(line)
  {
    hide Readable, Decimal, Digits, PresetId, Joined;
    NumbersReadable(s);
    MasksReadable(s);
    IdFacts(s.selectedPreset);
    KeyedReadable("preset=", PresetId(s.selectedPreset));
    KeyedReadable("diagnostics=", if s.diagnostics then "1" else "0");
    KeyedReadable("version=", "2");
    assert "version=" + "2" == "version=2";
  }

  /** The seven lines before the recent list give back all but the list and the adjustments. */
  lemma HeadReads(s: RuntimeSettings)
    requires Bounded(s)
    ensures ReadAll(Defaults(), HeadLines(s)[..7]) == s.(recent := [], adjustments := Defaults().adjustments)
  {
    hide ReadLine, Decimal, Digits, PresetId, Joined;
    var t0 := Defaults();
    var t1 := t0.(selectedPreset := s.selectedPreset);
    var t2 := t1.(intensity := s.intensity);
    var t3 := t2.(favoritesLo := s.favoritesLo);
    var t4 := t3.(favoritesHi := s.favoritesHi);
    var t5 := t4.(motion := s.motion);
    var t6 := t5.(diagnostics := s.diagnostics);
    var lines := HeadLines(s)[..7];
    AnyVersion(t0, "2");
    assert "version=" + "2" == "version=2";
    PresetLine(t0, s.selectedPreset);
    IntensityLine(t1, s.intensity);
    FavoritesLoLine(t2, s.favoritesLo);
    FavoritesHiLine(t3, s.favoritesHi);
    MotionLine(t4, s.motion);
    DiagnosticsLine(t5, s.diagnostics);
    ReadOne(t5, lines, 6);
    ReadOne(t4, lines, 5);
    ReadOne(t3, lines, 4);
    ReadOne(t2, lines, 3);
    ReadOne(t1, lines, 2);
    ReadOne(t0, lines, 1);
    ReadOne(t0, lines, 0);
    assert ReadAll(t6, lines[7..]) == t6;
    assert lines[0..] == lines;
  }

  lemma ReadOne(t: RuntimeSettings, lines: seq<string>, k: nat)
    requires |t.adjustments| == PRESET_COUNT && k < |lines|
    ensures ReadAll(t, lines[k..]) == ReadAll(ReadLine(t, lines[k]), lines[k + 1..])
  {
    assert lines[k..][1..] == lines[k + 1..];
  }

  // ---- a recent list that is cut -------------------------------------------------------------------

  const CUT: nat := SETTINGS_LINE_BUFFER - 1

  /** A printed line of plain characters, as the fgets loop sees it: whole if it fits, else in two pieces. */
  lemma LongLineReads(t: RuntimeSettings, line: string, rest: string)
    requires |t.adjustments| == PRESET_COUNT && CUT <= |line| && Readable(line[CUT..])
    requires forall c <- line :: c != '\n' && c != '\0' && c != '\r'
    ensures ReadLines(t, line + ['\n'] + rest) == ReadLines(ReadLine(ReadLine(t, line[..CUT]), line[CUT..]), rest)
  {
    hide ReadLine, Readable;
    var text := line + ['\n'] + rest;
    IndexOfCut(line, '\n', rest);
    assert FgetsLength(text, SETTINGS_LINE_BUFFER) == CUT;
    var raw := text[..CUT];
    assert raw == line[..CUT];
    forall c | c in raw ensures c != '\0' && c != '\n' && c != '\r' {
      assert c in line;
    }
    IndexOfAbsent(raw, '\0');
    assert raw[|raw| - 1] in raw;
    assert CString(raw) == raw && TrimLine(raw) == raw;
    assert text[CUT..] == line[CUT..] + ['\n'] + rest;
    ReadFirst(ReadLine(t, raw), line[CUT..], rest);
  }

  /** No key matches a piece without an equals sign. */
  lemma {:induction false} KeylessLine(t: RuntimeSettings, line: string)
    requires |t.adjustments| == PRESET_COUNT && '=' !in line
    ensures ReadLine(t, line) == t
  {
    hide StartsWith;
    Keyless(line, "preset=", 6);
    Keyless(line, "intensity=", 9);
    Keyless(line, "favorites_lo=", 12);
    Keyless(line, "favorites_hi=", 12);
    Keyless(line, "motion=", 6);
    Keyless(line, "diagnostics=", 11);
    Keyless(line, "recent=", 6);
    Keyless(line, "adjust=", 6);
  }

  lemma Keyless(line: string, key: string, k: nat)
    requires '=' !in line && k < |key| && key[k] == '='
    ensures !StartsWith(line, key)
  {
    if |key| <= |line| {
      assert line[..|key|][k] == line[k] && line[k] in line;
    }
  }

  /** The list printed on n characters is read back as itself: whole, or cut inside a last preset 0, whose
      remaining characters name no preset and so give preset 0 again. */
  predicate SurvivesCut(recent: seq<PresetNumber>, n: nat) {
    n >= |Joined(recent)|
    || (recent != [] && recent[|recent| - 1] == 0 && n > |Joined(recent)| - |PresetId(0)|)
  }

  lemma {:induction false} CutRecentReads(recent: seq<PresetNumber>, before: seq<PresetNumber>, n: nat)
    requires |before| + |recent| <= MAX_RECENT && n <= |Joined(recent)|
    ensures ReadRecent(Joined(recent)[..n], before) == before + recent <==> SurvivesCut(recent, n)
    decreases |recent|
  {
    hide PresetId, PresetIndex, CutAt;
    if recent == [] {
    } else {
      var id := PresetId(recent[0]);
      NoComma(recent[0]);
      if |recent| == 1 {
        CutId(recent[0], before, n);
      } else if n <= |id| {
        CutEarly(recent, before, n);
      } else {
        var rest := Joined(recent[1..]);
        assert Joined(recent) == id + [','] + rest;
        assert Joined(recent)[..n] == id + [','] + rest[..n - |id| - 1];
        CutOf(id, ',', rest[..n - |id| - 1]);
        LookupInverts(recent[0]);
        CutRecentReads(recent[1..], before + [recent[0]], n - |id| - 1);
        assert before + [recent[0]] + recent[1..] == before + recent;
      }
    }
  }

  /** One id, cut to its first n characters. */
  lemma CutId(p: PresetNumber, before: seq<PresetNumber>, n: nat)
    requires |before| < MAX_RECENT && n <= |PresetId(p)|
    ensures ReadRecent(PresetId(p)[..n], before) == before + [p]
            <==> n == |PresetId(p)| || (p == 0 && 0 < n)
  {
    hide PresetId, PresetIndex, CutAt;
    var cursor := PresetId(p)[..n];
    NoComma(p);
    assert ',' !in cursor;
    IsUncut(cursor);
    if n == |PresetId(p)| {
      assert cursor == PresetId(p);
      LookupInverts(p);
    } else if n > 0 {
      PrefixIsNoId(p, n);
      assert (before + [PresetIndex(cursor)])[|before|] == PresetIndex(cursor);
    }
  }

  lemma IsUncut(cursor: string)
    requires ',' !in cursor
    ensures CutAt(cursor, ',') == Uncut
  {}

  /** A proper prefix of an id is looked up as preset 0 or as another preset. */
  lemma PrefixIsNoId(p: PresetNumber, n: nat)
    requires 0 < n < |PresetId(p)|
    ensures PresetIndex(PresetId(p)[..n]) == p <==> p == 0
  {
    hide PresetId, PresetIndex;
    var prefix := PresetId(p)[..n];
    FoundMeansId(prefix);
    if p == 0 && PresetIndex(prefix) != 0 {
      OlivesPrefix(PresetIndex(prefix), n);
    }
  }

  lemma CutEarly(recent: seq<PresetNumber>, before: seq<PresetNumber>, n: nat)
    requires 1 < |recent| && |before| + |recent| <= MAX_RECENT && n <= |PresetId(recent[0])|
    ensures n <= |Joined(recent)|
    ensures ReadRecent(Joined(recent)[..n], before) != before + recent && !SurvivesCut(recent, n)
  {
    hide PresetId, PresetIndex, CutAt;
    var id := PresetId(recent[0]);
    NoComma(recent[0]);
    assert Joined(recent)[..n] == id[..n] && ',' !in id[..n];
    IsUncut(id[..n]);
    LastIdInside(recent[1..]);
    assert recent[|recent| - 1] == recent[1..][|recent| - 2];
  }

  lemma {:induction false} LastIdInside(recent: seq<PresetNumber>)
    requires recent != []
    ensures |Joined(recent)| >= |PresetId(recent[|recent| - 1])|
  {
    hide PresetId;
    if |recent| > 1 {
      LastIdInside(recent[1..]);
    }
  }

  /** What the loader makes of the printed recent line, whatever its length. */
  function RecentRead(recent: seq<PresetNumber>): seq<PresetNumber> {
    if |"recent=" + Joined(recent)| <= CUT then recent else ReadRecent(Joined(recent)[..CUT - 7], [])
  }

  lemma RecentLineReads(t: RuntimeSettings, recent: seq<PresetNumber>, rest: string)
    requires |t.adjustments| == PRESET_COUNT && t.recent == [] && |recent| <= MAX_RECENT
    ensures ReadLines(t, "recent=" + Joined(recent) + ['\n'] + rest)
            == ReadLines(t.(recent := RecentRead(recent)), rest)
  {
    hide ReadLine, ReadLines, Joined, Readable, ReadRecent;
    var line := "recent=" + Joined(recent);
    JoinedChars(recent);
    JoinedIsShort(recent);
    if |line| < CUT {
      KeyedReadable("recent=", Joined(recent));
      RecentListLine(t, recent);
      ReadFirst(t, line, rest);
    } else {
      var list, tail := Joined(recent)[..CUT - 7], line[CUT..];
      assert line[..CUT] == "recent=" + list;
      RecentPieceReads(t, list);
      forall c | c in line ensures c != '\n' && c != '\0' && c != '\r' {
        assert c in "recent=" || c in Joined(recent);
      }
      forall k | 0 <= k < |tail| ensures tail[k] in Joined(recent) {
        assert tail[k] == Joined(recent)[CUT - 7 + k];
      }
      assert '=' !in tail && Readable(tail) by { TailIsPlain(tail, Joined(recent)); }
      LongLineReads(t, line, rest);
      KeylessLine(t.(recent := ReadRecent(list, [])), tail);
      if |line| == CUT {
        assert list == Joined(recent) && [] + recent == recent;
        RecentReads(recent, []);
      }
    }
  }

  lemma TailIsPlain(tail: string, list: string)
    requires |tail| + 2 <= SETTINGS_LINE_BUFFER && forall k | 0 <= k < |tail| :: tail[k] in list
    requires forall c <- list :: PlainChar(c)
    ensures '=' !in tail && Readable(tail)
  {}

  lemma RecentPieceReads(t: RuntimeSettings, list: string)
    requires |t.adjustments| == PRESET_COUNT && t.recent == []
    ensures ReadLine(t, "recent=" + list) == t.(recent := ReadRecent(list, []))
  {
    hide StartsWith, ReadRecent;
    var line := "recent=" + list;
    OtherKeys(line);
    KeyDiffers(line, "diagnostics=", 0);
    KeyMatches("recent=", list);
  }

  lemma JoinedIsShort(recent: seq<PresetNumber>)
    requires |recent| <= MAX_RECENT
    ensures |Joined(recent)| < 300
  {
    JoinedAtMost(recent);
  }

  lemma {:induction false} JoinedAtMost(recent: seq<PresetNumber>)
    ensures |Joined(recent)| <= 24 * |recent|
  {
    hide PresetId;
    if recent != [] {
      IdFacts(recent[0]);
      JoinedAtMost(recent[1..]);
    }
  }

  // ---- the round trips -------------------------------------------------------------------------------

  /** The recent line is read back as printed: it is at most 255 characters long, or it is cut inside a last
      preset 0. */
  predicate RecentSurvives(recent: seq<PresetNumber>) {
    var length := |"recent=" + Joined(recent)|;
    length <= CUT || (recent[|recent| - 1] == 0 && length < CUT + |PresetId(0)|)
  }

  lemma RecentReadExactly(recent: seq<PresetNumber>)
    requires |recent| <= MAX_RECENT
    ensures RecentRead(recent) == recent <==> RecentSurvives(recent)
  {
    assert recent == [] ==> Joined(recent) == "";
    hide Joined, PresetId, ReadRecent;
    if |"recent=" + Joined(recent)| > CUT {
      CutRecentReads(recent, [], CUT - 7);
      assert [] + recent == recent;
    }
  }

  lemma RowsRead(t: RuntimeSettings, adjustments: seq<Adjustment>)
    requires |adjustments| == PRESET_COUNT && t.adjustments == Defaults().adjustments
    requires forall i | 0 <= i < PRESET_COUNT :: InRange(adjustments[i])
    ensures ReadLines(t, Printed(AdjustLines(adjustments, 0))) == t.(adjustments := adjustments)
  {
    hide ReadLine, ReadLines, AdjustLines, Readable, InRange;
    var rows := AdjustLines(adjustments, 0);
    AdjustLinesReadable(adjustments, 0);
    assert Printed(rows) + "" == Printed(rows);
    PrintedLinesRead(t, rows, "");
    AdjustLinesRead(t, adjustments, 0);
    NothingRead(t.(adjustments := adjustments));
  }

  /** Every record in range comes back from the settings file but for what the loader makes of its recent line. */
  lemma FileReads(s: RuntimeSettings)
    requires Bounded(s)
    ensures Loaded(SettingsFile(s)) == s.(recent := RecentRead(s.recent))
  {
    BoundedParts(s);
    hide ReadLine, ReadLines, HeadLines, AdjustLines, Readable, Joined, RecentRead, Bounded, Checked, Printed, InRange;
    var rows, t := Printed(AdjustLines(s.adjustments, 0)), s.(recent := [], adjustments := Defaults().adjustments);
    FileParts(s);
    HeadReadable(s);
    PrintedLinesRead(Defaults(), HeadLines(s)[..7], "recent=" + Joined(s.recent) + ['\n'] + rows);
    HeadReads(s);
    RecentLineReads(t, s.recent, rows);
    RowsRead(t.(recent := RecentRead(s.recent)), s.adjustments);
  }

  /** A record in range comes back from the settings file exactly when its recent line survives. */
  lemma SettingsRoundTripExactly(s: RuntimeSettings)
    requires Bounded(s)
    ensures Loaded(SettingsFile(s)) == s <==> RecentSurvives(s.recent)
  {
    hide Loaded, SettingsFile, RecentRead, RecentSurvives;
    FileReads(s);
    RecentReadExactly(s.recent);
  }

  lemma NothingRead(s: RuntimeSettings)
    requires |s.adjustments| == PRESET_COUNT
    ensures ReadLines(s, "") == s
  {}

  lemma BoundedParts(s: RuntimeSettings)
    requires Bounded(s)
    ensures |s.recent| <= MAX_RECENT && |s.adjustments| == PRESET_COUNT && 0 <= s.favoritesLo && 0 <= s.favoritesHi
    ensures forall recent :: Checked(s.(recent := recent)) == s.(recent := recent)
    ensures forall i | 0 <= i < PRESET_COUNT :: InRange(s.adjustments[i])
  {}

  lemma FileParts(s: RuntimeSettings)
    requires 0 <= s.favoritesLo && 0 <= s.favoritesHi && |s.adjustments| == PRESET_COUNT
    ensures SettingsFile(s) == Printed(HeadLines(s)[..7])
                               + ("recent=" + Joined(s.recent) + ['\n'] + Printed(AdjustLines(s.adjustments, 0)))
  {
    hide Joined, AdjustLines, Printed, HeadLines;
    HeadPrinted(s, AdjustLines(s.adjustments, 0));
    assert "recent=" + Joined(s.recent) + "\n" == "recent=" + Joined(s.recent) + ['\n'];
  }

  /** loadSettings gives back every well-formed record that saveSettings wrote. */
  lemma SettingsRoundTrip(s: RuntimeSettings)
    requires WellFormed(s)
    ensures Loaded(SettingsFile(s)) == s
  {
    hide Loaded, SettingsFile, Joined, Distinct;
    RecentLineFits(s.recent);
    SettingsRoundTripExactly(s);
  }

  /** Distinctness is needed: a record in range with a longest id twelve times does not come back. */
  lemma RepeatedListIsLost(s: RuntimeSettings)
    requires Bounded(s) && s.recent == seq(MAX_RECENT, _ => LONGEST)
    ensures Loaded(SettingsFile(s)) != s
  {
    hide Loaded, SettingsFile, Joined, Bounded;
    RepeatedIdsDoNotFit();
    SettingsRoundTripExactly(s);
  }

  // ---- the printing loops ------------------------------------------------------------------------

  lemma RecentSoFar(recent: seq<PresetNumber>, i: nat)
    requires i <= |recent|
    ensures Joined(recent[..i]) == if i == 0 then "" else
              Joined(recent[..i - 1]) + (if i > 1 then "," else "") + PresetId(recent[i - 1])
  {
    if i > 0 {
      assert recent[..i] == recent[..i - 1] + [recent[i - 1]];
      JoinedAppend(recent[..i - 1], recent[i - 1]);
    }
  }

  lemma {:induction false} JoinedAppend(recent: seq<PresetNumber>, p: PresetNumber)
    ensures Joined(recent + [p]) == Joined(recent) + (if recent == [] then "" else ",") + PresetId(p)
  {
    hide PresetId;
    if recent == [] {
      assert recent + [p] == [p];
    } else {
      var rest := recent[1..];
      JoinedAppend(rest, p);
      assert (recent + [p])[0] == recent[0] && (recent + [p])[1..] == rest + [p];
      if rest != [] {
        Reassociated(PresetId(recent[0]) + ",", Joined(rest), "," + PresetId(p));
      }
    }
  }

  /** Everything saveSettings prints before the adjustment rows. */
  function HeadText(s: RuntimeSettings, recents: string): string
    requires 0 <= s.favoritesLo && 0 <= s.favoritesHi
  {
    Printed(HeadLines(s)[..7]) + "recent=" + recents + "\n"
  }

  lemma {:induction false} PrintedJoins(a: seq<string>, b: seq<string>)
    ensures Printed(a + b) == Printed(a) + Printed(b)
  {
    if a == [] {
      assert a + b == b;
    } else {
      PrintedJoins(a[1..], b);
      assert (a + b)[0] == a[0] && (a + b)[1..] == a[1..] + b;
      Reassociated(a[0] + ['\n'], Printed(a[1..]), Printed(b));
    }
  }

  lemma HeadPrinted(s: RuntimeSettings, rows: seq<string>)
    requires 0 <= s.favoritesLo && 0 <= s.favoritesHi
    ensures Printed(HeadLines(s) + rows) == HeadText(s, Joined(s.recent)) + Printed(rows)
  {
    hide Joined, PresetId, Digits, Decimal;
    var head := HeadLines(s);
    var last := "recent=" + Joined(s.recent);
    PrintedJoins(head, rows);
    PrintedJoins(head[..7], [last]);
    assert head == head[..7] + [last];
    assert Printed([last]) == last + ['\n'] + Printed([]);
  }

  lemma AdjustStep(adjustments: seq<Adjustment>, i: nat, text: string)
    requires |adjustments| == PRESET_COUNT && i < PRESET_COUNT
    ensures text + Printed(AdjustLines(adjustments, i)) ==
              (if adjustments[i] != NO_ADJUSTMENT then text + (AdjustLine(i, adjustments[i]) + "\n") else text)
              + Printed(AdjustLines(adjustments, i + 1))
  {
    hide AdjustLine;
    var tail := AdjustLines(adjustments, i + 1);
    if adjustments[i] != NO_ADJUSTMENT {
      assert ([AdjustLine(i, adjustments[i])] + tail)[1..] == tail;
    } else {
      assert [] + tail == tail;
    }
  }

  lemma AdjustEnd(adjustments: seq<Adjustment>, text: string)
    requires |adjustments| == PRESET_COUNT
    ensures text + Printed(AdjustLines(adjustments, PRESET_COUNT)) == text
  {}
}
