/** The filenames savePhoto generates, and how a rebuild reads the preset back out of them. */
module PhotoNames {
  import opened CText
  import opened PresetCatalog
  import opened PhotoIndex
  import MachineInt

  type int32 = x: int | INT32_MIN <= x <= INT32_MAX

  /** struct tm, with the year already counted from 0 and the month from 1. */
  datatype LocalTime = LocalTime(year: int32, month: int32, day: int32, hour: int32, minute: int32, second: int32)

  function Zeros(n: int): string {
    if n <= 0 then "" else "0" + Zeros(n - 1)
  }

  /** %0*d */
  function Padded(n: int, width: nat): string {
    if n < 0 then var digits := Digits(-n, 10); "-" + Zeros(width - 1 - |digits|) + digits
    else var digits := Digits(n, 10); Zeros(width - |digits|) + digits
  }

  predicate StampChar(c: char) {
    '0' <= c <= '9' || c == '-' || c == '_'
  }

  lemma {:induction false} ZerosFacts(n: int)
    ensures |Zeros(n)| == (if n < 0 then 0 else n) && forall c <- Zeros(n) :: c == '0'
  {
    if n > 0 {
      ZerosFacts(n - 1);
    }
  }

  lemma PaddedFacts(n: int, width: nat)
    requires INT32_MIN <= n <= INT32_MAX && width <= 4
    ensures |Padded(n, width)| <= 11 && forall c <- Padded(n, width) :: StampChar(c)
  {
    var m: nat := if n < 0 then -n else n;
    DigitsValue(m, 10);
    assert Power(10, 10) == 10_000_000_000;
    DigitsLength(m, 10, 10);
    ZerosFacts(width - 1 - |Digits(m, 10)|);
    ZerosFacts(width - |Digits(m, 10)|);
  }

  function Stamp(time: LocalTime, timestampMs: int64): string {
    Padded(time.year, 4) + Padded(time.month, 2) + Padded(time.day, 2) + "_" +
    Padded(time.hour, 2) + Padded(time.minute, 2) + Padded(time.second, 2) + "_" +
    Padded(MachineInt.TruncRem(timestampMs, 1000), 3)
  }

  const STEM_BUFFER: nat := 112

  /** The stem is the stamp, the preset id and a fixed ending; the filename adds the extension. */
  function Filename(time: LocalTime, timestampMs: int64, preset: PresetNumber): string {
    Stamp(time, timestampMs) + "_" + PresetId(preset) + "_preview" + ".jpg"
  }

  lemma StampFacts(time: LocalTime, timestampMs: int64)
    ensures |Stamp(time, timestampMs)| <= 79 && forall c <- Stamp(time, timestampMs) :: StampChar(c)
  {
    PaddedFacts(time.year, 4);
    PaddedFacts(time.month, 2);
    PaddedFacts(time.day, 2);
    PaddedFacts(time.hour, 2);
    PaddedFacts(time.minute, 2);
    PaddedFacts(time.second, 2);
    PaddedFacts(MachineInt.TruncRem(timestampMs, 1000), 3);
  }

  /** Every filename a save generates passes validateEntry's tests on names, fits its buffer and can be
      carried by the index; its stem leaves room for the NUL in the stem's buffer, so printing never cuts it. */
  lemma FilenameFacts(time: LocalTime, timestampMs: int64, preset: PresetNumber)
    ensures |Filename(time, timestampMs, preset)| - |".jpg"| < STEM_BUFFER
    ensures ValidName(Filename(time, timestampMs, preset)) && Carried(Filename(time, timestampMs, preset))
  {
    hide Stamp, PresetId;
    StampFacts(time, timestampMs);
    IdFacts(preset);
    NameIsValid(Stamp(time, timestampMs) + "_" + PresetId(preset) + "_preview");
  }

  // ---- reading a stamp -------------------------------------------------------------------------------

  /** Fields as localtime fills them, and a time after 1970. */
  predicate Regular(time: LocalTime, timestampMs: int64) {
    && 0 <= time.year < 10000 && 0 <= time.month < 100 && 0 <= time.day < 100 && 0 <= time.hour < 100
    && 0 <= time.minute < 100 && 0 <= time.second < 100 && 0 <= timestampMs
  }

  lemma {:induction false} ZerosAddNothing(k: int, s: string)
    ensures Value(Zeros(k) + s, 10) == Value(s, 10)
    decreases |s|, if k < 0 then 0 else k
  {
    ZerosFacts(k);
    var all := Zeros(k) + s;
    if s != "" {
      var n := |s| - 1;
      ZerosAddNothing(k, s[..n]);
      assert all[..|all| - 1] == Zeros(k) + s[..n];
    } else if k > 0 {
      assert all == Zeros(k);
      ZerosEnd(k);
      assert all[..|all| - 1] == Zeros(k - 1) + "";
      ZerosAddNothing(k - 1, "");
    } else {
      assert all == "";
    }
  }

  lemma {:induction false} ZerosEnd(k: nat)
    requires k > 0
    ensures Zeros(k) == Zeros(k - 1) + "0"
  {
    if k > 1 {
      ZerosEnd(k - 1);
    }
  }

  lemma PaddedReads(n: nat, width: nat)
    requires 0 < width <= 4 && n < Power(10, width)
    ensures |Padded(n, width)| == width && Value(Padded(n, width), 10) == n
  {
    DigitsValue(n, 10);
    DigitsLength(n, 10, width);
    ZerosFacts(width - |Digits(n, 10)|);
    ZerosAddNothing(width - |Digits(n, 10)|, Digits(n, 10));
  }

  lemma Powers()
    ensures Power(10, 2) == 100 && Power(10, 3) == 1000 && Power(10, 4) == 10000
  {
    assert Power(10, 1) == 10;
  }

  /** A generated filename tells when and with what the photo was made: the date, the time, the milliseconds and
      the preset stand at fixed places. */
  lemma FilenameReads(time: LocalTime, timestampMs: int64, preset: PresetNumber)
    requires Regular(time, timestampMs)
    ensures var f := Filename(time, timestampMs, preset);
            && |f| >= 19
            && Value(f[0..4], 10) == time.year && Value(f[4..6], 10) == time.month && Value(f[6..8], 10) == time.day
            && Value(f[9..11], 10) == time.hour && Value(f[11..13], 10) == time.minute
            && Value(f[13..15], 10) == time.second && Value(f[16..19], 10) == timestampMs % 1000
            && f[8] == '_' && f[15] == '_' && f[19..] == "_" + PresetId(preset) + "_preview.jpg"
  {
    Powers();
    PaddedReads(time.year, 4);
    PaddedReads(time.month, 2);
    PaddedReads(time.day, 2);
    PaddedReads(time.hour, 2);
    PaddedReads(time.minute, 2);
    PaddedReads(time.second, 2);
    PaddedReads(timestampMs % 1000, 3);
    FilenameIs(time, timestampMs, preset);
    hide Padded, Value, Power, Filename, PresetId;
    StampParts(Padded(time.year, 4), Padded(time.month, 2), Padded(time.day, 2), Padded(time.hour, 2),
               Padded(time.minute, 2), Padded(time.second, 2), Padded(timestampMs % 1000, 3),
               "_" + PresetId(preset) + "_preview.jpg");
  }

  lemma FilenameIs(time: LocalTime, timestampMs: int64, preset: PresetNumber)
    requires timestampMs >= 0
    ensures Filename(time, timestampMs, preset) ==
              Padded(time.year, 4) + Padded(time.month, 2) + Padded(time.day, 2) + "_" + Padded(time.hour, 2)
              + Padded(time.minute, 2) + Padded(time.second, 2) + "_" + Padded(timestampMs % 1000, 3)
              + ("_" + PresetId(preset) + "_preview.jpg")
  {
    hide Padded, PresetId;
    assert MachineInt.TruncRem(timestampMs, 1000) == timestampMs % 1000;
    assert "_preview" + ".jpg" == "_preview.jpg";
    Reassociated("_" + PresetId(preset), "_preview", ".jpg");
  }

  lemma StampParts(year: string, month: string, day: string, hour: string, minute: string, second: string,
          millis: string, end: string)
    requires |year| == 4 && |month| == |day| == |hour| == |minute| == |second| == 2 && |millis| == 3
    ensures var f := year + month + day + "_" + hour + minute + second + "_" + millis + end;
            && |f| >= 19 && f[0..4] == year && f[4..6] == month && f[6..8] == day && f[8] == '_'
            && f[9..11] == hour && f[11..13] == minute && f[13..15] == second && f[15] == '_' && f[16..19] == millis
            && f[19..] == end
  {}

  predicate NameChar(c: char) {
    StampChar(c) || 'a' <= c <= 'z'
  }

  lemma NameIsValid(base: string)
    requires forall c <- base :: NameChar(c)
    requires |base| < 120
    ensures ValidName(base + ".jpg") && Carried(base + ".jpg")
  {
    var f := base + ".jpg";
    forall i | 0 <= i < |base| ensures f[i] != '.' {
      assert f[i] == base[i] && base[i] in base;
    }
    forall i | 0 <= i <= |f| ensures !PartAt(f, "..", i) {
      if PartAt(f, "..", i) {
        PartChar(f, "..", i, 0);
        PartChar(f, "..", i, 1);
      }
    }
  }

  // ---- the preset in a filename ------------------------------------------------------------------

  const PREVIEW_ENDING: string := "_preview.jpg"

  function PresetEnding(preset: PresetNumber): string {
    "_" + PresetId(preset) + PREVIEW_ENDING
  }

  /** The suffix search of rebuildIndex, from a given preset on. */
  function RecoveredFrom(filename: string, from: nat): (r: Option<PresetNumber>)
    requires from <= PRESET_COUNT
    decreases PRESET_COUNT - from
  {
    if from == PRESET_COUNT then None
    else if EndsWith(filename, PresetEnding(from)) then Some(from)
    else RecoveredFrom(filename, from + 1)
  }

  lemma EndingsApart(filename: string, a: PresetNumber, b: PresetNumber)
    requires EndsWith(filename, PresetEnding(a)) && EndsWith(filename, PresetEnding(b))
    ensures a == b
  {
    var base := filename[..|filename| - |PREVIEW_ENDING|];
    EndingDropped(filename, a, base);
    EndingDropped(filename, b, base);
    SuffixFree(a, b, base);
  }

  lemma EndingDropped(filename: string, a: PresetNumber, base: string)
    requires EndsWith(filename, PresetEnding(a))
    requires base == filename[..|filename| - |PREVIEW_ENDING|]
    ensures EndsWith(base, "_" + PresetId(a))
  {
    hide PresetId;
    var named, n := "_" + PresetId(a), |filename|;
    var start := n - |PresetEnding(a)|;
    assert base[start..] == filename[start..][..|named|] == PresetEnding(a)[..|named|] == named;
  }

  /** The search stops at a preset exactly when the filename ends with that preset's ending. */
  lemma {:induction false} RecoveryIsExact(filename: string, preset: PresetNumber, from: nat)
    requires from <= preset
    ensures RecoveredFrom(filename, from) == Some(preset) <==> EndsWith(filename, PresetEnding(preset))
    decreases preset - from
  {
    hide PresetEnding;
    if EndsWith(filename, PresetEnding(from)) {
      if EndsWith(filename, PresetEnding(preset)) {
        EndingsApart(filename, from, preset);
      }
    } else if from < preset {
      RecoveryIsExact(filename, preset, from + 1);
    } else {
      RecoveredLater(filename, from + 1);
    }
  }

  lemma {:induction false} RecoveredLater(filename: string, from: nat)
    requires from <= PRESET_COUNT
    ensures RecoveredFrom(filename, from).Some? ==> RecoveredFrom(filename, from).value >= from
    decreases PRESET_COUNT - from
  {
    hide PresetEnding;
    if from < PRESET_COUNT {
      RecoveredLater(filename, from + 1);
    }
  }

  /** A rebuild gives every generated filename the preset it was saved with. */
  lemma PresetRecovered(time: LocalTime, timestampMs: int64, preset: PresetNumber)
    ensures RecoveredFrom(Filename(time, timestampMs, preset), 0) == Some(preset)
    ensures EndsWith(Filename(time, timestampMs, preset), PREVIEW_ENDING)
  {
    hide Stamp, PresetId, RecoveredFrom;
    var f := Filename(time, timestampMs, preset);
    assert f == Stamp(time, timestampMs) + PresetEnding(preset);
    RecoveryIsExact(f, preset, 0);
  }
}
