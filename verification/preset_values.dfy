/** The numeric columns of the preset catalog, and the preset a frame is filtered with: the catalog row under
    the user's adjustments. */
module PresetValues {
  import opened MachineInt
  import opened FrameFilter
  import CText
  import opened PresetCatalog
  import SettingsText

  function Values0(column: nat): (p: Preset)
    requires column < 7
    ensures Filterable(p)
  {
    match column
    case 0 => Preset({Mono, Dither, Pixelate, Temporal}, 72, 95, 48, -100, 15, 4, 3, 3, 18)
    case 1 => Preset({Mono, Dither, Temporal}, 90, 98, 110, -100, 5, 4, 2, 2, 13)
    case 2 => Preset({Mono, Scanlines, Bloom}, 130, 20, 22, -100, 38, 3, 3, 2, 0)
    case 3 => Preset({Mono, Pixelate, Mask, Temporal}, 70, 86, 58, -100, 20, 3, 2, 5, 28)
    case 4 => Preset({Mono, Pixelate, Dither}, 58, 70, 50, -100, 42, 2, 1, 5, 0)
    case 5 => Preset({Dither, Pixelate, Mask}, 100, 102, 92, -12, 10, 5, 2, 3, 0)
    case _ => Preset({Mono, Dither, Pixelate}, 100, 100, 100, -100, 55, 2, 0, 2, 0)
  }

  function Values1(column: nat): (p: Preset)
    requires column < 7
    ensures Filterable(p)
  {
    match column
    case 0 => Preset({Cga, Pixelate, Dither}, 100, 100, 100, 25, 30, 4, 0, 4, 0)
    case 1 => Preset({Dither, Pixelate}, 105, 100, 105, 20, 22, 4, 0, 3, 0)
    case 2 => Preset({Dither, Pixelate}, 110, 105, 115, 42, 20, 4, 1, 2, 0)
    case 3 => Preset({Mono, Scanlines, Bloom, Ascii}, 130, 76, 12, -100, 28, 5, 2, 4, 0)
    case 4 => Preset({Mono, Scanlines, Temporal, Bloom}, 25, 125, 48, -100, 25, 6, 2, 2, 20)
    case 5 => Preset({Cga, Pixelate, Ascii}, 105, 105, 105, 35, 28, 4, 0, 6, 0)
    case _ => Preset({Ascii, Pixelate, Dither}, 108, 104, 100, 25, 25, 6, 1, 5, 0)
  }

  function Values2(column: nat): (p: Preset)
    requires column < 7
    ensures Filterable(p)
  {
    match column
    case 0 => Preset({Ascii, Mono, Pixelate}, 105, 96, 76, -100, 34, 6, 0, 5, 0)
    case 1 => Preset({Ascii, Pixelate}, 105, 105, 105, 15, 22, 6, 0, 5, 0)
    case 2 => Preset({Mono, Halftone, Pixelate}, 92, 104, 82, -100, 30, 3, 0, 4, 0)
    case 3 => Preset({Dither, Pixelate}, 115, 108, 92, 38, 18, 5, 1, 4, 0)
    case 4 => Preset({Pixelate, Edge}, 110, 105, 110, 42, 25, 6, 0, 2, 0)
    case 5 => Preset({Pixelate, Scanlines, Mask, Vignette}, 105, 100, 104, 18, 24, 7, 1, 3, 0)
    case _ => Preset({Tear, Scanlines, Temporal}, 108, 96, 105, 15, 8, 8, 3, 1, 12)
  }

  function Values3(column: nat): (p: Preset)
    requires column < 7
    ensures Filterable(p)
  {
    match column
    case 0 => Preset({Tear, Jitter, Temporal, Scanlines}, 98, 98, 98, -10, 20, 7, 18, 1, 18)
    case 1 => Preset({Scanlines, Mask, Vignette, Bloom}, 105, 100, 103, 12, 16, 8, 2, 1, 0)
    case 2 => Preset({Scanlines, Mask, Bloom}, 106, 102, 105, 14, 20, 8, 1, 1, 0)
    case 3 => Preset({Mask, Scanlines, Vignette}, 101, 98, 100, 5, 10, 8, 1, 1, 0)
    case 4 => Preset({Scanlines, Vignette}, 110, 98, 106, 35, 32, 8, 7, 1, 0)
    case 5 => Preset({Tear, Scanlines, Temporal}, 108, 96, 104, 18, 12, 8, 4, 1, 10)
    case _ => Preset({Temporal, Scanlines, Tear}, 98, 104, 104, 4, 8, 8, 2, 1, 22)
  }

  function Values4(column: nat): (p: Preset)
    requires column < 7
    ensures Filterable(p)
  {
    match column
    case 0 => Preset({Tear, Scanlines, Vignette}, 102, 98, 92, -25, 18, 7, 6, 1, 0)
    case 1 => Preset({Tear, Jitter, Temporal, Scanlines}, 108, 98, 90, -8, 12, 8, 10, 1, 18)
    case 2 => Preset({Tear, Jitter, Temporal, Scanlines}, 102, 92, 90, -28, 25, 7, 22, 1, 25)
    case 3 => Preset({Temporal, Bloom, Vignette}, 112, 103, 90, 8, 5, 8, 7, 1, 13)
    case 4 => Preset({Jitter, Scanlines, Edge}, 112, 108, 96, 20, 18, 8, 5, 1, 0)
    case 5 => Preset({Edge, Mask}, 96, 104, 114, 5, 30, 8, 3, 2, 0)
    case _ => Preset({Pixelate, Temporal, Mask}, 105, 96, 110, 5, 25, 5, 7, 6, 30)
  }

  function Values5(column: nat): (p: Preset)
    requires column < 7
    ensures Filterable(p)
  {
    match column
    case 0 => Preset({Mono, Scanlines, Temporal}, 100, 103, 98, -100, 28, 6, 8, 1, 10)
    case 1 => Preset({Mono, Scanlines, Vignette, Bloom}, 28, 124, 42, -100, 22, 6, 20, 1, 0)
    case 2 => Preset({Jitter, Vignette, Bloom, Temporal}, 114, 103, 84, 8, 12, 8, 12, 1, 9)
    case 3 => Preset({Mono, Jitter, Edge, Vignette}, 104, 100, 86, -80, 34, 7, 16, 1, 0)
    case 4 => Preset({Mono, Jitter, Temporal, Vignette, Tear}, 94, 105, 78, -75, 24, 6, 18, 1, 22)
    case 5 => Preset({Jitter, Temporal, Vignette}, 108, 101, 88, -35, 0, 7, 9, 1, 12)
    case _ => Preset({Mono, Tear, Scanlines, Mask}, 72, 92, 110, -70, 22, 6, 14, 1, 0)
  }

  function Values6(column: nat): (p: Preset)
    requires column < 7
    ensures Filterable(p)
  {
    match column
    case 0 => Preset({Vignette}, 116, 94, 112, -12, -5, 8, 5, 1, 0)
    case 1 => Preset({Edge, Vignette}, 105, 102, 96, -65, 42, 8, 9, 1, 0)
    case 2 => Preset({Vignette}, 104, 112, 88, 24, 38, 8, 4, 1, 0)
    case 3 => Preset({Mono, Dither, Vignette}, 72, 110, 96, -100, 26, 7, 8, 1, 0)
    case 4 => Preset({Mono, Invert, Vignette}, 20, 80, 122, -100, 24, 6, 5, 1, 0)
    case 5 => Preset({Mono, Halftone, Dither}, 96, 94, 88, -100, 30, 3, 3, 3, 0)
    case _ => Preset({Halftone, Tear, Dither}, 106, 98, 92, 18, 18, 5, 4, 2, 0)
  }

  function Values7(column: nat): (p: Preset)
    requires column < 7
    ensures Filterable(p)
  {
    match column
    case 0 => Preset({Cga, Halftone, Tear}, 108, 92, 96, 8, 25, 4, 8, 2, 0)
    case 1 => Preset({Mono, Edge, Halftone, Invert}, 100, 100, 100, -100, 44, 3, 2, 2, 0)
    case 2 => Preset({Mono, Edge, Dither}, 100, 100, 98, -100, 62, 2, 12, 1, 0)
    case 3 => Preset({Mono, Dither, Tear}, 96, 92, 82, -100, 38, 2, 7, 2, 0)
    case 4 => Preset({Mono, Edge, Invert, Dither}, 100, 100, 100, -100, 18, 6, 4, 1, 0)
    case 5 => Preset({Edge, Dither}, 108, 103, 98, 18, 34, 4, 2, 2, 0)
    case _ => Preset({Pixelate, Mask, Tear}, 108, 94, 106, -12, 36, 4, 10, 8, 0)
  }

  function Values8(column: nat): (p: Preset)
    requires column < 7
    ensures Filterable(p)
  {
    match column
    case 0 => Preset({Tear, Jitter, Mask, Temporal}, 112, 92, 108, 22, 25, 6, 8, 4, 35)
    case 1 => Preset({Temporal, Tear}, 110, 98, 108, 12, 10, 8, 2, 1, 48)
    case 2 => Preset({Tear, Jitter}, 110, 96, 108, 18, 24, 7, 8, 1, 0)
    case 3 => Preset({Tear, Pixelate, Edge}, 105, 102, 108, 20, 30, 6, 2, 3, 0)
    case 4 => Preset({Vignette, Bloom, Edge}, 112, 102, 55, -28, 34, 8, 6, 1, 0)
    case 5 => Preset({Vignette, Bloom}, 108, 82, 58, -48, 42, 7, 9, 1, 0)
    case _ => Preset({Vignette}, 112, 101, 96, 28, 38, 8, 3, 1, 0)
  }

  function Values9(column: nat): (p: Preset)
    requires column < 7
    ensures Filterable(p)
  {
    match column
    case 0 => Preset({Vignette}, 78, 112, 82, -20, 36, 7, 5, 1, 0)
    case 1 => Preset({Bloom, Vignette}, 86, 104, 120, -8, 32, 8, 4, 1, 0)
    case 2 => Preset({Bloom, Edge, Vignette}, 112, 108, 102, -35, 18, 8, 4, 1, 0)
    case 3 => Preset({Thermal}, 100, 100, 100, 0, 24, 8, 2, 1, 0)
    case 4 => Preset({Invert, Vignette}, 72, 120, 105, 35, 25, 8, 3, 1, 0)
    case 5 => Preset({Edge, Mono, Scanlines, Invert}, 30, 116, 104, -100, 45, 5, 3, 1, 0)
    case _ => Preset({Edge, Mono, Invert, Mask}, 25, 78, 120, -100, 36, 5, 1, 1, 0)
  }

  /** Row `index` of the catalog; every one of the 70 is safe to filter with. */
  function PresetAt(index: PresetNumber): (p: Preset)
    ensures Filterable(p)
  {
    var column := index % 7;
    match index / 7
    case 0 => Values0(column)
    case 1 => Values1(column)
    case 2 => Values2(column)
    case 3 => Values3(column)
    case 4 => Values4(column)
    case 5 => Values5(column)
    case 6 => Values6(column)
    case 7 => Values7(column)
    case 8 => Values8(column)
    case _ => Values9(column)
  }

  /** The preset a frame is filtered with. */
  function Adjusted(index: PresetNumber, a: SettingsText.Adjustment): (p: Preset)
    requires SettingsText.InRange(a)
    ensures Filterable(p)
    ensures a == SettingsText.NO_ADJUSTMENT ==> p == PresetAt(index)
  {
    var p := PresetAt(index);
    p.(contrast := CText.Saturated((p.contrast + a.contrast as int32) as int, -100, 100) as int32,
       noise := CText.Saturated((p.noise + a.grain as int32) as int, 0, 100) as int32,
       temporal := CText.Saturated((p.temporal + a.motion as int32) as int, 0, 100) as int32)
  }

  /** v is x, held between two limits. */
  predicate HeldBetween(v: int, x: int, low: int, high: int) {
    (x <= low ==> v == low) && (low <= x <= high ==> v == x) && (x >= high ==> v == high)
  }

  /** A user's adjustments add to contrast, grain and persistence, held in range, and change nothing else. */
  lemma AdjustmentsAdd(index: PresetNumber, a: SettingsText.Adjustment)
    requires SettingsText.InRange(a)
    ensures var p, q := PresetAt(index), Adjusted(index, a);
            && q == p.(contrast := q.contrast, noise := q.noise, temporal := q.temporal)
            && HeldBetween(q.contrast as int, p.contrast as int + a.contrast, -100, 100)
            && HeldBetween(q.noise as int, p.noise as int + a.grain, 0, 100)
            && HeldBetween(q.temporal as int, p.temporal as int + a.motion, 0, 100)
  {
    hide PresetAt;
  }

  const FRAME_WIDTH: int32 := 80
  const FRAME_HEIGHT: int32 := 60

  /** Whatever a settings file holds, every style it can select filters a camera frame without leaving any array
      or the int range, for every frame time up to the largest whose tick plus a row number is an int. */
  lemma EveryStyleIsSafe(text: string, index: PresetNumber, seed: bv32, timestamp: int64)
    requires 0 <= timestamp && TruncDiv(timestamp as int, 31) + FRAME_HEIGHT as int <= 0x8000_0000
    ensures var s := SettingsText.Loaded(text);
            && |s.adjustments| == PRESET_COUNT && SettingsText.InRange(s.adjustments[index])
            && 0 <= s.intensity <= 100
            && WellSet(JobFor(FRAME_WIDTH, FRAME_HEIGHT, Adjusted(index, s.adjustments[index]), s.intensity as int32,
                              seed, timestamp))
  {
    hide SettingsText.Loaded, SettingsText.InRange, Adjusted, Seeded, NextRandom, PresetAt, Filterable, Shift;
    SettingsText.LoadedIsBounded(text);
    var s := SettingsText.Loaded(text);
    var p := Adjusted(index, s.adjustments[index]);
    var tick := TruncDiv(timestamp as int, 31);
    assert Cast32(tick) as int == tick;
    JobIsWellSet(FRAME_WIDTH, FRAME_HEIGHT, p, s.intensity as int32, seed, timestamp);
  }

  /** The sum processFrame forms for a row when it decides whether to tear it. */
  predicate RowTickFits(y: int32, tick: int32) {
    -0x8000_0000 <= y as int + tick as int < 0x8000_0000
  }

  /** For a tearing style and any time, negative or wrapped ones too, what the filter asks of the tick is exactly
      that no row's sum overflows; for times whose tick is an int that is a bound on the time. */
  lemma TearingTimeIsExact(index: PresetNumber, a: SettingsText.Adjustment, intensity: int32, seed: bv32,
          timestamp: int64)
    requires SettingsText.InRange(a) && Tear in PresetAt(index).flags
    ensures var j := JobFor(FRAME_WIDTH, FRAME_HEIGHT, Adjusted(index, a), intensity, seed, timestamp);
            Indexable(j) <==> forall y: int32 | 0 <= y < FRAME_HEIGHT :: RowTickFits(y, j.tick)
    ensures 0 <= timestamp && TruncDiv(timestamp as int, 31) < 0x8000_0000 ==>
              var tick := Cast32(TruncDiv(timestamp as int, 31));
              (forall y: int32 | 0 <= y < FRAME_HEIGHT :: RowTickFits(y, tick))
              <==> timestamp as int <= 31 * (0x8000_0000 - FRAME_HEIGHT as int) + 30
  {
    hide SettingsText.InRange, Seeded, NextRandom, PresetAt, Filterable, Shift, Cast32, TruncDiv;
    var tick := Cast32(TruncDiv(timestamp as int, 31));
    LastRowDecides(tick);
    if 0 <= timestamp && TruncDiv(timestamp as int, 31) < 0x8000_0000 {
      TickIs(timestamp);
    }
  }

  lemma LastRowDecides(tick: int32)
    ensures (forall y: int32 | 0 <= y < FRAME_HEIGHT :: RowTickFits(y, tick))
            <==> tick as int + FRAME_HEIGHT as int <= 0x8000_0000
  {
    assert RowTickFits(59, tick) <==> tick as int + 59 < 0x8000_0000;
  }

  lemma TickIs(timestamp: int64)
    requires 0 <= timestamp && TruncDiv(timestamp as int, 31) < 0x8000_0000
    ensures Cast32(TruncDiv(timestamp as int, 31)) as int == timestamp as int / 31
  {}
}
