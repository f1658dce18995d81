/** processFrame: the colour filter, in 32-bit integer arithmetic over whole frames. Each stage is a function
    whose contract bounds its result, so that the stages compose without leaving the int range. */
module FrameFilter {
  import opened MachineInt

  datatype Pixel = Pixel(r: uint8, g: uint8, b: uint8)
  datatype Rgb = Rgb(r: int32, g: int32, b: int32)

  datatype Effect = Mono | Dither | Scanlines | Pixelate | Temporal | Jitter | Vignette | Edge | Halftone | Thermal
                  | Cga | Invert | Ascii | Tear | Bloom | Mask

  datatype Preset = Preset(flags: set<Effect>, red: int32, green: int32, blue: int32, saturation: int32,
                           contrast: int32, posterize: int32, noise: int32, pixelSize: int32, temporal: int32)

  /** The presets the filter is safe for: every catalog preset under every adjustment is one. */
  predicate Filterable(p: Preset) {
    && 0 <= p.red <= 200 && 0 <= p.green <= 200 && 0 <= p.blue <= 200
    && -100 <= p.saturation <= 100 && -100 <= p.contrast <= 100
    && 0 <= p.posterize < 256 && 0 <= p.noise <= 100 && 0 <= p.pixelSize < 256 && 0 <= p.temporal <= 100
  }

  predicate Within(c: Rgb, bound: int32)
    requires bound >= 0
  {
    -bound <= c.r <= bound && -bound <= c.g <= bound && -bound <= c.b <= bound
  }

  // ---- arithmetic ------------------------------------------------------------------------------

  lemma MulBound(a: int, b: int, high: int, top: int)
    requires -high <= a <= high && 0 <= b <= top
    ensures -high * top <= a * b <= high * top
  {
    MulMono(a, high, b);
    MulMono(-high, a, b);
    MulMono(b, top, high);
  }

  function Clamp8(value: int32): (r: int32)
    ensures 0 <= r <= 255 && (0 <= value <= 255 ==> r == value)
  {
    if value < 0 then 0 else if value > 255 then 255 else value
  }

  function Abs(value: int32): (r: int32)
    requires value > -0x8000_0000
  {
    if value < 0 then -value else value
  }

  /** value * rate / 100, truncated. */
  function Percent(value: int32, rate: int32): (r: int32)
    requires -20000 <= value <= 20000 && 0 <= rate <= 200
    ensures -2 * Abs(value) <= r <= 2 * Abs(value)
    ensures rate == 100 ==> r == value
    ensures rate <= 100 ==> -Abs(value) <= r <= Abs(value)
  {
    MulBound(value as int, rate as int, Abs(value) as int, rate as int);
    MulBound(Abs(value) as int, rate as int, 20000, 200);
    MulMono(rate as int, 200, Abs(value) as int);
    if rate <= 100 then assert -Abs(value) as int * 100 <= value as int * rate as int <= Abs(value) as int * 100 by {
        MulMono(rate as int, 100, Abs(value) as int);
      } Quot(value * rate, 100)
    else Quot(value * rate, 100)
  }

  /** How far a signed setting has been dialled in, as a rate around 100. */
  function Rate(setting: int32, amount: int32): (rate: int32)
    requires -100 <= setting <= 100 && 0 <= amount <= 100
    ensures 0 <= rate <= 200
    ensures amount == 0 ==> rate == 100
  {
    MulBound(setting as int, amount as int, 100, 100);
    100 + Quot(setting * amount, 100)
  }

  function Weighted(c: Rgb): (m: int32)
    requires Within(c, 10000)
    ensures -10000 <= m <= 10000
    ensures 0 <= c.r <= 255 && 0 <= c.g <= 255 && 0 <= c.b <= 255 ==> 0 <= m <= 255
    ensures forall bound | bound >= 0 && Within(c, bound) :: -bound <= m <= bound
  {
    (c.r * 77 + c.g * 150 + c.b * 29) / 256
  }

  function Grey(p: Pixel): (m: int32)
    ensures 0 <= m <= 255
  {
    Weighted(Wide(p))
  }

  function Wide(p: Pixel): (c: Rgb)
    ensures Within(c, 255) && 0 <= c.r && 0 <= c.g && 0 <= c.b
  {
    Rgb(p.r as int32, p.g as int32, p.b as int32)
  }

  function Clamped(c: Rgb): (p: Pixel)
    ensures 0 <= c.r <= 255 && 0 <= c.g <= 255 && 0 <= c.b <= 255 ==> Wide(p) == c
  {
    Pixel(Clamp8(c.r) as uint8, Clamp8(c.g) as uint8, Clamp8(c.b) as uint8)
  }

  // ---- the stages, in order --------------------------------------------------------------------

  function Saturated(c: Rgb, grey: int32, p: Preset, amount: int32): (r: Rgb)
    requires Within(c, 255) && 0 <= c.r && 0 <= c.g && 0 <= c.b && 0 <= grey <= 255
    requires Filterable(p) && 0 <= amount <= 100
    ensures Within(r, 765)
    ensures amount == 0 ==> r == c
  {
    var rate := Rate(p.saturation, amount);
    Rgb(grey + Percent(c.r - grey, rate), grey + Percent(c.g - grey, rate), grey + Percent(c.b - grey, rate))
  }

  function Tinted(c: Rgb, p: Preset, amount: int32): (r: Rgb)
    requires Within(c, 765) && Filterable(p) && 0 <= amount <= 100
    ensures Within(r, 1530)
    ensures amount == 0 ==> r == c
  {
    Rgb(Percent(c.r, Rate(p.red - 100, amount)), Percent(c.g, Rate(p.green - 100, amount)),
        Percent(c.b, Rate(p.blue - 100, amount)))
  }

  function Contrasted(c: Rgb, p: Preset, amount: int32): (r: Rgb)
    requires Within(c, 1530) && Filterable(p) && 0 <= amount <= 100
    ensures Within(r, 3444)
    ensures amount == 0 ==> r == c
  {
    var rate := Rate(p.contrast, amount);
    Rgb(128 + Percent(c.r - 128, rate), 128 + Percent(c.g - 128, rate), 128 + Percent(c.b - 128, rate))
  }

  function Toned(c: Rgb, p: Preset): (r: Rgb)
    requires Within(c, 3444) && Filterable(p)
    ensures Within(r, 6888)
  {
    var m := Weighted(c);
    Rgb(Percent(m, p.red), Percent(m, p.green), Percent(m, p.blue))
  }

  function Heat(grey: int32): (r: Rgb)
    requires 0 <= grey <= 255
    ensures Within(r, 255)
  {
    Rgb(Clamp8((grey - 96) * 3), Clamp8(255 - Abs(grey - 128) * 2), Clamp8((128 - grey) * 2))
  }

  function Outlined(c: Rgb, p: Preset, edge: int32): (r: Rgb)
    requires Within(c, 6888) && 0 <= edge <= 255
    ensures Within(r, 7143)
  {
    if Edge in p.flags then
      if Invert in p.flags then Rgb(255 - edge, 255 - edge, 255 - edge)
      else Rgb(Clamp8(c.r - edge), Clamp8(c.g - edge), Clamp8(c.b - edge))
    else if Invert in p.flags then Rgb(255 - c.r, 255 - c.g, 255 - c.b)
    else c
  }

  function FourColours(c: Rgb, grey: int32): (r: Rgb)
    ensures Within(r, 255)
    ensures r in {Rgb(0, 0, 0), Rgb(255, 45, 220), Rgb(30, 235, 245), Rgb(255, 255, 255)}
  {
    var selector := (if c.r > c.b then 1 else 0) + (if c.g > c.r then 2 else 0);
    if grey <= 150 && grey < 55 then Rgb(0, 0, 0)
    else if selector == 1 then Rgb(255, 45, 220)
    else if selector == 2 then Rgb(30, 235, 245)
    else Rgb(255, 255, 255)
  }

  const BAYER: seq<int32> := [0, 8, 2, 10, 12, 4, 14, 6, 3, 11, 1, 9, 15, 7, 13, 5]

  function Dithered(c: Rgb, y: int32, x: int32): (r: Rgb)
    requires Within(c, 7143) && 0 <= y && 0 <= x
    ensures Within(r, 7175)
  {
    var d := (BAYER[y % 4 * 4 + x % 4] - 8) * 4;
    Rgb(c.r + d, c.g + d, c.b + d)
  }

  function Dotted(c: Rgb, grey: int32, pixel: int32, y: int32, x: int32): (r: Rgb)
    requires Within(c, 7175) && 0 <= grey <= 255 && 1 <= pixel < 256 && 0 <= y && 0 <= x
    ensures Within(r, 7175)
  {
    var cell := if pixel < 3 then 3 else pixel;
    var dx, dy := x % cell * 2 - cell, y % cell * 2 - cell;
    MulBound(255 - grey as int, cell as int, 255, 255);
    var radius := Quot((255 - grey) * cell, 255);
    SquareBound(dx as int, 255);
    SquareBound(dy as int, 255);
    SquareBound(radius as int, 255);
    if dx * dx + dy * dy < radius * radius then Rgb(18, 18, 18)
    else Rgb(Clamp8(c.r + 70), Clamp8(c.g + 68), Clamp8(c.b + 60))
  }

  lemma SquareBound(a: int, high: int)
    requires -high <= a <= high
    ensures 0 <= a * a <= high * high
  {
    if a >= 0 { MulBound(a, a, high, high); MulMono(0, a, a); }
    else { MulBound(-a, -a, high, high); MulMono(0, -a, -a); assert -a * -a == a * a; }
  }

  function Lettered(c: Rgb, grey: int32, pixel: int32, y: int32, x: int32): (r: Rgb)
    requires Within(c, 7175) && 0 <= grey <= 255 && 1 <= pixel < 256 && 0 <= y && 0 <= x
    ensures Within(r, 7175)
  {
    var cell := if pixel < 4 then 4 else pixel;
    if x % cell == grey / 32 % cell || y % cell == cell - 1 then c
    else Rgb(Percent(c.r, 28), Percent(c.g, 28), Percent(c.b, 28))
  }

  /** The level a channel falls on when only `levels` values are kept. */
  function Level(value: int32, levels: int32): (r: int32)
    requires 2 <= levels < 16
    ensures 0 <= r <= 255
  {
    MulBound(Clamp8(value) as int, levels as int - 1, 255, 15);
    var step := Clamp8(value) * (levels - 1) / 255;
    StepBound(Clamp8(value) as int, levels as int - 1);
    step * 255 / (levels - 1)
  }

  lemma StepBound(v: int, n: int)
    requires 0 <= v <= 255 && 1 <= n < 16
    ensures 0 <= v * n / 255 <= n && 0 <= v * n / 255 * 255 / n <= 255
  {
    MulMono(v, 255, n);
    MulMono(0, v, n);
    DivBounds(v * n, 255);
    DivBounds(v * n / 255 * 255, n);
    if v * n / 255 * 255 / n > 255 {
      MulMono(256, v * n / 255 * 255 / n, n);
    }
  }

  function Posterized(c: Rgb, p: Preset): (r: Rgb)
    requires Within(c, 7175)
    ensures Within(r, 7175)
  {
    if 2 <= p.posterize < 16 then Rgb(Level(c.r, p.posterize), Level(c.g, p.posterize), Level(c.b, p.posterize)) else c
  }

  /** One channel mixed with the frame before. */
  function Mixed(value: int32, old_: int32, mix: int32): (r: int32)
    requires -7175 <= value <= 7175 && 0 <= old_ <= 255 && 0 <= mix <= 100
    ensures value <= r <= old_ || old_ <= r <= value
    ensures mix == 0 ==> r == value
  {
    Share(value as int, 100 - mix as int);
    Share(old_ as int, mix as int);
    Between(if value <= old_ then value as int else old_ as int, if value <= old_ then old_ as int else value as int,
            mix as int);
    Quot(value * (100 - mix) + old_ * mix, 100)
  }

  lemma Between(low: int, high: int, mix: int)
    requires 0 <= mix <= 100 && low <= high
    ensures 100 * low <= low * (100 - mix) + high * mix <= 100 * high
    ensures 100 * low <= high * (100 - mix) + low * mix <= 100 * high
  {
    MulMono(low, high, mix);
    MulMono(low, high, 100 - mix);
    assert low * (100 - mix) == 100 * low - low * mix;
    assert high * (100 - mix) == 100 * high - high * mix;
  }

  lemma Share(v: int, mix: int)
    requires 0 <= mix <= 100
    ensures v >= 0 ==> 0 <= v * mix <= 100 * v
    ensures v <= 0 ==> 100 * v <= v * mix <= 0
  {
    if v >= 0 {
      MulMono(mix, 100, v);
      MulMono(0, mix, v);
    } else {
      MulMono(mix, 100, -v);
      MulMono(0, mix, -v);
    }
  }

  function MixOf(p: Preset, amount: int32): (mix: int32)
    requires Filterable(p) && 0 <= amount <= 100
    ensures 0 <= mix <= 100
    ensures amount == 0 ==> mix == 0
  {
    MulBound(p.temporal as int, amount as int, 100, 100);
    MulMono(0, amount as int, p.temporal as int);
    Quot(p.temporal * amount, 100)
  }

  /** Persistence: the pixel of the frame before, mixed in by the preset's share of the intensity. */
  function Persisted(c: Rgb, before: Pixel, mix: int32): (r: Rgb)
    requires Within(c, 7175) && 0 <= mix <= 100
    ensures Within(r, 7175)
    ensures mix == 0 ==> r == c
  {
    var b := Wide(before);
    Rgb(Mixed(c.r, b.r, mix), Mixed(c.g, b.g, mix), Mixed(c.b, b.b, mix))
  }

  function Lifted(c: Rgb, grey: int32, amount: int32): (r: Rgb)
    requires Within(c, 7175) && 0 <= grey <= 255 && 0 <= amount <= 100
    ensures Within(r, 7203)
    ensures amount == 0 ==> r == c
  {
    MulBound(if grey > 185 then grey as int - 185 else 0, amount as int, 70, 100);
    var lift := if grey > 185 then Quot((grey - 185) * amount, 250) else 0;
    Rgb(c.r + lift, c.g + lift, c.b + lift)
  }

  /** Grain: the low byte of a draw, centred and scaled by the preset's noise and the intensity. */
  function Grained(c: Rgb, draw: bv32, p: Preset, amount: int32): (r: Rgb)
    requires Within(c, 7203) && Filterable(p) && 0 <= amount <= 100
    ensures Within(r, 7303)
    ensures p.noise == 0 || amount == 0 ==> r == c
  {
    var n := LowBits(draw, 256) - 128;
    MulBound(n as int, p.noise as int, 128, 100);
    MulBound(n as int * p.noise as int, amount as int, 12800, 100);
    var grain := Quot(n * p.noise * amount, 12800);
    Rgb(c.r + grain, c.g + grain, c.b + grain)
  }

  function LowBits(draw: bv32, n: int32): (r: int32)
    requires 0 < n
    ensures 0 <= r < n
  {
    (draw as int % n as int) as int32
  }

  // ---- one pixel -------------------------------------------------------------------------------

  datatype Site = Site(input: Pixel, edge: int32, before: seq<Pixel>, draw: bv32, pixel: int32, y: int32, x: int32)

  predicate Sane(s: Site) {
    0 <= s.edge <= 255 && |s.before| <= 1 && 1 <= s.pixel < 256 && 0 <= s.y && 0 <= s.x
  }

  /** Presets without an effect that intensity does not scale. */
  predicate Quiet(p: Preset) {
    && p.flags !! {Mono, Dither, Pixelate, Jitter, Edge, Halftone, Thermal, Cga, Invert, Ascii, Tear}
    && !(2 <= p.posterize < 16)
  }

  /** Up to the palette stages: saturation, tint, contrast, then the replacing effects. */
  function Coloured(s: Site, p: Preset, amount: int32): (r: Rgb)
    requires Sane(s) && Filterable(p) && 0 <= amount <= 100
    ensures Within(r, 7143)
    ensures amount == 0 && Quiet(p) ==> r == Wide(s.input)
  {
    var grey := Grey(s.input);
    var c := Contrasted(Tinted(Saturated(Wide(s.input), grey, p, amount), p, amount), p, amount);
    var toned := if Mono in p.flags then Toned(c, p) else c;
    var heated := if Thermal in p.flags then Heat(grey) else toned;
    var outlined := Outlined(heated, p, s.edge);
    if Cga in p.flags then FourColours(outlined, grey) else outlined
  }

  /** The screen stages: dither, halftone, characters, posterizing. */
  function Screened(c: Rgb, s: Site, p: Preset): (r: Rgb)
    requires Sane(s) && Within(c, 7143)
    ensures Within(r, 7175)
    ensures Quiet(p) ==> r == c
  {
    var grey := Grey(s.input);
    var dithered := if Dither in p.flags then Dithered(c, s.y, s.x) else c;
    var dotted := if Halftone in p.flags then Dotted(dithered, grey, s.pixel, s.y, s.x) else dithered;
    var lettered := if Ascii in p.flags then Lettered(dotted, grey, s.pixel, s.y, s.x) else dotted;
    Posterized(lettered, p)
  }

  /** The whole pixel: colour, screen, persistence, bloom, grain, and the final clamp. */
  function Shaded(s: Site, p: Preset, amount: int32): Pixel
    requires Sane(s) && Filterable(p) && 0 <= amount <= 100
  {
    var c := Screened(Coloured(s, p, amount), s, p);
    var persisted := if Temporal in p.flags && s.before != [] && p.temporal != 0
                     then Persisted(c, s.before[0], MixOf(p, amount)) else c;
    var lifted := if Bloom in p.flags then Lifted(persisted, Grey(s.input), amount) else persisted;
    Clamped(if p.noise != 0 then Grained(lifted, s.draw, p, amount) else lifted)
  }

  // ---- one frame -------------------------------------------------------------------------------

  function NextRandom(state: bv32): bv32 {
    var x := if state != 0 then state else 0x6d2b79f5;
    var y := x ^ (x << 13);
    var z := y ^ (y >> 17);
    z ^ (z << 5)
  }

  function Cast32(v: int): int32 {
    ((v + 0x8000_0000) % 0x1_0000_0000 - 0x8000_0000) as int32
  }

  /** What one call fixes before its loops: the clamped intensity, the jitter and the random state. */
  datatype Job = Job(width: int32, height: int32, preset: Preset, amount: int32, tick: int32, jitterX: int32,
                     jitterY: int32, random: bv32)

  function Seeded(seed: bv32, timestamp: int64): bv32 {
    seed ^ ((TruncDiv(timestamp as int, 67) % 0x1_0000_0000) as bv32) ^ 0x9e3779b9
  }

  function Shift(draw: bv32, n: int32, back: int32): (r: int32)
    requires 0 < n && 0 <= back <= n
    ensures -back <= r < n - back
  {
    LowBits(draw, n) - back
  }

  function JobFor(width: int32, height: int32, preset: Preset, intensity: int32, seed: bv32, timestamp: int64): Job {
    var amount := if intensity < 0 then 0 else if intensity > 100 then 100 else intensity;
    var tick := Cast32(TruncDiv(timestamp as int, 31));
    var s0 := Seeded(seed, timestamp);
    if Jitter in preset.flags then
      var s1 := NextRandom(s0);
      var s2 := NextRandom(s1);
      Job(width, height, preset, amount, tick, Shift(s1, 7, 3), Shift(s2, 5, 2), s2)
    else
      Job(width, height, preset, amount, tick, 0, 0, s0)
  }

  /** Every pixel offset of the frame fits an int. */
  predicate Offsets(width: int, height: int) {
    width * height < 0x8000_0000
  }

  predicate Spans(length: int, width: int, height: int) {
    length >= width * height
  }

  /** The sizes a frame can have: pixel offsets, and a coordinate plus the largest shift, stay in an int; and so
      does a row number plus the tick when tearing adds the two. */
  predicate Indexable(j: Job) {
    && j.width > 0 && j.height > 0 && Offsets(j.width as int, j.height as int)
    && (Jitter in j.preset.flags || Tear in j.preset.flags ==>
          j.width <= 0x7fff_ffff - 13 && j.height <= 0x7fff_ffff - 1)
    && (Tear in j.preset.flags ==> j.tick as int + j.height as int <= 0x8000_0000)
  }

  predicate WellSet(j: Job) {
    && Indexable(j) && Filterable(j.preset) && 0 <= j.amount <= 100
    && -3 <= j.jitterX <= 3 && -2 <= j.jitterY <= 2
    && (Jitter !in j.preset.flags ==> j.jitterX == 0 && j.jitterY == 0)
  }

  function PixelSize(p: Preset): (size: int32)
    requires Filterable(p)
    ensures 1 <= size < 256
  {
    if Pixelate in p.flags then (if p.pixelSize < 2 then 2 else p.pixelSize) else 1
  }

  /** A shifted coordinate, held inside the frame and snapped to the pixel grid. */
  function Snapped(at: int32, size: int32, pixel: int32): (r: int32)
    requires size > 0 && 1 <= pixel
    ensures 0 <= r < size
    ensures 0 <= at < size && pixel == 1 ==> r == at
  {
    var held := if at < 0 then 0 else if at >= size then size - 1 else at;
    FloorDiv(held as int, pixel as int);
    DivBounds(held as int, pixel as int);
    if pixel > 1 then held - held % pixel else held
  }

  predicate Tears(j: Job, y: int32)
    requires WellSet(j) && 0 <= y < j.height
  {
    Tear in j.preset.flags && Rem(y + j.tick, 47) < 3
  }

  /** The random state when a row begins, and after some pixels of it. */
  ghost function BeforeRow(j: Job, y: nat): bv32
    requires WellSet(j) && y <= j.height as int
    decreases y, 0, 0
  {
    if y == 0 then j.random else After(j, y - 1, j.width as int)
  }

  ghost function After(j: Job, y: nat, x: nat): bv32
    requires WellSet(j) && y < j.height as int && x <= j.width as int
    decreases y, 1, x
  {
    if x > 0 then
      if j.preset.noise != 0 then NextRandom(After(j, y, x - 1)) else After(j, y, x - 1)
    else if Tears(j, y as int32) then NextRandom(BeforeRow(j, y)) else BeforeRow(j, y)
  }

  ghost function TearOf(j: Job, y: nat): (tear: int32)
    requires WellSet(j) && y < j.height as int
    ensures -11 <= tear <= 11
    ensures Tear !in j.preset.flags ==> tear == 0
  {
    if Tears(j, y as int32) then Shift(NextRandom(BeforeRow(j, y)), 23, 11) else 0
  }

  // ---- the specification of a pixel ------------------------------------------------------------

  lemma OffsetInside(y: int, x: int, width: int, height: int)
    requires 0 <= y < height && 0 <= x < width
    ensures 0 <= y * width && y * width + x < width * height
  {
    MulMono(0, y, width);
    MulMono(y + 1, height, width);
  }

  function At(frame: seq<Pixel>, width: int, height: int, y: int, x: int): Pixel
    requires 0 <= y < height && 0 <= x < width && Spans(|frame|, width, height)
  {
    OffsetInside(y, x, width, height);
    frame[y * width + x]
  }

  function Previous(k: int32): int32
    requires 0 <= k
  {
    if k > 0 then k - 1 else k
  }

  function Next(k: int32, size: int32): int32
    requires 0 <= k < size
  {
    if k + 1 < size then k + 1 else k
  }

  /** Edge strength: the two central differences of luma, clamped at the frame border. */
  function EdgeAt(frame: seq<Pixel>, width: int32, height: int32, y: int32, x: int32): (edge: int32)
    requires 0 <= y < height && 0 <= x < width && Spans(|frame|, width as int, height as int)
    ensures 0 <= edge <= 255
  {
    var left := Grey(At(frame, width as int, height as int, y as int, Previous(x) as int));
    var right := Grey(At(frame, width as int, height as int, y as int, Next(x, width) as int));
    var up := Grey(At(frame, width as int, height as int, Previous(y) as int, x as int));
    var down := Grey(At(frame, width as int, height as int, Next(y, height) as int, x as int));
    EdgeOf(left, right, up, down)
  }

  function EdgeOf(left: int32, right: int32, up: int32, down: int32): (edge: int32)
    requires 0 <= left <= 255 && 0 <= right <= 255 && 0 <= up <= 255 && 0 <= down <= 255
    ensures 0 <= edge <= 255
  {
    Clamp8((Abs(right - left) + Abs(down - up)) * 2)
  }

  /** What the filter looks at for the pixel in row y and column x; `before` is empty when there is no history. */
  ghost function SiteOf(source: seq<Pixel>, before: seq<Pixel>, j: Job, y: int32, x: int32): (s: Site)
    requires WellSet(j) && 0 <= y < j.height && 0 <= x < j.width
    requires Spans(|source|, j.width as int, j.height as int)
    requires before == [] || Spans(|before|, j.width as int, j.height as int)
    ensures Sane(s)
  {
    var w, h := j.width as int, j.height as int;
    var pixel := PixelSize(j.preset);
    var sy := Snapped(y + j.jitterY, j.height, pixel);
    var sx := Snapped(x + j.jitterX + TearOf(j, y as int), j.width, pixel);
    Site(At(source, w, h, sy as int, sx as int),
         if Edge in j.preset.flags then EdgeAt(source, j.width, j.height, y, x) else 0,
         if before == [] then [] else [At(before, w, h, y as int, x as int)],
         NextRandom(After(j, y as int, x as int)), pixel, y, x)
  }

  /** The filtered frame, pixel by pixel; beyond the frame the buffer keeps its contents. */
  ghost function FilteredAt(source: seq<Pixel>, before: seq<Pixel>, j: Job, was: seq<Pixel>, k: nat): Pixel
    requires WellSet(j) && k < |was|
    requires Spans(|source|, j.width as int, j.height as int)
    requires before == [] || Spans(|before|, j.width as int, j.height as int)
  {
    var y, x := Row(k, j.width as int), Column(k, j.width as int);
    if 0 <= y < j.height as int then
      Shaded(SiteOf(source, before, j, y as int32, x as int32), j.preset, j.amount)
    else was[k]
  }

  // ---- the loops -------------------------------------------------------------------------------

  method PixelAt(frame: array<Pixel>, width: int32, ghost height: int32, y: int32, x: int32) returns (p: Pixel)
    requires 0 <= y < height && 0 <= x < width && Spans(frame.Length, width as int, height as int)
    requires Offsets(width as int, height as int)
    ensures p == At(frame[..], width as int, height as int, y as int, x as int)
  {
    OffsetInside(y as int, x as int, width as int, height as int);
    p := frame[y * width + x];
  }

  method LumaAt(frame: array<Pixel>, width: int32, height: int32, y: int32, x: int32) returns (m: int32)
    requires 0 <= y < height && 0 <= x < width && Spans(frame.Length, width as int, height as int)
    requires Offsets(width as int, height as int)
    ensures m == Grey(At(frame[..], width as int, height as int, y as int, x as int))
    ensures 0 <= m <= 255
  {
    hide Offsets, Spans, Grey, At;
    var p := PixelAt(frame, width, height, y, x);
    m := Grey(p);
  }

  method EdgeStrength(frame: array<Pixel>, width: int32, height: int32, y: int32, x: int32) returns (edge: int32)
    requires 0 <= y < height && 0 <= x < width && Spans(frame.Length, width as int, height as int)
    requires Offsets(width as int, height as int)
    ensures edge == EdgeAt(frame[..], width, height, y, x)
  {
    hide Offsets, Spans, Grey, At, EdgeOf;
    var right := LumaAt(frame, width, height, y, Next(x, width));
    var left := LumaAt(frame, width, height, y, Previous(x));
    var down := LumaAt(frame, width, height, Next(y, height), x);
    var up := LumaAt(frame, width, height, Previous(y), x);
    edge := EdgeOf(left, right, up, down);
  }

  ghost function History(previous: array?<Pixel>): seq<Pixel>
    reads previous
  {
    if previous == null then [] else previous[..]
  }

  predicate Remembers(p: Preset) {
    Temporal in p.flags && p.temporal != 0
  }

  /** What the inner loop reads for one pixel; the history is read only for persistence. */
  method Look(source: array<Pixel>, previous: array?<Pixel>, j: Job, pixel: int32, sy: int32, y: int32, x: int32,
          tear: int32, draw: bv32)
    returns (s: Site)
    requires WellSet(j) && 0 <= y < j.height && 0 <= x < j.width && pixel == PixelSize(j.preset)
    requires Spans(source.Length, j.width as int, j.height as int)
    requires History(previous) == [] || Spans(|History(previous)|, j.width as int, j.height as int)
    requires previous != null ==> previous.Length > 0
    requires sy == Snapped(y + j.jitterY, j.height, pixel) && tear == TearOf(j, y as int)
    ensures var t := SiteOf(source[..], History(previous), j, y, x);
            s == t.(draw := draw, before := if Remembers(j.preset) then t.before else [])
  {
    hide Offsets, Spans, EdgeAt, At, NextRandom, After, TearOf, Snapped, PixelSize, Tears, Filterable, Sane;
    var sx := Snapped(x + j.jitterX + tear, j.width, pixel);
    var input := PixelAt(source, j.width, j.height, sy, sx);
    var edge := 0;
    if Edge in j.preset.flags {
      edge := EdgeStrength(source, j.width, j.height, y, x);
    }
    var before := [];
    if Temporal in j.preset.flags && previous != null && j.preset.temporal != 0 {
      var q := PixelAt(previous, j.width, j.height, y, x);
      before := [q];
    }
    s := Site(input, edge, before, draw, pixel, y, x);
  }

  /** The history matters only to persistence, the draw only to grain. */
  lemma SameShade(s: Site, t: Site, p: Preset, amount: int32)
    requires Sane(s) && Sane(t) && Filterable(p) && 0 <= amount <= 100
    requires s == t.(before := s.before, draw := s.draw)
    requires Temporal in p.flags && p.temporal != 0 ==> s.before == t.before
    requires p.noise != 0 ==> s.draw == t.draw
    ensures Shaded(s, p, amount) == Shaded(t, p, amount)
  {
    assert Coloured(s, p, amount) == Coloured(t, p, amount) by { hide Saturated, Tinted, Contrasted; }
  }

  /** The calls that filter anything. */
  predicate Runs(source: array?<Pixel>, output: array?<Pixel>, width: int32, height: int32) {
    source != null && output != null && width > 0 && height > 0
  }

  lemma JobIsWellSet(width: int32, height: int32, preset: Preset, intensity: int32, seed: bv32, timestamp: int64)
    requires Filterable(preset) && Indexable(JobFor(width, height, preset, intensity, seed, timestamp))
    ensures WellSet(JobFor(width, height, preset, intensity, seed, timestamp))
  {
    hide Filterable, Offsets, Cast32, Seeded, NextRandom;
  }

  method ProcessFrame(source: array?<Pixel>, output: array?<Pixel>, previous: array?<Pixel>, width: int32,
          height: int32, preset: Preset, intensity: int32, seed: bv32, timestamp: int64)
    requires Runs(source, output, width, height) ==>
               && Filterable(preset) && Indexable(JobFor(width, height, preset, intensity, seed, timestamp))
               && Spans(source.Length, width as int, height as int)
               && Spans(output.Length, width as int, height as int)
               && (previous != null ==> Spans(previous.Length, width as int, height as int))
               && output != source && output != previous
    modifies output
    ensures output != null && !Runs(source, output, width, height) ==> output[..] == old(output[..])
    ensures Runs(source, output, width, height) ==>
              var j := JobFor(width, height, preset, intensity, seed, timestamp);
              && WellSet(j) && Spans(source.Length, j.width as int, j.height as int)
              && (History(previous) == [] || Spans(|History(previous)|, j.width as int, j.height as int))
              && forall k: nat | k < output.Length ::
                   output[k] == FilteredAt(source[..], History(previous), j, old(output[..]), k)
  {
    if source == null || output == null || width <= 0 || height <= 0 {
      return;
    }
    JobIsWellSet(width, height, preset, intensity, seed, timestamp);
    OffsetInside(0, 0, width as int, height as int);
    var j := JobFor(width, height, preset, intensity, seed, timestamp);
    FilterRows(source, output, previous, j);
  }

  method FilterRows(source: array<Pixel>, output: array<Pixel>, previous: array?<Pixel>, j: Job)
    requires WellSet(j) && Spans(source.Length, j.width as int, j.height as int)
    requires Spans(output.Length, j.width as int, j.height as int)
    requires History(previous) == [] || Spans(|History(previous)|, j.width as int, j.height as int)
    requires previous != null ==> previous.Length > 0
    requires output != source && output != previous
    modifies output
    ensures forall k: nat | k < output.Length ::
              output[k] == FilteredAt(source[..], History(previous), j, old(output[..]), k)
  {
    hide Offsets, Spans, Row, Column, FilteredAt, Shaded, SiteOf, TearOf, Tears, BeforeRow, After, NextRandom, Snapped;
    hide PixelSize, Filterable;
    ghost var was, src, before, w := output[..], source[..], History(previous), j.width as int;
    var state := j.random;
    var pixel := PixelSize(j.preset);
    RandomStart(j);
    var y: int32 := 0;
    while y < j.height
      invariant 0 <= y <= j.height
      invariant source[..] == src && History(previous) == before
      invariant state == BeforeRow(j, y as int)
      invariant forall k: nat | k < output.Length ::
        output[k] == if Row(k, w) < y as int then FilteredAt(src, before, j, was, k) else was[k]
    {
      var sy := Snapped(y + j.jitterY, j.height, pixel);
      var tear := 0;
      RowStart(j, y as int);
      if Tears(j, y) {
        state := NextRandom(state);
        tear := Shift(state, 23, 11);
      }
      var x: int32 := 0;
      while x < j.width
        invariant 0 <= x <= j.width
        invariant source[..] == src && History(previous) == before
        invariant state == After(j, y as int, x as int)
        invariant forall k: nat | k < output.Length ::
          output[k] == if Row(k, w) < y as int || (Row(k, w) == y as int && Column(k, w) < x as int)
                       then FilteredAt(src, before, j, was, k) else was[k]
      {
        PixelStep(j, y as int, x as int);
        var draw := NextRandom(state);
        var s := Look(source, previous, j, pixel, sy, y, x, tear, draw);
        var p := Shaded(s, j.preset, j.amount);
        PositionOf(y as int, x as int, w);
        OffsetSpanned(y as int, x as int, w, j.height as int, output.Length);
        PixelIsRight(src, before, j, was, y, x, s);
        output[y * j.width + x] := p;
        if j.preset.noise != 0 {
          state := draw;
        }
        x := x + 1;
      }
      y := y + 1;
    }
    RowsEnd(src, before, j, was);
  }

  lemma RandomStart(j: Job)
    requires WellSet(j)
    ensures BeforeRow(j, 0) == j.random
  {}

  /** How a row begins and how the row before it ended. */
  lemma RowStart(j: Job, y: nat)
    requires WellSet(j) && y < j.height as int
    ensures BeforeRow(j, y + 1) == After(j, y, j.width as int)
    ensures Tears(j, y as int32) ==> After(j, y, 0) == NextRandom(BeforeRow(j, y))
                                     && TearOf(j, y) == Shift(NextRandom(BeforeRow(j, y)), 23, 11)
    ensures !Tears(j, y as int32) ==> After(j, y, 0) == BeforeRow(j, y) && TearOf(j, y) == 0
  {
    hide Offsets, Filterable, NextRandom, Tears, Shift;
  }

  lemma PixelStep(j: Job, y: nat, x: nat)
    requires WellSet(j) && y < j.height as int && x < j.width as int
    ensures After(j, y, x + 1) == if j.preset.noise != 0 then NextRandom(After(j, y, x)) else After(j, y, x)
  {
    hide Offsets, Filterable, NextRandom, Tears;
  }

  lemma OffsetSpanned(y: int, x: int, width: int, height: int, length: int)
    requires 0 <= y < height && 0 <= x < width && Spans(length, width, height) && Offsets(width, height)
    ensures 0 <= y * width && y * width + x < length && y * width + x < 0x8000_0000
  {
    OffsetInside(y, x, width, height);
  }

  /** The pixel the loop stores is the one the specification names at that offset. */
  lemma PixelIsRight(src: seq<Pixel>, before: seq<Pixel>, j: Job, was: seq<Pixel>, y: int32, x: int32, s: Site)
    requires WellSet(j) && 0 <= y < j.height && 0 <= x < j.width
    requires Spans(|src|, j.width as int, j.height as int) && Spans(|was|, j.width as int, j.height as int)
    requires before == [] || Spans(|before|, j.width as int, j.height as int)
    requires var t := SiteOf(src, before, j, y, x);
             s == t.(draw := NextRandom(After(j, y as int, x as int)),
                     before := if Remembers(j.preset) then t.before else [])
    ensures 0 <= y as int * j.width as int + x as int < |was|
    ensures Sane(s) && FilteredAt(src, before, j, was, y as int * j.width as int + x as int)
                       == Shaded(s, j.preset, j.amount)
  {
    hide Offsets, Filterable, Shaded, Spans, NextRandom, After, Row, Column, At, EdgeAt, Snapped, TearOf;
    PositionOf(y as int, x as int, j.width as int);
    OffsetSpanned(y as int, x as int, j.width as int, j.height as int, |was|);
    SameShade(s, SiteOf(src, before, j, y, x), j.preset, j.amount);
  }

  lemma RowsEnd(src: seq<Pixel>, before: seq<Pixel>, j: Job, was: seq<Pixel>)
    requires WellSet(j) && Spans(|src|, j.width as int, j.height as int)
    requires before == [] || Spans(|before|, j.width as int, j.height as int)
    ensures forall k: nat | k < |was| && Row(k, j.width as int) >= j.height as int ::
              FilteredAt(src, before, j, was, k) == was[k]
  {
    hide Offsets, Filterable, Shaded, Spans, Row, Column, SiteOf;
  }

  // ---- what the frame shows ----------------------------------------------------------------------

  /** At intensity zero a preset without fixed effects returns the camera frame. */
  lemma ZeroIntensityShowsTheSource(src: seq<Pixel>, before: seq<Pixel>, j: Job, was: seq<Pixel>, y: int32, x: int32)
    requires WellSet(j) && j.amount == 0 && Quiet(j.preset) && 0 <= y < j.height && 0 <= x < j.width
    requires Spans(|src|, j.width as int, j.height as int) && Spans(|was|, j.width as int, j.height as int)
    requires before == [] || Spans(|before|, j.width as int, j.height as int)
    ensures var k := y as int * j.width as int + x as int;
            0 <= k < |was| && k < |src| && FilteredAt(src, before, j, was, k) == src[k]
  {
    hide Offsets, Row, Column, After, NextRandom, Coloured, Screened, Lifted, Grained, Persisted, EdgeAt, Spans;
    PositionOf(y as int, x as int, j.width as int);
    OffsetSpanned(y as int, x as int, j.width as int, j.height as int, |was|);
    OffsetSpanned(y as int, x as int, j.width as int, j.height as int, |src|);
    var s := SiteOf(src, before, j, y, x);
    assert s.input == src[y as int * j.width as int + x as int];
    ShadedQuietly(s, j.preset);
  }

  lemma ShadedQuietly(s: Site, p: Preset)
    requires Sane(s) && Filterable(p) && Quiet(p)
    ensures Shaded(s, p, 0) == s.input
  {
    hide Coloured, Screened, Lifted, Grained, Persisted, MixOf, Grey;
    var c := Screened(Coloured(s, p, 0), s, p);
    assert c == Wide(s.input);
  }

  /** Without jitter, tearing and grain the picture does not depend on the seed or on the time of the frame. */
  lemma SteadyPicture(src: seq<Pixel>, before: seq<Pixel>, j: Job, i: Job, was: seq<Pixel>, y: int32, x: int32)
    requires WellSet(j) && WellSet(i) && i == j.(random := i.random, tick := i.tick)
    requires Jitter !in j.preset.flags && Tear !in j.preset.flags && j.preset.noise == 0
    requires 0 <= y < j.height && 0 <= x < j.width
    requires Spans(|src|, j.width as int, j.height as int) && Spans(|was|, j.width as int, j.height as int)
    requires before == [] || Spans(|before|, j.width as int, j.height as int)
    ensures var k := y as int * j.width as int + x as int;
            0 <= k < |was| && FilteredAt(src, before, j, was, k) == FilteredAt(src, before, i, was, k)
  {
    hide Offsets, Row, Column, After, NextRandom, Shaded, EdgeAt, Spans, At, Snapped;
    PositionOf(y as int, x as int, j.width as int);
    OffsetSpanned(y as int, x as int, j.width as int, j.height as int, |was|);
    SameShade(SiteOf(src, before, i, y, x), SiteOf(src, before, j, y, x), j.preset, j.amount);
  }

  /** Posterizing keeps black and white. Doing it twice changes nothing exactly for 2, 4 and 6 levels. */
  lemma PosterizedAgain(levels: int32)
    requires 2 <= levels < 16
    ensures Level(0, levels) == 0 && Level(255, levels) == 255
    ensures (forall v: int32 | 0 <= v <= 255 :: Level(Level(v, levels), levels) == Level(v, levels))
            <==> levels == 2 || levels == 4 || levels == 6
  {
    hide Level;
    var n := levels - 1;
    LevelIs(0, levels, 0);
    LevelIs(255, levels, n);
    QuotientIs(n as int * 255, n as int, 255);
    if levels == 2 || levels == 4 || levels == 6 {
      forall v: int32 | 0 <= v <= 255 ensures Level(Level(v, levels), levels) == Level(v, levels) {
        EvenLevels(v, levels);
      }
    } else {
      var v := FirstLevel(levels);
      assert Level(Level(v, levels), levels) != Level(v, levels);
    }
  }

  lemma LevelIs(v: int32, levels: int32, step: int32)
    requires 2 <= levels < 16 && 0 <= v <= 255 && 0 <= step <= levels - 1
    requires step as int * 255 <= v as int * (levels as int - 1) < (step as int + 1) * 255
    ensures Level(v, levels) == step * 255 / (levels - 1)
  {
    QuotientIs(v as int * (levels as int - 1), 255, step as int);
  }

  lemma EvenLevels(v: int32, levels: int32)
    requires (levels == 2 || levels == 4 || levels == 6) && 0 <= v <= 255
    ensures Level(Level(v, levels), levels) == Level(v, levels)
  {
    hide Level;
    if levels == 2 {
      LevelIs(v, levels, v / 255);
      LevelIs(Level(v, levels), levels, v / 255);
    } else if levels == 4 {
      LevelIs(v, levels, v * 3 / 255);
      LevelIs(Level(v, levels), levels, v * 3 / 255);
    } else {
      LevelIs(v, levels, v * 5 / 255);
      LevelIs(Level(v, levels), levels, v * 5 / 255);
    }
  }

  /** The least value on level one. When the steps do not divide 255, its own level falls back to zero. */
  lemma FirstLevel(levels: int32) returns (v: int32)
    requires 2 <= levels < 16 && levels != 2 && levels != 4 && levels != 6
    ensures 1 < v <= 255 && Level(v, levels) == v - 1 && Level(v - 1, levels) == 0
  {
    hide Level;
    var n := levels - 1;
    DivBounds(255, n as int);
    var q := 255 / n;
    NoMultiple(q as int, n as int);
    if q < 17 {
      MulMono(q as int, 16, n as int);
    }
    MulMono(n as int, n as int * q as int, 1);
    MulMono(2, n as int, q as int);
    LevelIs(q + 1, levels, 1);
    LevelIs(q, levels, 0);
    QuotientIs(0, n as int, 0);
    v := q + 1;
  }

  lemma NoMultiple(q: int, n: int)
    requires n == 2 || n == 4 || 6 <= n <= 14
    ensures q * n != 255
  {
    if n == 2 { assert q * 2 != 255; }
    else if n == 4 { assert q * 4 != 255; }
    else if n == 6 { assert q * 6 != 255; }
    else if n == 7 { assert q * 7 != 255; }
    else if n == 8 { assert q * 8 != 255; }
    else if n == 9 { assert q * 9 != 255; }
    else if n == 10 { assert q * 10 != 255; }
    else if n == 11 { assert q * 11 != 255; }
    else if n == 12 { assert q * 12 != 255; }
    else if n == 13 { assert q * 13 != 255; }
    else { assert q * 14 != 255; }
  }

  // ---- what single effects do ----------------------------------------------------------------------

  lemma DivMono(a: int, b: int, n: int)
    requires 0 <= a <= b && 0 < n
    ensures a / n <= b / n
  {
    DivBounds(a, n);
    DivBounds(b, n);
    if a / n > b / n {
      MulMono(b / n + 1, a / n, n);
    }
  }

  lemma LevelOf(v: int32, levels: int32) returns (step: int)
    requires 0 <= v <= 255 && 2 <= levels < 16
    ensures step == v as int * (levels as int - 1) / 255 && 0 <= step
    ensures Level(v, levels) as int == step * 255 / (levels as int - 1)
    ensures step * 255 <= v as int * (levels as int - 1) < step * 255 + 255
  {
    step := v as int * (levels as int - 1) / 255;
    MulMono(0, v as int, levels as int - 1);
    DivBounds(v as int * (levels as int - 1), 255);
    StepBound(v as int, levels as int - 1);
  }

  /** Posterizing never reorders two values. */
  lemma LevelKeepsOrder(v: int32, w: int32, levels: int32)
    requires 0 <= v <= w <= 255 && 2 <= levels < 16
    ensures Level(v, levels) <= Level(w, levels)
  {
    hide Level;
    var n := levels as int - 1;
    var a := LevelOf(v, levels);
    var b := LevelOf(w, levels);
    MulMono(v as int, w as int, n);
    DivMono(a * 255, b * 255, n);
  }

  predicate Neutral(c: Rgb) {
    c.r == c.g == c.b
  }

  /** A monochrome preset with one tint for all channels gives a grey picture, unless it is printed in dots. */
  lemma MonochromeStaysGrey(s: Site, p: Preset, amount: int32)
    requires Sane(s) && Filterable(p) && 0 <= amount <= 100
    requires Mono in p.flags && Thermal !in p.flags && Halftone !in p.flags && p.red == p.green == p.blue
    requires s.before != [] ==> Neutral(Wide(s.before[0]))
    ensures Neutral(Wide(Shaded(s, p, amount)))
  {
    hide Percent, Weighted, Mixed, Level, LowBits, MixOf;
    NeutralColour(s, p, amount);
    NeutralScreen(Coloured(s, p, amount), s, p);
    hide Coloured, Screened;
  }

  lemma NeutralColour(s: Site, p: Preset, amount: int32)
    requires Sane(s) && Filterable(p) && 0 <= amount <= 100
    requires Mono in p.flags && Thermal !in p.flags && p.red == p.green == p.blue
    ensures Neutral(Coloured(s, p, amount))
  {
    hide Percent, Weighted, Saturated, Tinted, Contrasted, Grey;
  }

  lemma NeutralScreen(c: Rgb, s: Site, p: Preset)
    requires Sane(s) && Within(c, 7143) && Neutral(c) && Halftone !in p.flags
    ensures Neutral(Screened(c, s, p))
  {
    hide Percent, Level, Grey;
  }
}
