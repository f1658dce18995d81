/** What processFrame does to a pixel, said by inequalities between whole numbers instead of by its arithmetic: a
    relation between a source pixel, the stages in their order, and the stored pixel. The filter meets it, and it
    leaves no choice. Then what single stages show in the picture. */
module FilterReference {
  import opened MachineInt
  import opened FrameFilter

  datatype Color = Color(r: int, g: int, b: int)

  function Plain(c: Rgb): Color {
    Color(c.r as int, c.g as int, c.b as int)
  }

  function Stored(p: Pixel): Color {
    Color(p.r as int, p.g as int, p.b as int)
  }

  // ---- rounding ----------------------------------------------------------------------------------------

  /** q is the quotient of a and b without its fraction. */
  predicate Rounded(q: int, a: int, b: int) {
    && b > 0
    && (a >= 0 ==> q * b <= a < (q + 1) * b)
    && (a <= 0 ==> (q - 1) * b < a <= q * b)
  }

  /** v is x, held between 0 and 255. */
  predicate Held(v: int, x: int) {
    (x <= 0 ==> v == 0) && (0 <= x <= 255 ==> v == x) && (x >= 255 ==> v == 255)
  }

  lemma NotBelow(q: int, k: int, b: int)
    requires b > 0 && q * b < (k + 1) * b
    ensures q <= k
  {
    if q >= k + 1 {
      MulMono(k + 1, q, b);
    }
  }

  lemma RoundedOnce(q: int, k: int, a: int, b: int)
    requires Rounded(q, a, b) && Rounded(k, a, b)
    ensures q == k
  {
    if a >= 0 {
      NotBelow(q, k, b);
      NotBelow(k, q, b);
    } else {
      NotBelow(q - 1, k - 1, b);
      NotBelow(k - 1, q - 1, b);
    }
  }

  lemma QuotientRounds(a: int, b: int)
    requires b > 0
    ensures Rounded(TruncDiv(a, b), a, b)
  {
    var m := if a >= 0 then a else -a;
    DivBounds(m, b);
    if a < 0 {
      var q := m / b;
      assert TruncDiv(a, b) == -q;
      assert (-q - 1) * b == -(q + 1) * b;
      assert -q * b == -(q * b);
    } else if a == 0 {
      assert TruncDiv(a, b) == 0;
    }
  }

  lemma QuotRounds(a: int32, b: int32)
    requires b > 0
    ensures Rounded(Quot(a, b) as int, a as int, b as int)
  {
    QuotientRounds(a as int, b as int);
  }

  lemma PercentRounds(value: int32, rate: int32)
    requires -20000 <= value <= 20000 && 0 <= rate <= 200
    ensures Rounded(Percent(value, rate) as int, value as int * rate as int, 100)
  {
    MulBound(value as int, rate as int, 20000, 200);
    QuotRounds(value * rate, 100);
  }

  // ---- the stages as relations -----------------------------------------------------------------------------

  /** Luma: the weighted mean, without its fraction downward. */
  predicate IsLuma(m: int, c: Color) {
    256 * m <= 77 * c.r + 150 * c.g + 29 * c.b < 256 * (m + 1)
  }

  /** A setting of some percent, dialled in by the intensity. */
  predicate IsRate(rate: int, setting: int, amount: int) {
    Rounded(rate - 100, setting * amount, 100)
  }

  /** Every channel's distance from a centre is scaled by a rate. */
  predicate Spreads(c: Color, d: Color, centre: int, rate: int) {
    && Rounded(d.r - centre, (c.r - centre) * rate, 100)
    && Rounded(d.g - centre, (c.g - centre) * rate, 100)
    && Rounded(d.b - centre, (c.b - centre) * rate, 100)
  }

  /** Each channel is scaled by a rate of its own. */
  predicate Scales(c: Color, d: Color, red: int, green: int, blue: int) {
    Rounded(d.r, c.r * red, 100) && Rounded(d.g, c.g * green, 100) && Rounded(d.b, c.b * blue, 100)
  }

  /** Red rises from luma 96 on, blue falls to nothing at 128, green peaks there. */
  predicate IsHeat(d: Color, t: int) {
    && Held(d.r, 3 * (t - 96)) && Held(d.b, 2 * (128 - t))
    && Held(d.g, 255 - 2 * (if t >= 128 then t - 128 else 128 - t))
  }

  /** Edges are drawn dark into the picture, or bright on nothing when inverted; without edges inverting negates. */
  predicate Outlines(c: Color, d: Color, flags: set<Effect>, edge: int) {
    if Edge in flags && Invert in flags then d.r == d.g == d.b == 255 - edge
    else if Edge in flags then Held(d.r, c.r - edge) && Held(d.g, c.g - edge) && Held(d.b, c.b - edge)
    else if Invert in flags then c.r + d.r == c.g + d.g == c.b + d.b == 255
    else d == c
  }

  /** Black in the dark; elsewhere magenta, cyan or white by which channels lead. */
  predicate Paints(c: Color, d: Color, luma: int) {
    && (luma < 55 ==> d == Color(0, 0, 0))
    && (luma >= 55 && c.r > c.b && c.g <= c.r ==> d == Color(255, 45, 220))
    && (luma >= 55 && c.r <= c.b && c.g > c.r ==> d == Color(30, 235, 245))
    && (luma >= 55 && (c.r > c.b <==> c.g > c.r) ==> d == Color(255, 255, 255))
  }

  /** The ordered dither of two by two, and of four by four from it. */
  function Pair(y: int, x: int): int {
    if y % 2 == 0 then 2 * (x % 2) else 3 - 2 * (x % 2)
  }

  function Bayer(y: int, x: int): int {
    4 * Pair(y, x) + Pair(y / 2, x / 2)
  }

  predicate Offset(c: Color, d: Color, n: int) {
    d == Color(c.r + n, c.g + n, c.b + n)
  }

  /** Twice the distance from the middle of the cell, squared. */
  function FromMiddle(y: int, x: int, cell: int): int
    requires cell > 0
  {
    (2 * (x % cell) - cell) * (2 * (x % cell) - cell) + (2 * (y % cell) - cell) * (2 * (y % cell) - cell)
  }

  /** Dark dots, the larger the darker the pixel, on a paper that is lighter than the picture. */
  predicate Dots(c: Color, d: Color, y: int, x: int, cell: int, radius: int)
    requires cell > 0
  {
    if FromMiddle(y, x, cell) < radius * radius then d == Color(18, 18, 18)
    else Held(d.r, c.r + 70) && Held(d.g, c.g + 68) && Held(d.b, c.b + 60)
  }

  /** In every cell one column chosen by the luma and the last row stay, the rest is dimmed. */
  predicate Letters(c: Color, d: Color, y: int, x: int, cell: int, luma: int)
    requires cell > 0
  {
    if x % cell == luma / 32 % cell || y % cell == cell - 1 then d == c else Scales(c, d, 28, 28, 28)
  }

  /** w is the k-th of so many evenly spaced values, the last one not above v. */
  ghost predicate IsLevel(w: int, v: int, k: int, levels: int) {
    exists h :: Held(h, v) && k * 255 <= h * (levels - 1) < (k + 1) * 255 && Rounded(w, k * 255, levels - 1)
  }

  ghost predicate OnLevel(w: int, v: int, levels: int) {
    exists k :: IsLevel(w, v, k, levels)
  }

  ghost predicate Posterizes(c: Color, d: Color, levels: int) {
    if 2 <= levels < 16 then OnLevel(d.r, c.r, levels) && OnLevel(d.g, c.g, levels) && OnLevel(d.b, c.b, levels)
    else d == c
  }

  /** A mixture with the pixel of the frame before. */
  predicate Mixes(c: Color, d: Color, old_: Color, mix: int) {
    && Rounded(d.r, c.r * (100 - mix) + old_.r * mix, 100)
    && Rounded(d.g, c.g * (100 - mix) + old_.g * mix, 100)
    && Rounded(d.b, c.b * (100 - mix) + old_.b * mix, 100)
  }

  // ---- the whole pixel ---------------------------------------------------------------------------------------

  /** The colours a pixel goes through, and the whole numbers found on the way. */
  datatype Course = Course(luma: int, saturation: int, red: int, green: int, blue: int, contrast: int, tone: int,
                           radius: int, mix: int, lift: int, grain: int,
                           saturated: Color, tinted: Color, contrasted: Color, toned: Color, heated: Color,
                           outlined: Color, painted: Color, dithered: Color, dotted: Color, lettered: Color,
                           posterized: Color, mixed: Color, lifted: Color, grained: Color)

  /** The settings at this intensity. */
  predicate Settles(s: Site, p: Preset, amount: int32, k: Course) {
    && IsLuma(k.luma, Stored(s.input))
    && IsRate(k.saturation, p.saturation as int, amount as int)
    && IsRate(k.red, p.red as int - 100, amount as int) && IsRate(k.green, p.green as int - 100, amount as int)
    && IsRate(k.blue, p.blue as int - 100, amount as int) && IsRate(k.contrast, p.contrast as int, amount as int)
  }

  /** Colour: saturation around the luma, tint, contrast around the middle, then the replacing effects. */
  predicate Colours(s: Site, p: Preset, k: Course) {
    && Spreads(Stored(s.input), k.saturated, k.luma, k.saturation)
    && Scales(k.saturated, k.tinted, k.red, k.green, k.blue)
    && Spreads(k.tinted, k.contrasted, 128, k.contrast)
    && IsLuma(k.tone, k.contrasted)
    && (if Mono in p.flags then
          Scales(Color(k.tone, k.tone, k.tone), k.toned, p.red as int, p.green as int, p.blue as int)
        else k.toned == k.contrasted)
    && (if Thermal in p.flags then IsHeat(k.heated, k.luma) else k.heated == k.toned)
    && Outlines(k.heated, k.outlined, p.flags, s.edge as int)
    && (if Cga in p.flags then Paints(k.outlined, k.painted, k.luma) else k.painted == k.outlined)
  }

  /** Screen: dither, halftone dots, characters, levels. */
  ghost predicate Screens(s: Site, p: Preset, k: Course)
    requires s.pixel >= 1
  {
    var y, x, pixel := s.y as int, s.x as int, s.pixel as int;
    && (if Dither in p.flags then Offset(k.painted, k.dithered, 4 * (Bayer(y, x) - 8)) else k.dithered == k.painted)
    && (if Halftone in p.flags then
          var cell := if pixel < 3 then 3 else pixel;
          Rounded(k.radius, (255 - k.luma) * cell, 255) && Dots(k.dithered, k.dotted, y, x, cell, k.radius)
        else k.radius == 0 && k.dotted == k.dithered)
    && (if Ascii in p.flags then Letters(k.dotted, k.lettered, y, x, if pixel < 4 then 4 else pixel, k.luma)
        else k.lettered == k.dotted)
    && Posterizes(k.lettered, k.posterized, p.posterize as int)
  }

  /** Light: persistence, bloom, grain, and the bytes that are stored. */
  predicate Lights(s: Site, p: Preset, amount: int32, k: Course, out: Pixel) {
    && (if Temporal in p.flags && s.before != [] && p.temporal != 0 then
          Rounded(k.mix, p.temporal as int * amount as int, 100)
          && Mixes(k.posterized, k.mixed, Stored(s.before[0]), k.mix)
        else k.mix == 0 && k.mixed == k.posterized)
    && (if Bloom in p.flags && k.luma > 185 then Rounded(k.lift, (k.luma - 185) * amount as int, 250) else k.lift == 0)
    && Offset(k.mixed, k.lifted, k.lift)
    && Rounded(k.grain, (s.draw as int % 256 - 128) * p.noise as int * amount as int, 12800)
    && Offset(k.lifted, k.grained, k.grain)
    && Held(out.r as int, k.grained.r) && Held(out.g as int, k.grained.g) && Held(out.b as int, k.grained.b)
  }

  ghost predicate Filters(s: Site, p: Preset, amount: int32, k: Course, out: Pixel)
    requires s.pixel >= 1
  {
    Settles(s, p, amount, k) && Colours(s, p, k) && Screens(s, p, k) && Lights(s, p, amount, k, out)
  }

  // ---- the filter's stages meet the relations --------------------------------------------------------------

  lemma WeightedIsLuma(c: Rgb)
    requires Within(c, 10000)
    ensures IsLuma(Weighted(c) as int, Plain(c))
  {}

  lemma GreyIsLuma(p: Pixel)
    ensures IsLuma(Grey(p) as int, Stored(p))
  {
    hide Weighted, IsLuma;
    WeightedIsLuma(Wide(p));
  }

  lemma RateFollows(setting: int32, amount: int32)
    requires -100 <= setting <= 100 && 0 <= amount <= 100
    ensures IsRate(Rate(setting, amount) as int, setting as int, amount as int)
  {
    MulBound(setting as int, amount as int, 100, 100);
    QuotRounds(setting * amount, 100);
  }

  lemma SaturatedFollows(c: Rgb, grey: int32, p: Preset, amount: int32)
    requires Within(c, 255) && 0 <= c.r && 0 <= c.g && 0 <= c.b && 0 <= grey <= 255
    requires Filterable(p) && 0 <= amount <= 100
    ensures Spreads(Plain(c), Plain(Saturated(c, grey, p, amount)), grey as int, Rate(p.saturation, amount) as int)
  {
    var rate := Rate(p.saturation, amount);
    hide Rate, Filterable;
    ChannelSpreads(c.r, grey, rate);
    ChannelSpreads(c.g, grey, rate);
    ChannelSpreads(c.b, grey, rate);
    hide Percent, Rounded;
  }

  lemma ChannelSpreads(v: int32, centre: int32, rate: int32)
    requires -1530 <= v <= 1530 && 0 <= centre <= 255 && 0 <= rate <= 200
    ensures Rounded((centre + Percent(v - centre, rate)) as int - centre as int,
                    (v as int - centre as int) * rate as int, 100)
  {
    hide Percent, Rounded;
    PercentRounds(v - centre, rate);
  }

  lemma TintedFollows(c: Rgb, p: Preset, amount: int32)
    requires Within(c, 765) && Filterable(p) && 0 <= amount <= 100
    ensures Scales(Plain(c), Plain(Tinted(c, p, amount)), Rate(p.red - 100, amount) as int,
                   Rate(p.green - 100, amount) as int, Rate(p.blue - 100, amount) as int)
  {
    hide Percent, Rate, Rounded;
    PercentRounds(c.r, Rate(p.red - 100, amount));
    PercentRounds(c.g, Rate(p.green - 100, amount));
    PercentRounds(c.b, Rate(p.blue - 100, amount));
  }

  lemma ContrastedFollows(c: Rgb, p: Preset, amount: int32)
    requires Within(c, 1530) && Filterable(p) && 0 <= amount <= 100
    ensures Spreads(Plain(c), Plain(Contrasted(c, p, amount)), 128, Rate(p.contrast, amount) as int)
  {
    hide Percent, Rate, Rounded;
    var rate := Rate(p.contrast, amount);
    PercentRounds(c.r - 128, rate);
    PercentRounds(c.g - 128, rate);
    PercentRounds(c.b - 128, rate);
  }

  lemma TonedFollows(c: Rgb, p: Preset)
    requires Within(c, 3444) && Filterable(p)
    ensures var m := Weighted(c) as int;
            Scales(Color(m, m, m), Plain(Toned(c, p)), p.red as int, p.green as int, p.blue as int)
  {
    hide Percent, Rounded, Weighted;
    PercentRounds(Weighted(c), p.red);
    PercentRounds(Weighted(c), p.green);
    PercentRounds(Weighted(c), p.blue);
  }

  lemma HeatFollows(t: int32)
    requires 0 <= t <= 255
    ensures IsHeat(Plain(Heat(t)), t as int)
  {}

  lemma OutlinedFollows(c: Rgb, p: Preset, edge: int32)
    requires Within(c, 6888) && 0 <= edge <= 255
    ensures Outlines(Plain(c), Plain(Outlined(c, p, edge)), p.flags, edge as int)
  {}

  lemma FourColoursFollows(c: Rgb, grey: int32)
    ensures Paints(Plain(c), Plain(FourColours(c, grey)), grey as int)
  {}

  /** The sixteen thresholds are the four-by-four ordered dither. */
  lemma DitheredFollows(c: Rgb, y: int32, x: int32)
    requires Within(c, 7143) && 0 <= y && 0 <= x
    ensures Offset(Plain(c), Plain(Dithered(c, y, x)), 4 * (Bayer(y as int, x as int) - 8))
  {
    BayerRepeats(y as int, x as int);
    assert BAYER[y % 4 * 4 + x % 4] as int == Bayer((y % 4) as int, (x % 4) as int) by {
      BayerTable((y % 4) as int, (x % 4) as int);
    }
  }

  lemma BayerTable(y: int, x: int)
    requires 0 <= y < 4 && 0 <= x < 4
    ensures BAYER[y * 4 + x] as int == Bayer(y, x)
  {
    if y == 0 {} else if y == 1 {} else if y == 2 {} else {}
    if x == 0 {} else if x == 1 {} else if x == 2 {} else {}
  }

  lemma BayerRepeats(y: int, x: int)
    requires 0 <= y && 0 <= x
    ensures Bayer(y, x) == Bayer(y % 4, x % 4)
  {
    QuarterParity(y);
    QuarterParity(x);
  }

  lemma QuarterParity(k: int)
    requires 0 <= k
    ensures k % 2 == k % 4 % 2 && k / 2 % 2 == k % 4 / 2 % 2
  {}

  /** A coordinate against the middle of its cell, in both kinds of integers. */
  lemma SameSquare(k: int32, cell: int32) returns (d: int32)
    requires 0 <= k && 1 <= cell < 256
    ensures d == k % cell * 2 - cell && -255 <= d <= 255 && 0 <= d as int * d as int <= 65025
    ensures d as int == 2 * (k as int % cell as int) - cell as int
  {
    d := k % cell * 2 - cell;
    SquareBound(d as int, 255);
  }

  lemma RadiusOf(grey: int32, cell: int32) returns (radius: int32)
    requires 0 <= grey <= 255 && 1 <= cell < 256
    ensures 0 <= (255 - grey as int) * cell as int <= 65025 && radius == Quot((255 - grey) * cell, 255)
    ensures 0 <= radius <= 255 && 0 <= radius as int * radius as int <= 65025
    ensures Rounded(radius as int, (255 - grey as int) * cell as int, 255)
  {
    MulBound(255 - grey as int, cell as int, 255, 255);
    MulMono(0, 255 - grey as int, cell as int);
    QuotRounds((255 - grey) * cell, 255);
    radius := Quot((255 - grey) * cell, 255);
    SquareBound(radius as int, 255);
  }

  lemma DottedFollows(c: Rgb, grey: int32, pixel: int32, y: int32, x: int32) returns (radius: int)
    requires Within(c, 7175) && 0 <= grey <= 255 && 1 <= pixel < 256 && 0 <= y && 0 <= x
    ensures var cell := if pixel < 3 then 3 else pixel as int;
            && Rounded(radius, (255 - grey as int) * cell, 255)
            && Dots(Plain(c), Plain(Dotted(c, grey, pixel, y, x)), y as int, x as int, cell, radius)
  {
    var cell := if pixel < 3 then 3 else pixel;
    var dx := SameSquare(x, cell);
    var dy := SameSquare(y, cell);
    var r := RadiusOf(grey, cell);
    hide Rounded, Quot;
    radius := r as int;
    var square := dx * dx + dy * dy;
    assert square as int == FromMiddle(y as int, x as int, cell as int);
    assert (r * r) as int == radius * radius;
    hide FromMiddle;
    assert square < r * r <==> FromMiddle(y as int, x as int, cell as int) < radius * radius;
  }

  lemma LetteredFollows(c: Rgb, grey: int32, pixel: int32, y: int32, x: int32)
    requires Within(c, 7175) && 0 <= grey <= 255 && 1 <= pixel < 256 && 0 <= y && 0 <= x
    ensures Letters(Plain(c), Plain(Lettered(c, grey, pixel, y, x)), y as int, x as int,
                    if pixel < 4 then 4 else pixel as int, grey as int)
  {
    hide Percent, Rounded;
    PercentRounds(c.r, 28);
    PercentRounds(c.g, 28);
    PercentRounds(c.b, 28);
  }

  lemma LevelFollows(v: int32, levels: int32)
    requires 2 <= levels < 16
    ensures OnLevel(Level(v, levels) as int, v as int, levels as int)
  {
    hide Level;
    var h := Clamp8(v);
    var k := LevelOf(h, levels);
    assert Level(v, levels) == Level(h, levels) by { LevelHolds(v, levels); }
    QuotientRounds(k * 255, levels as int - 1);
    assert Held(h as int, v as int) && k * 255 <= h as int * (levels as int - 1) < (k + 1) * 255;
    assert TruncDiv(k * 255, levels as int - 1) == k * 255 / (levels as int - 1);
    assert IsLevel(Level(v, levels) as int, v as int, k, levels as int);
  }

  lemma LevelHolds(v: int32, levels: int32)
    requires 2 <= levels < 16
    ensures Level(v, levels) == Level(Clamp8(v), levels)
  {}

  lemma PosterizedFollows(c: Rgb, p: Preset)
    requires Within(c, 7175)
    ensures Posterizes(Plain(c), Plain(Posterized(c, p)), p.posterize as int)
  {
    hide OnLevel, Level;
    if 2 <= p.posterize < 16 {
      LevelFollows(c.r, p.posterize);
      LevelFollows(c.g, p.posterize);
      LevelFollows(c.b, p.posterize);
    }
  }

  lemma MixedFollows(value: int32, old_: int32, mix: int32)
    requires -7175 <= value <= 7175 && 0 <= old_ <= 255 && 0 <= mix <= 100
    ensures Rounded(Mixed(value, old_, mix) as int, value as int * (100 - mix as int) + old_ as int * mix as int, 100)
  {
    Share(value as int, 100 - mix as int);
    Share(old_ as int, mix as int);
    QuotRounds(value * (100 - mix) + old_ * mix, 100);
  }

  lemma PersistedFollows(c: Rgb, before: Pixel, mix: int32)
    requires Within(c, 7175) && 0 <= mix <= 100
    ensures Mixes(Plain(c), Plain(Persisted(c, before, mix)), Stored(before), mix as int)
  {
    hide Mixed, Rounded;
    MixedFollows(c.r, before.r as int32, mix);
    MixedFollows(c.g, before.g as int32, mix);
    MixedFollows(c.b, before.b as int32, mix);
  }

  lemma LiftedFollows(c: Rgb, grey: int32, amount: int32) returns (lift: int)
    requires Within(c, 7175) && 0 <= grey <= 255 && 0 <= amount <= 100
    ensures if grey > 185 then Rounded(lift, (grey as int - 185) * amount as int, 250) else lift == 0
    ensures Offset(Plain(c), Plain(Lifted(c, grey, amount)), lift)
  {
    hide Rounded;
    lift := 0;
    if grey > 185 {
      MulBound(grey as int - 185, amount as int, 70, 100);
      QuotRounds((grey - 185) * amount, 250);
      lift := Quot((grey - 185) * amount, 250) as int;
    }
  }

  lemma GrainedFollows(c: Rgb, draw: bv32, p: Preset, amount: int32) returns (grain: int)
    requires Within(c, 7203) && Filterable(p) && 0 <= amount <= 100
    ensures Rounded(grain, (draw as int % 256 - 128) * p.noise as int * amount as int, 12800)
    ensures Offset(Plain(c), Plain(Grained(c, draw, p, amount)), grain)
  {
    hide Rounded;
    var n := LowBits(draw, 256) - 128;
    MulBound(n as int, p.noise as int, 128, 100);
    MulBound(n as int * p.noise as int, amount as int, 12800, 100);
    QuotRounds(n * p.noise * amount, 12800);
    grain := Quot(n * p.noise * amount, 12800) as int;
  }

  // ---- the filter meets the whole relation -----------------------------------------------------------------

  const NOTHING: Color := Color(0, 0, 0)

  lemma Settled(s: Site, p: Preset, amount: int32) returns (k: Course)
    requires Sane(s) && Filterable(p) && 0 <= amount <= 100
    ensures Settles(s, p, amount, k) && k.luma == Grey(s.input) as int
    ensures k.saturation == Rate(p.saturation, amount) as int && k.contrast == Rate(p.contrast, amount) as int
    ensures k.red == Rate(p.red - 100, amount) as int && k.green == Rate(p.green - 100, amount) as int
    ensures k.blue == Rate(p.blue - 100, amount) as int
  {
    hide Rate, IsLuma, IsRate, Stored, Grey;
    GreyIsLuma(s.input);
    RateFollows(p.saturation, amount);
    RateFollows(p.red - 100, amount);
    RateFollows(p.green - 100, amount);
    RateFollows(p.blue - 100, amount);
    RateFollows(p.contrast, amount);
    k := Course(Grey(s.input) as int, Rate(p.saturation, amount) as int, Rate(p.red - 100, amount) as int,
                Rate(p.green - 100, amount) as int, Rate(p.blue - 100, amount) as int,
                Rate(p.contrast, amount) as int, 0, 0, 0, 0, 0, NOTHING, NOTHING, NOTHING, NOTHING, NOTHING, NOTHING,
                NOTHING, NOTHING, NOTHING, NOTHING, NOTHING, NOTHING, NOTHING, NOTHING);
  }

  lemma ColouredFollows(s: Site, p: Preset, amount: int32, base: Course) returns (k: Course)
    requires Sane(s) && Filterable(p) && 0 <= amount <= 100
    requires base.luma == Grey(s.input) as int
    requires base.saturation == Rate(p.saturation, amount) as int && base.contrast == Rate(p.contrast, amount) as int
    requires base.red == Rate(p.red - 100, amount) as int && base.green == Rate(p.green - 100, amount) as int
    requires base.blue == Rate(p.blue - 100, amount) as int
    ensures Colours(s, p, k) && k.painted == Plain(Coloured(s, p, amount))
    ensures k == base.(saturated := k.saturated, tinted := k.tinted, contrasted := k.contrasted, tone := k.tone,
                       toned := k.toned, heated := k.heated, outlined := k.outlined, painted := k.painted)
  {
    hide Rate, Weighted, IsLuma, Spreads, Scales, IsHeat, Outlines, Paints;
    hide Saturated, Tinted, Contrasted, Toned, Heat, Outlined, FourColours, Grey;
    var grey := Grey(s.input);
    var a := Saturated(Wide(s.input), grey, p, amount);
    SaturatedFollows(Wide(s.input), grey, p, amount);
    var b := Tinted(a, p, amount);
    TintedFollows(a, p, amount);
    var c := Contrasted(b, p, amount);
    ContrastedFollows(b, p, amount);
    WeightedIsLuma(c);
    TonedFollows(c, p);
    var d := if Mono in p.flags then Toned(c, p) else c;
    HeatFollows(grey);
    var e := if Thermal in p.flags then Heat(grey) else d;
    OutlinedFollows(e, p, s.edge);
    var f := Outlined(e, p, s.edge);
    FourColoursFollows(f, grey);
    var g := if Cga in p.flags then FourColours(f, grey) else f;
    k := base.(saturated := Plain(a), tinted := Plain(b), contrasted := Plain(c), tone := Weighted(c) as int,
               toned := Plain(d), heated := Plain(e), outlined := Plain(f), painted := Plain(g));
    assert Stored(s.input) == Plain(Wide(s.input));
  }

  lemma ScreenedFollows(c: Rgb, s: Site, p: Preset, base: Course) returns (k: Course)
    requires Sane(s) && Within(c, 7143) && base.luma == Grey(s.input) as int && base.painted == Plain(c)
    ensures Screens(s, p, k) && k.posterized == Plain(Screened(c, s, p))
    ensures k == base.(dithered := k.dithered, dotted := k.dotted, radius := k.radius, lettered := k.lettered,
                       posterized := k.posterized)
  {
    hide Offset, Bayer, Rounded, Dots, Letters, Posterizes, Dithered, Dotted, Lettered, Posterized, Grey;
    var grey := Grey(s.input);
    DitheredFollows(c, s.y, s.x);
    var a := if Dither in p.flags then Dithered(c, s.y, s.x) else c;
    var radius := DottedFollows(a, grey, s.pixel, s.y, s.x);
    var b := if Halftone in p.flags then Dotted(a, grey, s.pixel, s.y, s.x) else a;
    LetteredFollows(b, grey, s.pixel, s.y, s.x);
    var d := if Ascii in p.flags then Lettered(b, grey, s.pixel, s.y, s.x) else b;
    PosterizedFollows(d, p);
    k := base.(dithered := Plain(a), dotted := Plain(b), radius := if Halftone in p.flags then radius else 0,
               lettered := Plain(d), posterized := Plain(Posterized(d, p)));
  }

  lemma MixFollows(p: Preset, amount: int32)
    requires Filterable(p) && 0 <= amount <= 100
    ensures Rounded(MixOf(p, amount) as int, p.temporal as int * amount as int, 100)
  {
    MulBound(p.temporal as int, amount as int, 100, 100);
    QuotRounds(p.temporal * amount, 100);
  }

  lemma ClampedHolds(c: Rgb)
    ensures var out := Clamped(c);
            Held(out.r as int, c.r as int) && Held(out.g as int, c.g as int) && Held(out.b as int, c.b as int)
  {}

  lemma NoGrain(draw: bv32, p: Preset, amount: int32)
    requires p.noise == 0
    ensures Rounded(0, (draw as int % 256 - 128) * p.noise as int * amount as int, 12800)
  {}

  lemma SameOffset(c: Color)
    ensures Offset(c, c, 0)
  {}

  predicate Persists(s: Site, p: Preset) {
    Temporal in p.flags && s.before != [] && p.temporal != 0
  }

  lemma MixPart(c: Rgb, s: Site, p: Preset, amount: int32) returns (d: Rgb, mix: int)
    requires Within(c, 7175) && Sane(s) && Filterable(p) && 0 <= amount <= 100
    ensures Within(d, 7175) && d == if Persists(s, p) then Persisted(c, s.before[0], MixOf(p, amount)) else c
    ensures if Persists(s, p) then Rounded(mix, p.temporal as int * amount as int, 100)
                                   && Mixes(Plain(c), Plain(d), Stored(s.before[0]), mix)
            else mix == 0
  {
    hide Rounded, Mixes, Persisted, MixOf, Stored, Plain;
    d, mix := c, 0;
    if Persists(s, p) {
      MixFollows(p, amount);
      PersistedFollows(c, s.before[0], MixOf(p, amount));
      d, mix := Persisted(c, s.before[0], MixOf(p, amount)), MixOf(p, amount) as int;
    }
  }

  lemma LiftPart(d: Rgb, grey: int32, p: Preset, amount: int32) returns (e: Rgb, lift: int)
    requires Within(d, 7175) && 0 <= grey <= 255 && 0 <= amount <= 100
    ensures Within(e, 7203) && e == if Bloom in p.flags then Lifted(d, grey, amount) else d
    ensures if Bloom in p.flags && grey > 185 then Rounded(lift, (grey as int - 185) * amount as int, 250)
            else lift == 0
    ensures Offset(Plain(d), Plain(e), lift)
  {
    hide Rounded, Offset, Lifted, Plain;
    e, lift := d, 0;
    if Bloom in p.flags {
      lift := LiftedFollows(d, grey, amount);
      e := Lifted(d, grey, amount);
    } else {
      SameOffset(Plain(d));
    }
  }

  lemma GrainPart(e: Rgb, draw: bv32, p: Preset, amount: int32) returns (f: Rgb, grain: int)
    requires Within(e, 7203) && Filterable(p) && 0 <= amount <= 100
    ensures f == if p.noise != 0 then Grained(e, draw, p, amount) else e
    ensures Rounded(grain, (draw as int % 256 - 128) * p.noise as int * amount as int, 12800)
    ensures Offset(Plain(e), Plain(f), grain)
  {
    hide Rounded, Offset, Grained, Plain;
    f, grain := e, 0;
    if p.noise != 0 {
      grain := GrainedFollows(e, draw, p, amount);
      f := Grained(e, draw, p, amount);
    } else {
      NoGrain(draw, p, amount);
      SameOffset(Plain(e));
    }
  }

  lemma LightFollows(s: Site, p: Preset, amount: int32, base: Course) returns (k: Course)
    requires Sane(s) && Filterable(p) && 0 <= amount <= 100
    requires base.luma == Grey(s.input) as int
    requires base.posterized == Plain(Screened(Coloured(s, p, amount), s, p))
    ensures Lights(s, p, amount, k, Shaded(s, p, amount))
    ensures k == base.(mix := k.mix, mixed := k.mixed, lift := k.lift, lifted := k.lifted, grain := k.grain,
                       grained := k.grained)
  {
    hide Offset, Rounded, Mixes, Held, Coloured, Screened, Persisted, Lifted, Grained, MixOf, Grey, Clamped, Plain;
    hide Filterable, Stored;
    var c := Screened(Coloured(s, p, amount), s, p);
    var d, mix := MixPart(c, s, p, amount);
    var e, lift := LiftPart(d, Grey(s.input), p, amount);
    var f, grain := GrainPart(e, s.draw, p, amount);
    assert Shaded(s, p, amount) == Clamped(f);
    hide Shaded;
    ClampedHolds(f);
    PlainParts(f);
    k := base.(mix := mix, mixed := Plain(d), lift := lift, lifted := Plain(e), grain := grain, grained := Plain(f));
  }

  lemma PlainParts(c: Rgb)
    ensures Plain(c).r == c.r as int && Plain(c).g == c.g as int && Plain(c).b == c.b as int
  {}

  /** Every pixel the filter stores is one the relation allows. */
  lemma ShadedFollows(s: Site, p: Preset, amount: int32) returns (k: Course)
    requires Sane(s) && Filterable(p) && 0 <= amount <= 100
    ensures Filters(s, p, amount, k, Shaded(s, p, amount))
  {
    hide Settles, Colours, Screens, Lights, Shaded, Coloured, Screened, Rate, Grey, Filterable;
    var base := Settled(s, p, amount);
    var coloured := ColouredFollows(s, p, amount, base);
    var screened := ScreenedFollows(Coloured(s, p, amount), s, p, coloured);
    k := LightFollows(s, p, amount, screened);
    SettlesLater(s, p, amount, base, k);
    ColoursLater(s, p, coloured, k);
    ScreensLater(s, p, screened, k);
  }

  lemma SettlesLater(s: Site, p: Preset, amount: int32, base: Course, k: Course)
    requires Settles(s, p, amount, base)
    requires k.luma == base.luma && k.saturation == base.saturation && k.red == base.red && k.green == base.green
    requires k.blue == base.blue && k.contrast == base.contrast
    ensures Settles(s, p, amount, k)
  {}

  lemma ColoursLater(s: Site, p: Preset, base: Course, k: Course)
    requires Colours(s, p, base)
    requires k == base.(dithered := k.dithered, dotted := k.dotted, radius := k.radius, lettered := k.lettered,
                        posterized := k.posterized, mix := k.mix, mixed := k.mixed, lift := k.lift,
                        lifted := k.lifted, grain := k.grain, grained := k.grained)
    ensures Colours(s, p, k)
  {
    hide IsLuma, Spreads, Scales, IsHeat, Outlines, Paints;
  }

  lemma ScreensLater(s: Site, p: Preset, base: Course, k: Course)
    requires s.pixel >= 1 && Screens(s, p, base)
    requires k == base.(mix := k.mix, mixed := k.mixed, lift := k.lift, lifted := k.lifted, grain := k.grain,
                        grained := k.grained)
    ensures Screens(s, p, k)
  {
    hide Offset, Rounded, Dots, Letters, Posterizes, Bayer;
  }

  // ---- and it is the only one ------------------------------------------------------------------------------

  lemma LumaOnce(m: int, n: int, c: Color)
    requires IsLuma(m, c) && IsLuma(n, c)
    ensures m == n
  {}

  lemma RateOnce(m: int, n: int, setting: int, amount: int)
    requires IsRate(m, setting, amount) && IsRate(n, setting, amount)
    ensures m == n
  {
    RoundedOnce(m - 100, n - 100, setting * amount, 100);
  }

  lemma SpreadsOnce(c: Color, d: Color, e: Color, centre: int, rate: int)
    requires Spreads(c, d, centre, rate) && Spreads(c, e, centre, rate)
    ensures d == e
  {
    hide Rounded;
    RoundedOnce(d.r - centre, e.r - centre, (c.r - centre) * rate, 100);
    RoundedOnce(d.g - centre, e.g - centre, (c.g - centre) * rate, 100);
    RoundedOnce(d.b - centre, e.b - centre, (c.b - centre) * rate, 100);
  }

  lemma ScalesOnce(c: Color, d: Color, e: Color, red: int, green: int, blue: int)
    requires Scales(c, d, red, green, blue) && Scales(c, e, red, green, blue)
    ensures d == e
  {
    hide Rounded;
    RoundedOnce(d.r, e.r, c.r * red, 100);
    RoundedOnce(d.g, e.g, c.g * green, 100);
    RoundedOnce(d.b, e.b, c.b * blue, 100);
  }

  lemma HeatOnce(d: Color, e: Color, t: int)
    requires IsHeat(d, t) && IsHeat(e, t)
    ensures d == e
  {}

  lemma OutlinesOnce(c: Color, d: Color, e: Color, flags: set<Effect>, edge: int)
    requires Outlines(c, d, flags, edge) && Outlines(c, e, flags, edge)
    ensures d == e
  {}

  lemma PaintsOnce(c: Color, d: Color, e: Color, luma: int)
    requires Paints(c, d, luma) && Paints(c, e, luma)
    ensures d == e
  {}

  lemma DotsOnce(c: Color, d: Color, e: Color, y: int, x: int, cell: int, radius: int)
    requires cell > 0 && Dots(c, d, y, x, cell, radius) && Dots(c, e, y, x, cell, radius)
    ensures d == e
  {
    hide FromMiddle;
  }

  lemma LettersOnce(c: Color, d: Color, e: Color, y: int, x: int, cell: int, luma: int)
    requires cell > 0 && Letters(c, d, y, x, cell, luma) && Letters(c, e, y, x, cell, luma)
    ensures d == e
  {
    hide Scales;
    if !(x % cell == luma / 32 % cell || y % cell == cell - 1) {
      ScalesOnce(c, d, e, 28, 28, 28);
    }
  }

  lemma StepOnce(h: int, k: int, j: int, n: int)
    requires k * 255 <= h * n < (k + 1) * 255 && j * 255 <= h * n < (j + 1) * 255
    ensures k == j
  {}

  lemma LevelOnce(v: int, w: int, u: int, levels: int)
    requires 2 <= levels && OnLevel(w, v, levels) && OnLevel(u, v, levels)
    ensures w == u
  {
    hide Rounded;
    var k :| IsLevel(w, v, k, levels);
    var j :| IsLevel(u, v, j, levels);
    var h :| Held(h, v) && k * 255 <= h * (levels - 1) < (k + 1) * 255 && Rounded(w, k * 255, levels - 1);
    var i :| Held(i, v) && j * 255 <= i * (levels - 1) < (j + 1) * 255 && Rounded(u, j * 255, levels - 1);
    assert h == i;
    StepOnce(h, k, j, levels - 1);
    RoundedOnce(w, u, k * 255, levels - 1);
  }

  lemma PosterizesOnce(c: Color, d: Color, e: Color, levels: int)
    requires Posterizes(c, d, levels) && Posterizes(c, e, levels)
    ensures d == e
  {
    hide OnLevel;
    if 2 <= levels < 16 {
      LevelOnce(c.r, d.r, e.r, levels);
      LevelOnce(c.g, d.g, e.g, levels);
      LevelOnce(c.b, d.b, e.b, levels);
    }
  }

  lemma MixesOnce(c: Color, d: Color, e: Color, old_: Color, mix: int)
    requires Mixes(c, d, old_, mix) && Mixes(c, e, old_, mix)
    ensures d == e
  {
    hide Rounded;
    RoundedOnce(d.r, e.r, c.r * (100 - mix) + old_.r * mix, 100);
    RoundedOnce(d.g, e.g, c.g * (100 - mix) + old_.g * mix, 100);
    RoundedOnce(d.b, e.b, c.b * (100 - mix) + old_.b * mix, 100);
  }

  lemma SettlesOnce(s: Site, p: Preset, amount: int32, k: Course, j: Course)
    requires Settles(s, p, amount, k) && Settles(s, p, amount, j)
    ensures k.luma == j.luma && k.saturation == j.saturation && k.red == j.red && k.green == j.green
    ensures k.blue == j.blue && k.contrast == j.contrast
  {
    hide IsLuma, IsRate;
    LumaOnce(k.luma, j.luma, Stored(s.input));
    RateOnce(k.saturation, j.saturation, p.saturation as int, amount as int);
    RateOnce(k.red, j.red, p.red as int - 100, amount as int);
    RateOnce(k.green, j.green, p.green as int - 100, amount as int);
    RateOnce(k.blue, j.blue, p.blue as int - 100, amount as int);
    RateOnce(k.contrast, j.contrast, p.contrast as int, amount as int);
  }

  lemma ColoursOnce(s: Site, p: Preset, k: Course, j: Course)
    requires Colours(s, p, k) && Colours(s, p, j)
    requires k.luma == j.luma && k.saturation == j.saturation && k.red == j.red && k.green == j.green
    requires k.blue == j.blue && k.contrast == j.contrast
    ensures k.painted == j.painted
  {
    hide IsLuma, Spreads, Scales, IsHeat, Outlines, Paints;
    SpreadsOnce(Stored(s.input), k.saturated, j.saturated, k.luma, k.saturation);
    ScalesOnce(k.saturated, k.tinted, j.tinted, k.red, k.green, k.blue);
    SpreadsOnce(k.tinted, k.contrasted, j.contrasted, 128, k.contrast);
    LumaOnce(k.tone, j.tone, k.contrasted);
    if Mono in p.flags {
      ScalesOnce(Color(k.tone, k.tone, k.tone), k.toned, j.toned, p.red as int, p.green as int, p.blue as int);
    }
    if Thermal in p.flags {
      HeatOnce(k.heated, j.heated, k.luma);
    }
    OutlinesOnce(k.heated, k.outlined, j.outlined, p.flags, s.edge as int);
    if Cga in p.flags {
      PaintsOnce(k.outlined, k.painted, j.painted, k.luma);
    }
  }

  lemma ScreensOnce(s: Site, p: Preset, k: Course, j: Course)
    requires s.pixel >= 1 && Screens(s, p, k) && Screens(s, p, j) && k.luma == j.luma && k.painted == j.painted
    ensures k.posterized == j.posterized
  {
    hide Bayer, Rounded, Dots, Letters, Posterizes;
    var y, x, pixel := s.y as int, s.x as int, s.pixel as int;
    if Halftone in p.flags {
      var cell := if pixel < 3 then 3 else pixel;
      RoundedOnce(k.radius, j.radius, (255 - k.luma) * cell, 255);
      DotsOnce(k.dithered, k.dotted, j.dotted, y, x, cell, k.radius);
    }
    if Ascii in p.flags {
      LettersOnce(k.dotted, k.lettered, j.lettered, y, x, if pixel < 4 then 4 else pixel, k.luma);
    }
    PosterizesOnce(k.lettered, k.posterized, j.posterized, p.posterize as int);
  }

  lemma LightsOnce(s: Site, p: Preset, amount: int32, k: Course, out: Pixel, j: Course, other: Pixel)
    requires Lights(s, p, amount, k, out) && Lights(s, p, amount, j, other)
    requires k.luma == j.luma && k.posterized == j.posterized
    ensures out == other
  {
    hide Rounded, Mixes;
    if Temporal in p.flags && s.before != [] && p.temporal != 0 {
      RoundedOnce(k.mix, j.mix, p.temporal as int * amount as int, 100);
      MixesOnce(k.posterized, k.mixed, j.mixed, Stored(s.before[0]), k.mix);
    }
    if Bloom in p.flags && k.luma > 185 {
      RoundedOnce(k.lift, j.lift, (k.luma - 185) * amount as int, 250);
    }
    RoundedOnce(k.grain, j.grain, (s.draw as int % 256 - 128) * p.noise as int * amount as int, 12800);
  }

  /** The relation leaves no choice: what the filter stores is exactly what it allows. */
  lemma FiltersExactly(s: Site, p: Preset, amount: int32, out: Pixel)
    requires Sane(s) && Filterable(p) && 0 <= amount <= 100
    ensures (exists k :: Filters(s, p, amount, k, out)) <==> out == Shaded(s, p, amount)
  {
    hide Settles, Colours, Screens, Lights, Shaded, Filterable;
    var j := ShadedFollows(s, p, amount);
    forall k | Filters(s, p, amount, k, out) ensures out == Shaded(s, p, amount) {
      SettlesOnce(s, p, amount, k, j);
      ColoursOnce(s, p, k, j);
      ScreensOnce(s, p, k, j);
      LightsOnce(s, p, amount, k, out, j, Shaded(s, p, amount));
    }
  }

  // ---- where a pixel comes from ------------------------------------------------------------------------------

  /** q is where a shifted coordinate is read: held inside the frame, then down to the pixel grid. */
  predicate Samples(q: int, at: int, size: int, pixel: int) {
    && pixel >= 1 && 0 <= q < size && q % pixel == 0
    && (if at < 0 then q == 0 else if at >= size then q <= size - 1 < q + pixel else q <= at < q + pixel)
  }

  lemma SnappedSamples(at: int32, size: int32, pixel: int32)
    requires size > 0 && 1 <= pixel
    ensures Samples(Snapped(at, size, pixel) as int, at as int, size as int, pixel as int)
  {
    var held := if at < 0 then 0 else if at >= size then size - 1 else at;
    FloorDiv(held as int, pixel as int);
    DivBounds(held as int, pixel as int);
    var q := held as int / pixel as int;
    MulMono(0, q, pixel as int);
    DigitOut(q, 0, pixel as int);
  }

  function Difference(a: int, b: int): int {
    if a >= b then a - b else b - a
  }

  /** Edge strength: twice the luma differences across and down, between the neighbours inside the frame. */
  predicate IsEdge(edge: int, left: int, right: int, up: int, down: int) {
    Held(edge, 2 * (Difference(left, right) + Difference(up, down)))
  }

  lemma EdgeFollows(left: int32, right: int32, up: int32, down: int32)
    requires 0 <= left <= 255 && 0 <= right <= 255 && 0 <= up <= 255 && 0 <= down <= 255
    ensures IsEdge(EdgeOf(left, right, up, down) as int, left as int, right as int, up as int, down as int)
  {}

  function PixelAtOffset(frame: seq<Pixel>, width: int, height: int, y: int, x: int): (p: Pixel)
    requires 0 <= y < height && 0 <= x < width && |frame| >= width * height
    ensures 0 <= y * width + x < |frame| && p == frame[y * width + x]
  {
    OffsetInside(y, x, width, height);
    frame[y * width + x]
  }

  /** The four lumas around a pixel, at the border its own row or column. */
  ghost predicate Around(frame: seq<Pixel>, width: int, height: int, y: int, x: int, left: int, right: int, up: int,
          down: int)
    requires 0 <= y < height && 0 <= x < width && |frame| >= width * height
  {
    && IsLuma(left, Stored(PixelAtOffset(frame, width, height, y, if x > 0 then x - 1 else x)))
    && IsLuma(right, Stored(PixelAtOffset(frame, width, height, y, if x + 1 < width then x + 1 else x)))
    && IsLuma(up, Stored(PixelAtOffset(frame, width, height, if y > 0 then y - 1 else y, x)))
    && IsLuma(down, Stored(PixelAtOffset(frame, width, height, if y + 1 < height then y + 1 else y, x)))
  }

  ghost predicate EdgeHere(frame: seq<Pixel>, width: int, height: int, y: int, x: int, edge: int)
    requires 0 <= y < height && 0 <= x < width && |frame| >= width * height
  {
    exists left, right, up, down ::
      Around(frame, width, height, y, x, left, right, up, down) && IsEdge(edge, left, right, up, down)
  }

  lemma EdgeAtFollows(frame: seq<Pixel>, width: int32, height: int32, y: int32, x: int32)
    requires 0 <= y < height && 0 <= x < width && |frame| >= width as int * height as int
    ensures EdgeHere(frame, width as int, height as int, y as int, x as int, EdgeAt(frame, width, height, y, x) as int)
  {
    hide EdgeOf, Weighted, IsLuma, IsEdge;
    var w, h := width as int, height as int;
    var l := At(frame, w, h, y as int, Previous(x) as int);
    var r := At(frame, w, h, y as int, Next(x, width) as int);
    var u := At(frame, w, h, Previous(y) as int, x as int);
    var d := At(frame, w, h, Next(y, height) as int, x as int);
    WeightedIsLuma(Wide(l));
    WeightedIsLuma(Wide(r));
    WeightedIsLuma(Wide(u));
    WeightedIsLuma(Wide(d));
    EdgeFollows(Grey(l), Grey(r), Grey(u), Grey(d));
    assert Around(frame, w, h, y as int, x as int, Grey(l) as int, Grey(r) as int, Grey(u) as int, Grey(d) as int);
  }

  // ---- the draws ------------------------------------------------------------------------------------------

  /** The state after n draws. */
  ghost function Drawn(state: bv32, n: nat): bv32 {
    if n == 0 then state else NextRandom(Drawn(state, n - 1))
  }

  /** The rows above y that are torn. */
  ghost function TornRows(j: Job, y: nat): nat
    requires WellSet(j) && y <= j.height as int
  {
    if y == 0 then 0 else TornRows(j, y - 1) + if Tears(j, (y - 1) as int32) then 1 else 0
  }

  /** Draws made before row y begins: one for each torn row, and with grain one for each pixel. */
  ghost function DrawsAbove(j: Job, y: nat): nat
    requires WellSet(j) && y <= j.height as int
  {
    TornRows(j, y) + if j.preset.noise != 0 then y * j.width as int else 0
  }

  lemma OneMoreRow(j: Job, y: nat)
    requires WellSet(j) && y < j.height as int
    ensures DrawsAbove(j, y + 1) == DrawsAbove(j, y) + (if Tears(j, y as int32) then 1 else 0)
                                    + (if j.preset.noise != 0 then j.width as int else 0)
  {
    hide Tears, Offsets, Filterable;
    assert (y + 1) * j.width as int == y * j.width as int + j.width as int;
  }

  lemma {:induction false} PixelDraws(j: Job, y: nat, x: nat)
    requires WellSet(j) && y < j.height as int && x <= j.width as int
    requires BeforeRow(j, y) == Drawn(j.random, DrawsAbove(j, y))
    ensures After(j, y, x) == Drawn(j.random, DrawsAbove(j, y) + (if Tears(j, y as int32) then 1 else 0)
                                              + (if j.preset.noise != 0 then x else 0))
    decreases x
  {
    hide NextRandom, Tears, Offsets, Filterable, DrawsAbove, BeforeRow;
    if x > 0 {
      PixelDraws(j, y, x - 1);
      PixelStep(j, y, x - 1);
    } else {
      RowStart(j, y);
    }
  }

  /** The random state when a row begins is the one after that many draws from the first. */
  lemma {:induction false} RowDraws(j: Job, y: nat)
    requires WellSet(j) && y <= j.height as int
    ensures BeforeRow(j, y) == Drawn(j.random, DrawsAbove(j, y))
  {
    hide NextRandom, Tears, Offsets, Filterable, DrawsAbove, BeforeRow;
    if y == 0 {
      RandomStart(j);
      assert DrawsAbove(j, 0) == 0 by { FirstRow(j); }
    } else {
      RowDraws(j, y - 1);
      PixelDraws(j, y - 1, j.width as int);
      RowStart(j, y - 1);
      OneMoreRow(j, y - 1);
    }
  }

  lemma FirstRow(j: Job)
    requires WellSet(j)
    ensures DrawsAbove(j, 0) == 0
  {
    hide Offsets, Filterable, Tears;
  }

  /** How far a row is shifted: by a draw of its own when it is torn. */
  ghost function TearShift(j: Job, y: int32): int
    requires WellSet(j) && 0 <= y < j.height
  {
    if Tears(j, y) then Drawn(j.random, DrawsAbove(j, y as int) + 1) as int % 23 - 11 else 0
  }

  /** The draw a pixel's grain is made of. */
  ghost function GrainDraw(j: Job, y: int32, x: int32): bv32
    requires WellSet(j) && 0 <= y < j.height && 0 <= x < j.width
  {
    Drawn(j.random, DrawsAbove(j, y as int) + (if Tears(j, y) then 1 else 0) + x as int + 1)
  }

  lemma TearIsShift(j: Job, y: int32)
    requires WellSet(j) && 0 <= y < j.height
    ensures TearOf(j, y as int) as int == TearShift(j, y)
  {
    hide NextRandom, Tears, Offsets, Filterable, DrawsAbove, BeforeRow, Shift, TearOf;
    RowDraws(j, y as int);
    RowStart(j, y as int);
    ShiftIs(NextRandom(BeforeRow(j, y as int)), 23, 11);
  }

  lemma GrainIsDraw(j: Job, y: int32, x: int32)
    requires WellSet(j) && 0 <= y < j.height && 0 <= x < j.width && j.preset.noise != 0
    ensures NextRandom(After(j, y as int, x as int)) == GrainDraw(j, y, x)
  {
    hide NextRandom, Tears, Offsets, Filterable, DrawsAbove, BeforeRow, After;
    RowDraws(j, y as int);
    PixelDraws(j, y as int, x as int);
  }

  /** The generator never sticks at zero, from any state; these are the first states after 1. */
  lemma RandomGoesOn(state: bv32)
    ensures NextRandom(state) != 0
    ensures NextRandom(1) == 270369 && NextRandom(270369) == 67634689
  {}

  /** Three rows of every 47 are torn; once the tick has wrapped below zero, every row is whose sum is negative. */
  lemma TornBands(j: Job, y: int32)
    requires WellSet(j) && 0 <= y < j.height && Tear in j.preset.flags
    ensures Tears(j, y) <==> y as int + j.tick as int < 0 || (y as int + j.tick as int) % 47 < 3
  {
    hide Filterable;
  }

  /** The random state of a frame before any draw. */
  function First(seed: bv32, slot: int): bv32 {
    seed ^ ((slot % 0x1_0000_0000) as bv32) ^ 0x9e3779b9
  }

  /** What one call fixes: the intensity held between 0 and 100, and with jitter two draws from a seed that changes
      every 67 milliseconds. */
  lemma JobFollows(width: int32, height: int32, preset: Preset, intensity: int32, seed: bv32, timestamp: int64)
    returns (slot: int, tick: int)
    ensures Rounded(slot, timestamp as int, 67) && Rounded(tick, timestamp as int, 31)
    ensures var j := JobFor(width, height, preset, intensity, seed, timestamp);
            var first := First(seed, slot);
            && j.width == width && j.height == height && j.preset == preset
            && j.amount == (if intensity < 0 then 0 else if intensity > 100 then 100 else intensity)
            && (j.tick as int - tick) % 0x1_0000_0000 == 0
            && j.jitterX as int == (if Jitter in preset.flags then Drawn(first, 1) as int % 7 - 3 else 0)
            && j.jitterY as int == (if Jitter in preset.flags then Drawn(first, 2) as int % 5 - 2 else 0)
            && j.random == (if Jitter in preset.flags then Drawn(first, 2) else first)
  {
    hide NextRandom, Rounded, TruncDiv, First, Seeded, Cast32, Drawn, Shift;
    QuotientRounds(timestamp as int, 67);
    QuotientRounds(timestamp as int, 31);
    slot, tick := TruncDiv(timestamp as int, 67), TruncDiv(timestamp as int, 31);
    var first := First(seed, slot);
    SeededIsFirst(seed, timestamp);
    TwoDraws(first);
    ShiftIs(Drawn(first, 1), 7, 3);
    ShiftIs(Drawn(first, 2), 5, 2);
    SameWord(tick);
  }

  lemma SeededIsFirst(seed: bv32, timestamp: int64)
    ensures Seeded(seed, timestamp) == First(seed, TruncDiv(timestamp as int, 67))
  {
    hide TruncDiv;
  }

  lemma ShiftIs(draw: bv32, n: int32, back: int32)
    requires 0 < n && 0 <= back <= n
    ensures Shift(draw, n, back) as int == draw as int % n as int - back as int
  {}

  lemma TwoDraws(state: bv32)
    ensures Drawn(state, 1) == NextRandom(state) && Drawn(state, 2) == NextRandom(NextRandom(state))
  {
    hide NextRandom;
    assert Drawn(state, 0) == state;
  }

  lemma SameWord(v: int)
    ensures (Cast32(v) as int - v) % 0x1_0000_0000 == 0
  {
    var q := (v + 0x8000_0000) / 0x1_0000_0000;
    assert Cast32(v) as int - v == -q * 0x1_0000_0000;
  }

  /** A pixel of the filtered frame: which source pixel it is made from, by which neighbours its edge is drawn, which
      pixel of the frame before is mixed in, and that it is what the relation makes of them. */
  lemma StoredPixel(src: seq<Pixel>, before: seq<Pixel>, j: Job, was: seq<Pixel>, y: int32, x: int32)
    returns (s: Site, k: Course, sy: int, sx: int)
    requires WellSet(j) && 0 <= y < j.height && 0 <= x < j.width
    requires Spans(|src|, j.width as int, j.height as int) && Spans(|was|, j.width as int, j.height as int)
    requires before == [] || Spans(|before|, j.width as int, j.height as int)
    ensures var w, h, p := j.width as int, j.height as int, j.preset;
            && s.y == y && s.x == x && s.pixel >= 1
            && s.pixel == (if Pixelate !in p.flags then 1 else if p.pixelSize < 2 then 2 else p.pixelSize)
            && Samples(sy, y as int + j.jitterY as int, h, s.pixel as int)
            && Samples(sx, x as int + j.jitterX as int + TearShift(j, y), w, s.pixel as int)
            && (p.noise != 0 ==> s.draw == GrainDraw(j, y, x))
            && s.input == PixelAtOffset(src, w, h, sy, sx)
            && s.before == (if before == [] then [] else [PixelAtOffset(before, w, h, y as int, x as int)])
            && (Edge in p.flags ==> EdgeHere(src, w, h, y as int, x as int, s.edge as int))
    ensures 0 <= y as int * j.width as int + x as int < |was|
    ensures Filters(s, j.preset, j.amount, k,
                    FilteredAt(src, before, j, was, y as int * j.width as int + x as int))
  {
    hide Filterable, Shaded, Row, Column, After, NextRandom, EdgeAt, TearOf, Offsets, Samples, EdgeHere, Snapped;
    hide Filters, TearShift, GrainDraw;
    PositionOf(y as int, x as int, j.width as int);
    OffsetSpanned(y as int, x as int, j.width as int, j.height as int, |was|);
    TearIsShift(j, y);
    if j.preset.noise != 0 {
      GrainIsDraw(j, y, x);
    }
    s := SiteOf(src, before, j, y, x);
    k := ShadedFollows(s, j.preset, j.amount);
    SnappedSamples(y + j.jitterY, j.height, s.pixel);
    SnappedSamples(x + j.jitterX + TearOf(j, y as int), j.width, s.pixel);
    sy := Snapped(y + j.jitterY, j.height, s.pixel) as int;
    sx := Snapped(x + j.jitterX + TearOf(j, y as int), j.width, s.pixel) as int;
    if Edge in j.preset.flags {
      EdgeAtFollows(src, j.width, j.height, y, x);
    }
  }

  // ---- what single stages show ---------------------------------------------------------------------------------

  /** A thermal preset on which no later stage acts, but for posterizing. */
  predicate JustThermal(s: Site, p: Preset) {
    && Thermal in p.flags && p.flags !! {Edge, Invert, Cga, Dither, Halftone, Ascii, Bloom} && p.noise == 0
    && (Temporal !in p.flags || s.before == [] || p.temporal == 0)
  }

  lemma JustHeat(s: Site, p: Preset, amount: int32)
    requires Sane(s) && Filterable(p) && 0 <= amount <= 100 && JustThermal(s, p)
    ensures Shaded(s, p, amount) == Clamped(Posterized(Heat(Grey(s.input)), p))
  {
    hide Saturated, Tinted, Contrasted, Toned, Heat, Grey, Posterized;
  }

  /** Hot pixels hold no blue and much red, cold ones no red and much blue. */
  lemma ThermalShowsHeat(s: Site, p: Preset, amount: int32, luma: int)
    requires Sane(s) && Filterable(p) && 0 <= amount <= 100 && JustThermal(s, p) && IsLuma(luma, Stored(s.input))
    ensures var out := Shaded(s, p, amount);
            && (luma >= 128 ==> out.b == 0) && (luma <= 96 ==> out.r == 0)
            && (!(2 <= p.posterize < 16) && luma >= 128 ==> out.r >= 96)
            && (!(2 <= p.posterize < 16) && luma <= 96 ==> out.b >= 64)
  {
    JustHeat(s, p, amount);
    LumaIs(s, luma);
    hide Shaded, Level, Grey;
    if 2 <= p.posterize < 16 {
      PosterizedAgain(p.posterize);
    }
  }

  /** The hotter the pixel, the more red and the less blue, posterized or not. */
  lemma ThermalKeepsOrder(s: Site, t: Site, p: Preset, amount: int32, cold: int, hot: int)
    requires Sane(s) && Sane(t) && Filterable(p) && 0 <= amount <= 100 && JustThermal(s, p) && JustThermal(t, p)
    requires IsLuma(cold, Stored(s.input)) && IsLuma(hot, Stored(t.input)) && cold <= hot
    ensures Shaded(s, p, amount).r <= Shaded(t, p, amount).r && Shaded(s, p, amount).b >= Shaded(t, p, amount).b
  {
    JustHeat(s, p, amount);
    JustHeat(t, p, amount);
    LumaIs(s, cold);
    LumaIs(t, hot);
    hide Shaded, Level, Grey;
    var a, b := Heat(Grey(s.input)), Heat(Grey(t.input));
    if 2 <= p.posterize < 16 {
      LevelKeepsOrder(a.r, b.r, p.posterize);
      LevelKeepsOrder(b.b, a.b, p.posterize);
    }
  }

  lemma LumaIs(s: Site, luma: int)
    requires IsLuma(luma, Stored(s.input))
    ensures luma == Grey(s.input) as int
  {
    WeightedIsLuma(Wide(s.input));
    hide Weighted;
    LumaOnce(luma, Grey(s.input) as int, Stored(s.input));
  }

  /** The dither has sixteen thresholds and repeats every four pixels, each threshold once in a block. */
  lemma ThresholdsSpread(y: int, x: int, v: int, w: int)
    requires 0 <= y && 0 <= x && 0 <= v && 0 <= w
    ensures 0 <= Bayer(y, x) < 16
    ensures Bayer(y, x) == Bayer(v, w) <==> y % 4 == v % 4 && x % 4 == w % 4
  {
    PairIs(y, x);
    PairIs(v, w);
    PairIs(y / 2, x / 2);
    PairIs(v / 2, w / 2);
    QuarterOf(y, v);
    QuarterOf(x, w);
    hide Pair;
  }

  lemma PairIs(y: int, x: int)
    ensures 0 <= Pair(y, x) < 4
    ensures forall v, w :: Pair(y, x) == Pair(v, w) <==> y % 2 == v % 2 && x % 2 == w % 2
  {}

  lemma QuarterOf(a: int, b: int)
    requires 0 <= a && 0 <= b
    ensures a % 4 == b % 4 <==> a % 2 == b % 2 && a / 2 % 2 == b / 2 % 2
  {
    QuarterIs(a);
    QuarterIs(b);
  }

  lemma QuarterIs(a: int)
    requires 0 <= a
    ensures a % 4 == a % 2 + 2 * (a / 2 % 2)
  {}

  /** Where a pixel of some luma is printed as a dot, so is a darker one; white is never printed as one. */
  lemma DotsGrow(y: int, x: int, cell: int, dark: int, light: int, radius: int, smaller: int)
    requires 0 <= dark <= light <= 255 && 0 < cell
    requires Rounded(radius, (255 - dark) * cell, 255) && Rounded(smaller, (255 - light) * cell, 255)
    ensures FromMiddle(y, x, cell) < smaller * smaller ==> FromMiddle(y, x, cell) < radius * radius
    ensures light == 255 ==> smaller == 0 && !(FromMiddle(y, x, cell) < smaller * smaller)
  {
    MulMono(255 - light, 255 - dark, cell);
    MulMono(0, 255 - light, cell);
    NotBelow(smaller, radius, 255);
    NotBelow(0, smaller, 255);
    MulMono(smaller, radius, smaller);
    MulMono(smaller, radius, radius);
    var a, b := 2 * (x % cell) - cell, 2 * (y % cell) - cell;
    assert a * a >= 0 && b * b >= 0;
  }

  /** At full intensity a preset without saturation leaves only the luma. */
  lemma FullDesaturation(c: Color, d: Color, luma: int, rate: int)
    requires IsRate(rate, -100, 100) && Spreads(c, d, luma, rate)
    ensures d == Color(luma, luma, luma)
  {
    RoundedOnce(rate - 100, -100, -10000, 100);
    RoundedOnce(d.r - luma, 0, 0, 100);
    RoundedOnce(d.g - luma, 0, 0, 100);
    RoundedOnce(d.b - luma, 0, 0, 100);
  }
}
