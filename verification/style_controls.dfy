/** The user's style controls in DisplayProbeWorker: selection, recent list, favorites and adjustments. Whatever
    the user does, the settings stay well formed, so that the settings file gives them back. */
module StyleControls {
  import opened PresetCatalog
  import opened RecentLine
  import opened SettingsText
  import opened CText
  import opened MachineInt

  // ---- the recent list ---------------------------------------------------------------------------

  /** The last place a preset stands at, or -1. */
  function LastAt(recent: seq<PresetNumber>, p: PresetNumber): (e: int)
    ensures -1 <= e < |recent| && (e >= 0 ==> recent[e] == p)
    ensures forall i | e < i < |recent| :: recent[i] != p
  {
    if recent == [] then -1
    else if recent[|recent| - 1] == p then |recent| - 1
    else LastAt(recent[..|recent| - 1], p)
  }

  /** What recordRecentLocked makes of the list, also of one with repetitions. */
  function Recorded(recent: seq<PresetNumber>, p: PresetNumber): seq<PresetNumber> {
    var e := LastAt(recent, p);
    if e >= 0 then [p] + recent[..e] + recent[e + 1..]
    else if |recent| < MAX_RECENT then [p] + recent
    else [p] + recent[..MAX_RECENT - 1]
  }

  function Truncated12(recent: seq<PresetNumber>): seq<PresetNumber> {
    if |recent| <= MAX_RECENT then recent else recent[..MAX_RECENT]
  }

  lemma RestIsDistinct(recent: seq<PresetNumber>)
    requires Distinct(recent) && recent != []
    ensures Distinct(recent[1..])
  {
    assert forall k | 0 <= k < |recent| - 1 :: recent[1..][k] == recent[k + 1];
  }

  lemma FirstStays(recent: seq<PresetNumber>, e: nat)
    requires 0 < e < |recent|
    ensures recent[..e] + recent[e + 1..] == [recent[0]] + (recent[1..][..e - 1] + recent[1..][e..])
  {
    assert recent[..e] == [recent[0]] + recent[1..][..e - 1];
    assert recent[e + 1..] == recent[1..][e..];
  }

  lemma {:induction false} WithoutIs(recent: seq<PresetNumber>, p: PresetNumber, e: nat)
    requires Distinct(recent) && e < |recent| && recent[e] == p
    ensures Without(recent, p) == recent[..e] + recent[e + 1..]
  {
    if e > 0 {
      assert recent[0] != recent[e];
      RestIsDistinct(recent);
      hide Distinct;
      WithoutIs(recent[1..], p, e - 1);
      FirstStays(recent, e);
    }
  }

  lemma {:induction false} WithoutAbsent(recent: seq<PresetNumber>, p: PresetNumber)
    requires p !in recent
    ensures Without(recent, p) == recent
  {
    if recent != [] {
      assert recent[0] in recent;
      WithoutAbsent(recent[1..], p);
    }
  }

  lemma FrontIsDistinct(rest: seq<PresetNumber>, p: PresetNumber)
    requires Distinct(rest) && p !in rest
    ensures Distinct([p] + rest) && Distinct(Truncated12([p] + rest))
  {}

  /** On a list without repetitions recording is move to front, cut at twelve, and leaves no repetition. */
  lemma RecordedMovesToFront(recent: seq<PresetNumber>, p: PresetNumber)
    requires Distinct(recent) && |recent| <= MAX_RECENT
    ensures Recorded(recent, p) == Truncated12([p] + Without(recent, p))
    ensures Distinct(Recorded(recent, p)) && |Recorded(recent, p)| <= MAX_RECENT
  {
    hide Distinct, Without, LastAt;
    var e := LastAt(recent, p);
    WithoutFacts(recent, p);
    FrontIsDistinct(Without(recent, p), p);
    if e >= 0 {
      WithoutIs(recent, p, e);
      assert [p] + recent[..e] + recent[e + 1..] == [p] + Without(recent, p);
    } else {
      WithoutAbsent(recent, p);
      if |recent| == MAX_RECENT {
        assert [p] + recent[..MAX_RECENT - 1] == ([p] + recent)[..MAX_RECENT];
      }
    }
  }

  /** Leaving out one entry of the counted part, before or after the rest is cut off. */
  lemma WithoutOne(list: seq<PresetNumber>, count: nat, e: nat)
    requires e < count <= |list|
    ensures (list[..e] + list[e + 1..])[..count - 1] == list[..count][..e] + list[..count][e + 1..]
  {
    assert list[..count][..e] == list[..e];
    assert list[..count][e + 1..] == list[e + 1..][..count - 1 - e];
  }

  /** Shifting the array by one up to `top` and storing the preset first records it in the counted part. */
  lemma RecordedInPlace(before: seq<PresetNumber>, count: nat, after: seq<PresetNumber>, next: nat, p: PresetNumber,
          top: nat)
    requires |before| == MAX_RECENT && count <= MAX_RECENT && top < MAX_RECENT
    requires |after| == MAX_RECENT && after[0] == p && after[1..] == before[..top] + before[top + 1..]
    requires var e := LastAt(before[..count], p);
             if e >= 0 then top == e && next == count
             else next == (if count < MAX_RECENT then count + 1 else count) && top == next - 1
    ensures after[..next] == Recorded(before[..count], p)
  {
    hide LastAt;
    var e := LastAt(before[..count], p);
    var rest := before[..top] + before[top + 1..];
    assert after[..next] == [p] + rest[..next - 1];
    if e >= 0 {
      WithoutOne(before, count, e);
    } else {
      assert rest[..next - 1] == before[..next - 1];
    }
  }

  // ---- favorites ---------------------------------------------------------------------------------

  predicate Bit(n: nat, k: nat) {
    if k == 0 then n % 2 == 1 else Bit(n / 2, k - 1)
  }

  /** Exclusive or of two masks, bit by bit. */
  function Xor(a: nat, b: nat): nat
    decreases a + b
  {
    if a == 0 then b else if b == 0 then a
    else (if a % 2 == b % 2 then 0 else 1) + 2 * Xor(a / 2, b / 2)
  }

  function TwoTo(k: nat): nat {
    if k == 0 then 1 else 2 * TwoTo(k - 1)
  }

  lemma {:induction false} ZeroHasNoBits(k: nat)
    ensures !Bit(0, k)
  {
    if k > 0 {
      ZeroHasNoBits(k - 1);
    }
  }

  lemma {:induction false} XorBits(a: nat, b: nat, k: nat)
    ensures Bit(Xor(a, b), k) <==> Bit(a, k) != Bit(b, k)
    decreases k
  {
    if a == 0 || b == 0 {
      ZeroHasNoBits(k);
    } else if k > 0 {
      XorBits(a / 2, b / 2, k - 1);
    }
  }

  lemma {:induction false} XorFits(a: nat, b: nat, width: nat)
    requires a < TwoTo(width) && b < TwoTo(width)
    ensures Xor(a, b) < TwoTo(width)
    decreases width
  {
    if a != 0 && b != 0 {
      XorFits(a / 2, b / 2, width - 1);
    }
  }

  lemma {:induction false} OneBit(k: nat, j: nat)
    ensures Bit(TwoTo(k), j) <==> j == k
    decreases k
  {
    if k == 0 {
      if j > 0 {
        ZeroHasNoBits(j - 1);
      }
    } else {
      PowerPositive(k - 1);
      if j > 0 {
        OneBit(k - 1, j - 1);
      }
    }
  }

  lemma {:induction false} PowerPositive(k: nat)
    ensures TwoTo(k) > 0
  {
    if k > 0 {
      PowerPositive(k - 1);
    }
  }

  lemma {:induction false} PowerGrows(k: nat, n: nat)
    requires k < n
    ensures TwoTo(k) < TwoTo(n)
    decreases n
  {
    PowerPositive(n - 1);
    if k < n - 1 {
      PowerGrows(k, n - 1);
    }
  }

  lemma TwoTo64()
    ensures TwoTo(64) == UINT64_MAX + 1
  {
    assert TwoTo(2) == 4;
    hide TwoTo;
    PowerDoubles(2, 2);
    assert TwoTo(4) == 16;
    PowerDoubles(4, 4);
    assert TwoTo(8) == 0x100;
    PowerDoubles(8, 8);
    assert TwoTo(16) == 0x1_0000;
    PowerDoubles(16, 16);
    assert TwoTo(32) == 0x1_0000_0000;
    PowerDoubles(32, 32);
  }

  lemma DoubledProduct(m: nat, n: nat)
    ensures m * (2 * n) == 2 * (m * n)
  {}

  lemma {:induction false} PowerDoubles(a: nat, b: nat)
    ensures TwoTo(a + b) == TwoTo(a) * TwoTo(b)
    decreases b
  {
    if b > 0 {
      PowerDoubles(a, b - 1);
      assert TwoTo(a + b) == 2 * TwoTo(a + (b - 1));
      DoubledProduct(TwoTo(a), TwoTo(b - 1));
    }
  }

  predicate IsFavorite(s: RuntimeSettings, p: PresetNumber)
    requires 0 <= s.favoritesLo && 0 <= s.favoritesHi
  {
    if p < 64 then Bit(s.favoritesLo, p) else Bit(s.favoritesHi, p - 64)
  }

  function Toggled(s: RuntimeSettings): RuntimeSettings
    requires 0 <= s.favoritesLo && 0 <= s.favoritesHi
  {
    if s.selectedPreset < 64 then s.(favoritesLo := Xor(s.favoritesLo, TwoTo(s.selectedPreset)))
    else s.(favoritesHi := Xor(s.favoritesHi, TwoTo(s.selectedPreset - 64)))
  }

  /** Toggling flips the selected preset and no other, and the masks stay 64-bit words. */
  lemma ToggleFlipsOne(s: RuntimeSettings, p: PresetNumber)
    requires Bounded(s)
    ensures Bounded(Toggled(s))
    ensures IsFavorite(Toggled(s), p) <==> IsFavorite(s, p) != (p == s.selectedPreset)
  {
    hide Bit, Xor, TwoTo;
    var k := if s.selectedPreset < 64 then s.selectedPreset else s.selectedPreset - 64;
    var j := if p < 64 then p else p - 64;
    var mask := if s.selectedPreset < 64 then s.favoritesLo else s.favoritesHi;
    TwoTo64();
    PowerGrows(k, 64);
    XorFits(mask, TwoTo(k), 64);
    XorBits(mask, TwoTo(k), j);
    OneBit(k, j);
  }

  // ---- categories --------------------------------------------------------------------------------

  datatype Category = Handheld | Computer | Console | AnalogTv | Tape | Film | Archive | Print | DigitalDecay | GameEra
                    | Experimental

  function CategoryOf(p: PresetNumber): Category {
    if p < 6 then Handheld else if p < 17 then Computer else if p < 22 then Console else if p < 29 then AnalogTv
    else if p < 37 then Tape else if p < 39 then Film else if p < 42 then Archive else if p < 46 then Film
    else if p < 55 then Print else if p < 60 then DigitalDecay else if p < 66 then GameEra else Experimental
  }

  /** k presets on, or back, around the catalog. */
  function Around(from: PresetNumber, direction: int, k: nat): PresetNumber {
    (from + direction * k) % PRESET_COUNT
  }

  lemma ModAdd(x: int, d: int)
    ensures (x % 70 + d + 70) % 70 == (x + d) % 70
  {
    assert x == x / 70 * 70 + x % 70;
  }

  lemma RemainderIs(a: int, q: int, r: int)
    requires a == q * 70 + r && 0 <= r < 70
    ensures a % 70 == r
  {}

  /** The remainder of a negative sum, brought back into the catalog. */
  lemma WrapsAround(from: PresetNumber, delta: int)
    ensures var r := TruncRem(from + delta, PRESET_COUNT);
            (if r < 0 then r + PRESET_COUNT else r) == (from + delta) % PRESET_COUNT
  {
    hide TruncRem, TruncDiv;
    var a := from + delta;
    var q, r := TruncDiv(a, PRESET_COUNT), TruncRem(a, PRESET_COUNT);
    RemainderIs(a, if r < 0 then q - 1 else q, if r < 0 then r + PRESET_COUNT else r);
  }

  lemma OneFurther(from: PresetNumber, direction: int, k: nat)
    requires direction == 1 || direction == -1
    ensures (Around(from, direction, k) + direction + PRESET_COUNT) % PRESET_COUNT == Around(from, direction, k + 1)
  {
    ModAdd(from + direction * k, direction);
    assert direction * (k + 1) == direction * k + direction;
  }

  /** The category k steps away is the first other one. */
  predicate FirstOther(from: PresetNumber, direction: int, k: nat) {
    && 0 < k < PRESET_COUNT && CategoryOf(Around(from, direction, k)) != CategoryOf(from)
    && forall i | 0 < i < k :: CategoryOf(Around(from, direction, i)) == CategoryOf(from)
  }

  /** Some preset of another category comes before the way around the catalog ends. */
  lemma OtherCategoryExists(from: PresetNumber, direction: int) returns (k: nat)
    requires direction == 1 || direction == -1
    ensures 0 < k < PRESET_COUNT && CategoryOf(Around(from, direction, k)) != CategoryOf(from)
  {
    var target := if from < 6 then 6 else 0;
    k := if direction == 1 then (target - from) % PRESET_COUNT else (from - target) % PRESET_COUNT;
    if direction == 1 {
      assert direction * k == k;
    } else {
      assert direction * k + k == 0;
    }
    assert Around(from, direction, k) == target;
  }

  /** The do-while loop of changeCategoryLocked. */
  method NextCategory(from: PresetNumber, direction: int) returns (candidate: PresetNumber)
    requires direction == 1 || direction == -1
    ensures exists k :: FirstOther(from, direction, k) && candidate == Around(from, direction, k)
  {
    hide CategoryOf;
    ghost var k := 1;
    ghost var other := OtherCategoryExists(from, direction);
    candidate := (from + direction + PRESET_COUNT) % PRESET_COUNT;
    AroundOnce(from, direction);
    hide Around;
    while CategoryOf(candidate) == CategoryOf(from) && candidate != from
      invariant 0 < k <= other && candidate == Around(from, direction, k)
      invariant forall i | 0 < i < k :: CategoryOf(Around(from, direction, i)) == CategoryOf(from)
      decreases other - k
    {
      OneFurther(from, direction, k);
      candidate := (candidate + direction + PRESET_COUNT) % PRESET_COUNT;
      k := k + 1;
    }
    if candidate == from {
      NoFullTurn(from, direction, k);
    }
    assert FirstOther(from, direction, k);
  }

  lemma AroundOnce(from: PresetNumber, direction: int)
    requires direction == 1 || direction == -1
    ensures Around(from, direction, 1) == (from + direction + PRESET_COUNT) % PRESET_COUNT
  {
    ModAdd(from, direction);
  }

  lemma NoFullTurn(from: PresetNumber, direction: int, k: nat)
    requires direction == 1 || direction == -1
    ensures 0 < k < PRESET_COUNT ==> Around(from, direction, k) != from
  {
    if direction == 1 {
      assert direction * k == k;
    } else {
      assert direction * k + k == 0;
    }
  }

  // ---- what each control does to the settings ----------------------------------------------------------

  /** Range and step of the adjustments: contrast, grain, motion. */
  function Limit(index: nat): int
    requires index < 3
  {
    if index == 0 then 40 else if index == 1 then 20 else 30
  }

  function StepOf(index: nat): int
    requires index < 3
  {
    if index == 1 then 2 else 5
  }

  function Part(a: Adjustment, index: nat): int
    requires index < 3
  {
    if index == 0 then a.contrast else if index == 1 then a.grain else a.motion
  }

  function WithPart(a: Adjustment, index: nat, value: int): Adjustment
    requires index < 3
  {
    if index == 0 then a.(contrast := value) else if index == 1 then a.(grain := value) else a.(motion := value)
  }

  function Selected(s: RuntimeSettings, p: PresetNumber): RuntimeSettings {
    s.(selectedPreset := p, recent := Recorded(s.recent, p))
  }

  function Stepped(s: RuntimeSettings, parameter: nat, direction: int): RuntimeSettings
    requires parameter < 4 && |s.adjustments| == PRESET_COUNT
  {
    if parameter == 0 then s.(intensity := Saturated(s.intensity + direction * 5, 0, 100))
    else
      var index, p := parameter - 1, s.selectedPreset;
      var value := Saturated(Part(s.adjustments[p], index) + direction * StepOf(index), -Limit(index), Limit(index));
      s.(adjustments := s.adjustments[p := WithPart(s.adjustments[p], index, value)])
  }

  /** The controls a user has. */
  datatype Control =
    Choose(preset: PresetNumber) | Step(parameter: nat, direction: int) | Favorite | Diagnostics(on: bool)

  function Used(s: RuntimeSettings, c: Control): RuntimeSettings
    requires Bounded(s) && (c.Step? ==> c.parameter < 4)
  {
    match c
    case Choose(p) => Selected(s, p)
    case Step(parameter, direction) => Stepped(s, parameter, direction)
    case Favorite => Toggled(s)
    case Diagnostics(on) => s.(diagnostics := on)
  }

  lemma UsedStaysBounded(s: RuntimeSettings, c: Control)
    requires Bounded(s) && (c.Step? ==> c.parameter < 4)
    ensures Bounded(Used(s, c)) && Used(s, c).motion == s.motion
  {
    match c
    case Choose(p) =>
    case Favorite => ToggleFlipsOne(s, 0);
    case Step(parameter, direction) =>
      hide PresetId;
      if parameter > 0 {
        assert InRange(s.adjustments[s.selectedPreset]);
      }
    case Diagnostics(_) =>
  }

  /** A value goes a whole step, or to the limit where that would lead beyond it. */
  predicate Goes(v: int, w: int, step: int, low: int, high: int) {
    && (low <= v + step <= high ==> w == v + step) && (v + step > high ==> w == high) && (v + step < low ==> w == low)
  }

  /** One press: the intensity moves by 5 between 0 and 100, or of the selected preset the contrast by 5 up to 40 either
      way, the grain by 2 up to 20, the motion by 5 up to 30; onward is more, and nothing else changes. */
  lemma StepMoves(s: RuntimeSettings, parameter: nat, onward: bool)
    requires Bounded(s) && parameter < 4
    ensures var t, p, n := Used(s, Step(parameter, Direction(onward))), s.selectedPreset, if onward then 1 else -1;
            |t.adjustments| == |s.adjustments| == PRESET_COUNT &&
            var a, b := s.adjustments[p], t.adjustments[p];
            && (parameter == 0 ==> t == s.(intensity := t.intensity) && Goes(s.intensity, t.intensity, 5 * n, 0, 100))
            && (parameter > 0 ==> t == s.(adjustments := s.adjustments[p := b]))
            && (parameter == 1 ==> b == a.(contrast := b.contrast) && Goes(a.contrast, b.contrast, 5 * n, -40, 40))
            && (parameter == 2 ==> b == a.(grain := b.grain) && Goes(a.grain, b.grain, 2 * n, -20, 20))
            && (parameter == 3 ==> b == a.(motion := b.motion) && Goes(a.motion, b.motion, 5 * n, -30, 30))
  {
    hide Bit, Xor, Recorded;
    assert |s.adjustments| == PRESET_COUNT;
    hide Bounded;
  }

  lemma UsedStaysWellFormed(s: RuntimeSettings, c: Control)
    requires WellFormed(s) && (c.Step? ==> c.parameter < 4)
    ensures WellFormed(Used(s, c))
  {
    UsedStaysBounded(s, c);
    RecordedMovesToFront(s.recent, if c.Choose? then c.preset else 0);
    hide Recorded, Bounded;
  }

  ghost predicate Usable(cs: seq<Control>) {
    forall i | 0 <= i < |cs| && cs[i].Step? :: cs[i].parameter < 4
  }

  /** The settings after a history of controls. */
  ghost function After(s: RuntimeSettings, cs: seq<Control>): (r: RuntimeSettings)
    requires WellFormed(s) && Usable(cs)
    ensures WellFormed(r)
    decreases |cs|
  {
    if cs == [] then s else
    UsedStaysWellFormed(s, cs[0]);
    assert Usable(cs[1..]) by { assert forall i | 0 <= i < |cs| - 1 :: cs[1..][i] == cs[i + 1]; }
    After(Used(s, cs[0]), cs[1..])
  }

  /** Whatever the user did since well-formed settings, saving and loading gives the settings back. */
  lemma EveryHistoryRoundTrips(s: RuntimeSettings, cs: seq<Control>)
    requires WellFormed(s) && Usable(cs)
    ensures WellFormed(After(s, cs)) && Loaded(SettingsFile(After(s, cs))) == After(s, cs)
  {
    hide After, Loaded, SettingsFile, WellFormed;
    SettingsRoundTrip(After(s, cs));
  }

  // ---- keys and scenes ---------------------------------------------------------------------------------

  datatype Scene = CameraScene | ControlsScene | BrowserScene | GalleryScene | DiagnosticsScene | ConfirmScene

  /** The keys that act on settings or scenes when pressed; forward and down are one direction, the others -1. */
  datatype Key = Sideways(forward: bool) | Vertical(down: bool) | Center | Menu | Playback | Fn | Back

  function Direction(onward: bool): int {
    if onward then 1 else -1
  }

  function SceneAfter(scene: Scene, key: Key): Scene {
    match key
    case Sideways(_) => scene
    case Vertical(_) => scene
    case Center =>
      if scene == ConfirmScene || scene == GalleryScene then scene
      else if scene == ControlsScene then CameraScene else ControlsScene
    case Menu => if scene == BrowserScene then CameraScene else BrowserScene
    case Playback => if scene == GalleryScene then CameraScene else GalleryScene
    case Fn => if scene == DiagnosticsScene then CameraScene else DiagnosticsScene
    case Back =>
      if scene == GalleryScene then ConfirmScene else if scene == ConfirmScene then GalleryScene else CameraScene
  }

  /** What the user faces: the scene, the parameter chosen in it, and the settings. */
  datatype View = View(scene: Scene, parameter: nat, settings: RuntimeSettings)

  function ParameterAfter(v: View, key: Key): nat {
    if v.scene == ControlsScene && key.Vertical? then (v.parameter + Direction(key.down)) % 4 else v.parameter
  }

  /** The settings a key leaves, in each scene. */
  ghost predicate Answered(v: View, key: Key, after: RuntimeSettings)
    requires Bounded(v.settings) && v.parameter < 4
  {
    var before, scene := v.settings, v.scene;
    match key
    case Sideways(forward) =>
      if scene == GalleryScene then after == before
      else if scene == ControlsScene then after == Used(before, Step(v.parameter, Direction(forward)))
      else after == Used(before, Choose(Around(before.selectedPreset, Direction(forward), 1)))
    case Vertical(down) =>
      if scene == GalleryScene || scene == ControlsScene then after == before
      else exists k :: FirstOther(before.selectedPreset, Direction(down), k)
                       && after == Used(before, Choose(Around(before.selectedPreset, Direction(down), k)))
    case Center => after == if scene == GalleryScene then Used(before, Favorite) else before
    case Fn => after == Used(before, Diagnostics(SceneAfter(scene, Fn) == DiagnosticsScene))
    case Menu => after == before
    case Playback => after == before
    case Back => after == before
  }

  ghost predicate Pressed(v: View, key: Key, w: View) {
    && Bounded(v.settings) && v.parameter < 4
    && w.scene == SceneAfter(v.scene, key) && w.parameter == ParameterAfter(v, key) && Answered(v, key, w.settings)
  }

  lemma PressedStaysWellFormed(v: View, key: Key, w: View)
    requires Pressed(v, key, w) && WellFormed(v.settings)
    ensures WellFormed(w.settings)
  {
    hide WellFormed, Used, Bounded, FirstOther, Around;
    var before := v.settings;
    match key
    case Sideways(forward) =>
      UsedStaysWellFormed(before, Step(v.parameter, Direction(forward)));
      UsedStaysWellFormed(before, Choose(Around(before.selectedPreset, Direction(forward), 1)));
    case Vertical(down) =>
      if v.scene != GalleryScene && v.scene != ControlsScene {
        var k :| FirstOther(before.selectedPreset, Direction(down), k)
                 && w.settings == Used(before, Choose(Around(before.selectedPreset, Direction(down), k)));
        UsedStaysWellFormed(before, Choose(Around(before.selectedPreset, Direction(down), k)));
      }
    case Center => UsedStaysWellFormed(before, Favorite);
    case Fn => UsedStaysWellFormed(before, Diagnostics(SceneAfter(v.scene, Fn) == DiagnosticsScene));
    case _ =>
  }

  ghost predicate IsSitting(views: seq<View>, keys: seq<Key>) {
    |views| == |keys| + 1 && forall i | 0 <= i < |keys| :: Pressed(views[i], keys[i], views[i + 1])
  }

  /** Whatever keys are pressed, in whatever scenes, the settings can be saved and loaded at every point. */
  lemma {:induction false} EverySittingRoundTrips(views: seq<View>, keys: seq<Key>, i: nat)
    requires IsSitting(views, keys) && WellFormed(views[0].settings) && i < |views|
    ensures WellFormed(views[i].settings) && Loaded(SettingsFile(views[i].settings)) == views[i].settings
  {
    hide WellFormed, Loaded, SettingsFile, Pressed;
    if i > 0 {
      EverySittingRoundTrips(views, keys, i - 1);
      assert Pressed(views[i - 1], keys[i - 1], views[i]);
      PressedStaysWellFormed(views[i - 1], keys[i - 1], views[i]);
    }
    SettingsRoundTrip(views[i].settings);
  }

  // ---- the controls as the worker holds them -----------------------------------------------------------

  class StyleState {
    var selectedStyle: PresetNumber
    var intensity: int
    var parameterIndex: nat
    var favoritesLo: nat
    var favoritesHi: nat
    var diagnostics: bool
    var scene: Scene
    const recent: array<PresetNumber>
    var recentCount: nat
    const adjustments: array2<int>

    ghost predicate Shaped()
      reads this
    {
      && recent.Length == MAX_RECENT && recentCount <= MAX_RECENT && parameterIndex < 4
      && adjustments.Length0 == PRESET_COUNT && adjustments.Length1 == 3
    }

    ghost function Row(p: nat): Adjustment
      requires adjustments.Length0 == PRESET_COUNT && adjustments.Length1 == 3 && p < PRESET_COUNT
      reads adjustments
    {
      Adjustment(adjustments[p, 0], adjustments[p, 1], adjustments[p, 2])
    }

    ghost function Rows(): (rows: seq<Adjustment>)
      requires adjustments.Length0 == PRESET_COUNT && adjustments.Length1 == 3
      reads adjustments
      ensures |rows| == PRESET_COUNT && forall p | 0 <= p < PRESET_COUNT :: rows[p] == Row(p)
    {
      seq(PRESET_COUNT, p requires 0 <= p < PRESET_COUNT
                          requires adjustments.Length0 == PRESET_COUNT && adjustments.Length1 == 3
                          reads adjustments => Row(p))
    }

    /** The settings record the state stands for. */
    ghost function Settings(): RuntimeSettings
      requires Shaped()
      reads this, recent, adjustments
    {
      RuntimeSettings(selectedStyle, intensity, favoritesLo, favoritesHi, recent[..recentCount], Rows(), 2, diagnostics)
    }

    ghost function Showing(): View
      requires Shaped()
      reads this, recent, adjustments
    {
      View(scene, parameterIndex, Settings())
    }

    /** The ranges every method keeps; distinct recents are kept too, but a settings file may lack them. */
    ghost predicate Valid()
      reads this, recent, adjustments
    {
      Shaped() && Bounded(Settings())
    }

    constructor ()
      ensures Valid() && Settings() == Defaults() && parameterIndex == 0 && scene == CameraScene
      ensures fresh(recent) && fresh(adjustments)
    {
      selectedStyle, intensity, parameterIndex, favoritesLo, favoritesHi, diagnostics := 0, 100, 0, 0, 0, false;
      scene := CameraScene;
      recentCount := 0;
      recent := new PresetNumber[MAX_RECENT](_ => 0);
      adjustments := new int[PRESET_COUNT, 3]((_, _) => 0);
      new;
      assert Settings().adjustments == Defaults().adjustments;
    }

    /** Moves every entry below `top` up by one, over the one that stood at `top`. */
    method ShiftUp(top: nat)
      requires top < recent.Length
      modifies recent
      ensures recent[0] == old(recent[0]) && recent[1..] == old(recent[..top] + recent[top + 1..])
    {
      var i := top;
      while i > 0
        invariant 0 <= i <= top
        invariant forall k | 0 <= k <= i :: recent[k] == old(recent[k])
        invariant forall k | i < k <= top :: recent[k] == old(recent[k - 1])
        invariant forall k | top < k < recent.Length :: recent[k] == old(recent[k])
      {
        recent[i] := recent[i - 1];
        i := i - 1;
      }
    }

    method FindRecent(preset: PresetNumber) returns (existing: int)
      requires Shaped()
      ensures existing == LastAt(recent[..recentCount], preset)
    {
      existing := -1;
      for i := 0 to recentCount
        invariant existing == LastAt(recent[..i], preset)
      {
        assert recent[..i + 1][..i] == recent[..i];
        if recent[i] == preset {
          existing := i;
        }
      }
    }

    /** Move to front in place: find the preset, then shift what stood before it, or everything, by one. */
    method RecordRecent(preset: PresetNumber)
      requires Shaped()
      modifies this`recentCount, recent
      ensures Shaped() && recent[..recentCount] == Recorded(old(recent[..recentCount]), preset)
      ensures Rows() == old(Rows())
    {
      hide LastAt, Recorded;
      ghost var was, count := recent[..], recentCount;
      var existing := FindRecent(preset);
      assert was[..count] == recent[..count];
      if existing >= 0 {
        ShiftUp(existing);
        recent[0] := preset;
        RecordedInPlace(was, count, recent[..], recentCount, preset, existing);
      } else {
        if recentCount < MAX_RECENT {
          recentCount := recentCount + 1;
        }
        ShiftUp(recentCount - 1);
        recent[0] := preset;
        RecordedInPlace(was, count, recent[..], recentCount, preset, recentCount - 1);
      }
      assert recent[..][..recentCount] == recent[..recentCount];
    }

    /** What every choice of a style ends with. */
    method TakeStyle(preset: PresetNumber)
      requires Valid()
      modifies this`selectedStyle, this`recentCount, recent
      ensures Valid() && selectedStyle == preset && Settings() == Used(old(Settings()), Choose(preset))
    {
      hide Recorded;
      UsedStaysBounded(Settings(), Choose(preset));
      selectedStyle := preset;
      RecordRecent(preset);
    }

    /** changeStyle: any number of presets on or back; zero records nothing. */
    method ChangeStyle(delta: int)
      requires Valid()
      modifies this`selectedStyle, this`recentCount, recent
      ensures Valid() && selectedStyle == (old(selectedStyle) + delta) % PRESET_COUNT
      ensures Settings() == if delta == 0 then old(Settings()) else Used(old(Settings()), Choose(selectedStyle))
    {
      WrapsAround(selectedStyle, delta);
      hide Used, TruncRem, Bounded;
      if delta != 0 {
        var style := TruncRem(selectedStyle + delta, PRESET_COUNT);
        if style < 0 {
          style := style + PRESET_COUNT;
        }
        TakeStyle(style);
      }
    }

    /** The previous and next keys and a swipe. */
    method StepStyle(direction: int)
      requires Valid() && (direction == 1 || direction == -1)
      modifies this`selectedStyle, this`recentCount, recent
      ensures Valid() && selectedStyle == Around(old(selectedStyle), direction, 1)
      ensures Settings() == Used(old(Settings()), Choose(selectedStyle))
    {
      AroundOnce(selectedStyle, direction);
      hide Used, Around, Bounded;
      TakeStyle((selectedStyle + direction + PRESET_COUNT) % PRESET_COUNT);
    }

    /** The up and down keys: on to the first preset of another category. */
    method ChangeCategory(direction: int)
      requires Valid() && (direction == 1 || direction == -1)
      modifies this`selectedStyle, this`recentCount, recent
      ensures Valid() && Settings() == Used(old(Settings()), Choose(selectedStyle))
      ensures exists k ::
                FirstOther(old(selectedStyle), direction, k)
                && selectedStyle == Around(old(selectedStyle), direction, k)
    {
      hide Used, Around, Bounded, FirstOther;
      var candidate := NextCategory(selectedStyle, direction);
      TakeStyle(candidate);
    }

    method AdjustParameter(direction: int)
      requires Valid()
      modifies this`intensity, adjustments
      ensures Valid() && Settings() == Used(old(Settings()), Step(parameterIndex, direction))
    {
      UsedStaysBounded(Settings(), Step(parameterIndex, direction));
      if parameterIndex == 0 {
        intensity := Saturated(intensity + direction * 5, 0, 100);
      } else {
        var index := parameterIndex - 1;
        adjustments[selectedStyle, index] :=
          Saturated(adjustments[selectedStyle, index] + direction * StepOf(index), -Limit(index), Limit(index));
        assert Rows() == Used(old(Settings()), Step(parameterIndex, direction)).adjustments;
      }
    }

    method MoveParameter(down: bool)
      requires Valid()
      modifies this`parameterIndex
      ensures Valid() && Settings() == old(Settings())
      ensures parameterIndex == (old(parameterIndex) + (if down then 1 else -1)) % 4
    {
      parameterIndex := (parameterIndex + (if down then 1 else 3)) % 4;
    }

    method ToggleFavorite()
      requires Valid()
      modifies this`favoritesLo, this`favoritesHi
      ensures Valid() && Settings() == Used(old(Settings()), Favorite)
    {
      UsedStaysBounded(Settings(), Favorite);
      if selectedStyle < 64 {
        favoritesLo := Xor(favoritesLo, TwoTo(selectedStyle));
      } else {
        favoritesHi := Xor(favoritesHi, TwoTo(selectedStyle - 64));
      }
    }

    /** Fn: the diagnostics scene opens or closes, and the flag follows the scene. */
    method ToggleDiagnostics()
      requires Valid()
      modifies this`scene, this`diagnostics
      ensures Valid() && scene == SceneAfter(old(scene), Fn)
      ensures Settings() == Used(old(Settings()), Diagnostics(scene == DiagnosticsScene))
    {
      scene := if scene == DiagnosticsScene then CameraScene else DiagnosticsScene;
      diagnostics := scene == DiagnosticsScene;
    }

    /** key, for a key that goes down: what it does depends on the scene. */
    method Press(key: Key)
      requires Valid()
      modifies this, recent, adjustments
      ensures Valid() && Pressed(old(Showing()), key, Showing())
    {
      hide Used, Around, Bounded, FirstOther;
      match key {
        case Sideways(forward) =>
          if scene == ControlsScene {
            AdjustParameter(Direction(forward));
          } else if scene != GalleryScene {
            StepStyle(Direction(forward));
          }
        case Vertical(down) =>
          if scene == ControlsScene {
            MoveParameter(down);
          } else if scene != GalleryScene {
            ChangeCategory(Direction(down));
          }
        case Center =>
          if scene == GalleryScene {
            ToggleFavorite();
          } else if scene != ConfirmScene {
            scene := if scene == ControlsScene then CameraScene else ControlsScene;
          }
        case Menu => scene := if scene == BrowserScene then CameraScene else BrowserScene;
        case Playback => scene := if scene == GalleryScene then CameraScene else GalleryScene;
        case Fn => ToggleDiagnostics();
        case Back =>
          if scene == GalleryScene {
            scene := ConfirmScene;
          } else if scene == ConfirmScene {
            scene := GalleryScene;
          } else if scene != CameraScene {
            scene := CameraScene;
          }
      }
    }

    /** settingsLocked */
    method SettingsNow() returns (s: RuntimeSettings)
      requires Valid()
      ensures s == Settings()
    {
      var rows: seq<Adjustment> := [];
      for p := 0 to PRESET_COUNT
        invariant |rows| == p && forall q | 0 <= q < p :: rows[q] == Row(q)
      {
        rows := rows + [Adjustment(adjustments[p, 0], adjustments[p, 1], adjustments[p, 2])];
      }
      assert rows == Rows();
      s := RuntimeSettings(selectedStyle, intensity, favoritesLo, favoritesHi, recent[..recentCount], rows, 2,
                           diagnostics);
    }

    /** What the photo thread does with loaded settings; motion is not taken over. */
    method Restore(s: RuntimeSettings)
      requires Valid() && Bounded(s)
      modifies this, recent, adjustments
      ensures Valid() && Settings() == s.(motion := 2) && parameterIndex == old(parameterIndex) && scene == old(scene)
    {
      selectedStyle, intensity, diagnostics := s.selectedPreset, s.intensity, s.diagnostics;
      favoritesLo, favoritesHi := s.favoritesLo, s.favoritesHi;
      recentCount := |s.recent|;
      CopyRecent(s.recent);
      CopyRows(s.adjustments);
      assert Rows() == s.adjustments;
      assert recent[..recentCount] == s.recent;
    }

    method CopyRecent(list: seq<PresetNumber>)
      requires |list| <= recent.Length
      modifies recent
      ensures recent[..|list|] == list
    {
      for i := 0 to |list|
        invariant recent[..i] == list[..i]
      {
        recent[i] := list[i];
      }
    }

    method CopyRows(rows: seq<Adjustment>)
      requires adjustments.Length0 == PRESET_COUNT && adjustments.Length1 == 3 && |rows| == PRESET_COUNT
      modifies adjustments
      ensures forall p | 0 <= p < PRESET_COUNT :: Row(p) == rows[p]
    {
      for p := 0 to PRESET_COUNT
        invariant forall q | 0 <= q < p :: Row(q) == rows[q]
      {
        adjustments[p, 0], adjustments[p, 1], adjustments[p, 2] := rows[p].contrast, rows[p].grain, rows[p].motion;
      }
    }
  }
}
