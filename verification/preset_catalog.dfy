/** The catalog of 70 presets: the id column, kept in rows of seven so that each row stays cheap to
    evaluate, and the facts about ids that the text formats and the rebuild rely on. */
module PresetCatalog {
  import opened CText

  const PRESET_COUNT: nat := 70
  const ROW_LENGTH: nat := 7

  type PresetNumber = x: nat | x < PRESET_COUNT

  const ROW0: seq<string> := [
    "olive_pocket", "silver_pocket", "virtual_red", "dot_matrix_toy",
    "calculator_vision", "pocket_color", "one_bit_desktop"]
  const ROW1: seq<string> := [
    "cga_shock", "ega_sixteen", "vga_sixteen", "amber_terminal",
    "green_terminal", "teletext", "ansi_camera"]
  const ROW2: seq<string> := [
    "ascii_mono", "ascii_color", "braille_mosaic", "eight_bit_summer",
    "sixteen_bit_arcade", "arcade_cabinet", "composite_console"]
  const ROW3: seq<string> := [
    "rf_channel_three", "consumer_crt", "aperture_grille", "shadow_mask",
    "late_night_broadcast", "ntsc_composite", "pal_ghost"]
  const ROW4: seq<string> := [
    "secam_state_tv", "vhs_rental", "damaged_vhs", "video8_family",
    "hi8_vacation", "minidv_2002", "early_webcam"]
  const ROW5: seq<string> := [
    "cctv_1996", "night_security", "super_eight", "sixteen_millimeter_news",
    "soviet_archive_1978", "state_archive_color", "cosmonaut_tape"]
  const ROW6: seq<string> := [
    "expired_slide", "bleach_bypass", "cross_process", "orthochromatic",
    "cyanotype", "newsprint", "cmyk_misprint"]
  const ROW7: seq<string> := [
    "risograph", "manga_screen", "photocopier", "thermal_receipt",
    "pencil_draft", "comic_ink", "jpeg_hell"]
  const ROW8: seq<string> := [
    "databent_preview", "frame_echo", "signal_tear", "pixel_sort",
    "piss_filter_2007", "brown_apocalypse", "teal_orange_blockbuster"]
  const ROW9: seq<string> := [
    "green_code", "blue_scifi_2004", "bloom_shooter", "thermal_false_color",
    "infrared_false_color", "edge_scanner", "blueprint"]

  function Row(r: nat): seq<string>
    requires r < 10
  {
    match r
    case 0 => ROW0
    case 1 => ROW1
    case 2 => ROW2
    case 3 => ROW3
    case 4 => ROW4
    case 5 => ROW5
    case 6 => ROW6
    case 7 => ROW7
    case 8 => ROW8
    case _ => ROW9
  }

  lemma RowLength(r: nat)
    requires r < 10
    ensures |Row(r)| == ROW_LENGTH
  {
    match r
    case 0 => assert |ROW0| == 7;
    case 1 => assert |ROW1| == 7;
    case 2 => assert |ROW2| == 7;
    case 3 => assert |ROW3| == 7;
    case 4 => assert |ROW4| == 7;
    case 5 => assert |ROW5| == 7;
    case 6 => assert |ROW6| == 7;
    case 7 => assert |ROW7| == 7;
    case 8 => assert |ROW8| == 7;
    case _ => assert |ROW9| == 7;
  }

  function PresetId(index: nat): string
    requires index < PRESET_COUNT
  {
    RowLength(index / ROW_LENGTH);
    Row(index / ROW_LENGTH)[index % ROW_LENGTH]
  }

  // ---- what the ids look like --------------------------------------------------------------

  predicate IdChar(c: char) {
    c == '_' || '0' <= c <= '9' || 'a' <= c <= 'z'
  }

  predicate IdText(s: string) {
    forall c <- s :: IdChar(c)
  }

  ghost predicate RowFacts(row: seq<string>) {
    forall k | 0 <= k < |row| :: 8 <= |row[k]| <= 23 && IdText(row[k])
  }

  lemma RowFacts0() ensures RowFacts(ROW0) {}
  lemma RowFacts1() ensures RowFacts(ROW1) {}
  lemma RowFacts2() ensures RowFacts(ROW2) {}
  lemma RowFacts3() ensures RowFacts(ROW3) {}
  lemma RowFacts4() ensures RowFacts(ROW4) {}
  lemma RowFacts5() ensures RowFacts(ROW5) {}
  lemma RowFacts6() ensures RowFacts(ROW6) {}
  lemma RowFacts7() ensures RowFacts(ROW7) {}
  lemma RowFacts8() ensures RowFacts(ROW8) {}
  lemma RowFacts9() ensures RowFacts(ROW9) {}

  lemma IdFacts(index: nat)
    requires index < PRESET_COUNT
    ensures 8 <= |PresetId(index)| <= 23 && IdText(PresetId(index))
  {
    var r, k := index / ROW_LENGTH, index % ROW_LENGTH;
    RowLength(r);
    assert RowFacts(Row(r)) by {
      match r
      case 0 => RowFacts0();
      case 1 => RowFacts1();
      case 2 => RowFacts2();
      case 3 => RowFacts3();
      case 4 => RowFacts4();
      case 5 => RowFacts5();
      case 6 => RowFacts6();
      case 7 => RowFacts7();
      case 8 => RowFacts8();
      case _ => RowFacts9();
    }
    assert Row(r)[k] == PresetId(index);
  }

  // ---- ids are recognised from their end ----------------------------------------------------

  ghost function FromEnd(s: string, k: nat): char {
    if 0 < k <= |s| then s[|s| - k] else ' '
  }

  /** A decision tree over the last thirteen bytes. It settles which id, if any, a text can end with
      once that id is preceded by an underscore. */
  ghost function Recognised(s: string): int {
    var c := FromEnd(s, 4);
    if c == 'k' then 6 else
    if c == 'b' then 34 else
    if c == 'l' then 42 else
    if c == 'a' then 45 else
    if c == 'v' then 56 else
    if c == 'y' then 61 else
    if c == '1' then (var d := FromEnd(s, 1); if d == '6' then 35 else 39) else
    if c == 'p' then (var d := FromEnd(s, 1); if d == 's' then 43 else 51) else
    if c == 'e' then (var d := FromEnd(s, 1); if d == 'v' then 28 else if d == 't' then 52 else 57) else
    if c == 'n' then (var d := FromEnd(s, 1); if d == 'l' then 29 else if d == 's' then 38 else 68) else
    if c == '2' then (var d := FromEnd(s, 1); if d == '2' then 33 else if d == '7' then 60 else 64) else
    if c == 'h' then (var d := FromEnd(s, 1); if d == 'k' then 7 else if d == 'e' then 21
            else if d == 't' then 27 else 55) else
    if c == '_' then (var d := FromEnd(s, 1); if d == 'd' then 2 else if d == 'y' then 3
            else if d == 't' then 22 else if d == 's' then 30 else 54) else
    if c == 'i' then (var d := FromEnd(s, 12); if d == 'b' then 10 else if d == 'e' then 11
            else if d == 'c' then 19 else if d == 'r' then 23 else 37) else
    if c == 'm' then (var d := FromEnd(s, 1); if d == 'a' then 13 else if d == 'o' then 14
            else if d == 'r' then 17 else if d == 'k' then 24 else 31) else
    if c == 'c' then (var d := FromEnd(s, 9); if d == 'v' then 0 else if d == 'e' then 1
            else if d == 'i' then 18 else if d == 'b' then 25 else if d == 's' then 44 else 63) else
    if c == 's' then (var d := FromEnd(s, 2); if d == 'o' then 4 else if d == 'i' then 16
            else if d == 'l' then 20 else if d == 't' then 26 else if d == 'r' then 59 else 62) else
    if c == 'o' then (var d := FromEnd(s, 8); if d == 'e' then 5 else if d == 'i' then 15
            else if d == 'v' then 40 else if d == '_' then 65
            else (var e := FromEnd(s, 13); if e == 'l' then 66 else 67)) else
    if c == 't' then (var d := FromEnd(s, 2); if d == 'x' then 12 else if d == 'o' then 32
            else if d == 'a' then 58
            else if d == 'e' then (var e := FromEnd(s, 11); if e == 'e' then 8 else 9)
            else (var e := FromEnd(s, 3); if e == 'a' then 41 else 46)) else
    (var d := FromEnd(s, 7); if d == 'e' then 36 else if d == 'w' then 47 else if d == 'i' then 48
            else if d == 's' then 49 else if d == '_' then 50 else if d == 'l' then 53 else 69)
  }

  ghost predicate Recognises(row: seq<string>, first: nat) {
    forall k, s | 0 <= k < |row| && EndsWith(s, "_" + row[k]) :: Recognised(s) == first + k
  }

  lemma SuffixChars(s: string, suffix: string)
    requires EndsWith(s, suffix)
    ensures forall k | 0 < k <= |suffix| :: FromEnd(s, k) == suffix[|suffix| - k]
  {
    forall k | 0 < k <= |suffix| ensures FromEnd(s, k) == suffix[|suffix| - k] {
      assert s[|s| - k] == s[|s| - |suffix|..][|suffix| - k];
    }
  }

  lemma Recognises0()
    ensures Recognises(ROW0, 0)
  {
    forall k, s | 0 <= k < |ROW0| && EndsWith(s, "_" + ROW0[k]) ensures Recognised(s) == 0 + k {
      SuffixChars(s, "_" + ROW0[k]);
    }
  }

  lemma Recognises1()
    ensures Recognises(ROW1, 7)
  {
    forall k, s | 0 <= k < |ROW1| && EndsWith(s, "_" + ROW1[k]) ensures Recognised(s) == 7 + k {
      SuffixChars(s, "_" + ROW1[k]);
    }
  }

  lemma Recognises2()
    ensures Recognises(ROW2, 14)
  {
    forall k, s | 0 <= k < |ROW2| && EndsWith(s, "_" + ROW2[k]) ensures Recognised(s) == 14 + k {
      SuffixChars(s, "_" + ROW2[k]);
    }
  }

  lemma Recognises3()
    ensures Recognises(ROW3, 21)
  {
    forall k, s | 0 <= k < |ROW3| && EndsWith(s, "_" + ROW3[k]) ensures Recognised(s) == 21 + k {
      SuffixChars(s, "_" + ROW3[k]);
    }
  }

  lemma Recognises4()
    ensures Recognises(ROW4, 28)
  {
    forall k, s | 0 <= k < |ROW4| && EndsWith(s, "_" + ROW4[k]) ensures Recognised(s) == 28 + k {
      SuffixChars(s, "_" + ROW4[k]);
    }
  }

  lemma Recognises5()
    ensures Recognises(ROW5, 35)
  {
    forall k, s | 0 <= k < |ROW5| && EndsWith(s, "_" + ROW5[k]) ensures Recognised(s) == 35 + k {
      SuffixChars(s, "_" + ROW5[k]);
    }
  }

  lemma Recognises6()
    ensures Recognises(ROW6, 42)
  {
    forall k, s | 0 <= k < |ROW6| && EndsWith(s, "_" + ROW6[k]) ensures Recognised(s) == 42 + k {
      SuffixChars(s, "_" + ROW6[k]);
    }
  }

  lemma Recognises7()
    ensures Recognises(ROW7, 49)
  {
    forall k, s | 0 <= k < |ROW7| && EndsWith(s, "_" + ROW7[k]) ensures Recognised(s) == 49 + k {
      SuffixChars(s, "_" + ROW7[k]);
    }
  }

  lemma Recognises8()
    ensures Recognises(ROW8, 56)
  {
    forall k, s | 0 <= k < |ROW8| && EndsWith(s, "_" + ROW8[k]) ensures Recognised(s) == 56 + k {
      SuffixChars(s, "_" + ROW8[k]);
    }
  }

  lemma Recognises9()
    ensures Recognises(ROW9, 63)
  {
    forall k, s | 0 <= k < |ROW9| && EndsWith(s, "_" + ROW9[k]) ensures Recognised(s) == 63 + k {
      SuffixChars(s, "_" + ROW9[k]);
    }
  }

  /** Whatever ends with an underscore and an id ends with no other id in that way. */
  lemma RecognisedId(index: nat, s: string)
    requires index < PRESET_COUNT && EndsWith(s, "_" + PresetId(index))
    ensures Recognised(s) == index
  {
    var r, k := index / ROW_LENGTH, index % ROW_LENGTH;
    RowLength(r);
    assert Recognises(Row(r), r * ROW_LENGTH) by {
      match r
      case 0 => Recognises0();
      case 1 => Recognises1();
      case 2 => Recognises2();
      case 3 => Recognises3();
      case 4 => Recognises4();
      case 5 => Recognises5();
      case 6 => Recognises6();
      case 7 => Recognises7();
      case 8 => Recognises8();
      case _ => Recognises9();
    }
    assert EndsWith(s, "_" + Row(r)[k]);
  }

  lemma SuffixFree(a: nat, b: nat, s: string)
    requires a < PRESET_COUNT && b < PRESET_COUNT
    requires EndsWith(s, "_" + PresetId(a)) && EndsWith(s, "_" + PresetId(b))
    ensures a == b
  {
    RecognisedId(a, s);
    RecognisedId(b, s);
  }

  lemma IdsDistinct(a: nat, b: nat)
    requires a < PRESET_COUNT && b < PRESET_COUNT && PresetId(a) == PresetId(b)
    ensures a == b
  {
    var s := "_" + PresetId(a);
    assert EndsWith(s, s);
    SuffixFree(a, b, s);
  }

  // ---- lookup ------------------------------------------------------------------------------

  /** findPreset: the first id equal to the argument, entry 0 when there is none. */
  function PresetIndex(id: string): (i: nat)
    ensures i < PRESET_COUNT
  {
    PresetIndexFrom(id, 0)
  }

  function PresetIndexFrom(id: string, from: nat): (i: nat)
    requires from <= PRESET_COUNT
    ensures i < PRESET_COUNT
    decreases PRESET_COUNT - from
  {
    if from == PRESET_COUNT then 0
    else if id == PresetId(from) then from
    else PresetIndexFrom(id, from + 1)
  }

  /** The first preset with the id; 0 when there is none. */
  method FindPreset(id: string) returns (index: nat)
    ensures index < PRESET_COUNT && index == PresetIndex(id)
    ensures || (PresetId(index) == id && forall k: nat | k < index :: PresetId(k) != id)
            || (index == 0 && forall k: nat | k < PRESET_COUNT :: PresetId(k) != id)
  {
    hide PresetId, PresetIndexFrom;
    index := 0;
    while index < PRESET_COUNT
      invariant index <= PRESET_COUNT && PresetIndex(id) == PresetIndexFrom(id, index)
      invariant forall k: nat | k < index :: PresetId(k) != id
    {
      PresetIndexStep(id, index);
      if id == PresetId(index) {
        return;
      }
      index := index + 1;
    }
    PresetIndexEnd(id);
    index := 0;
  }

  lemma PresetIndexStep(id: string, from: nat)
    requires from < PRESET_COUNT
    ensures PresetIndexFrom(id, from) == if id == PresetId(from) then from else PresetIndexFrom(id, from + 1)
  {
    hide PresetId;
  }

  lemma PresetIndexEnd(id: string)
    ensures PresetIndexFrom(id, PRESET_COUNT) == 0
  {}

  lemma {:induction false} FoundAt(index: nat, from: nat)
    requires from <= index < PRESET_COUNT
    ensures PresetIndexFrom(PresetId(index), from) == index
    decreases index - from
  {
    if PresetId(from) == PresetId(index) {
      IdsDistinct(from, index);
    } else {
      FoundAt(index, from + 1);
    }
  }

  /** Every id finds its own preset, so a printed id is never read back as another preset. */
  lemma LookupInverts(index: nat)
    requires index < PRESET_COUNT
    ensures PresetIndex(PresetId(index)) == index
  {
    FoundAt(index, 0);
  }

  /** What a lookup finds is the id looked for, unless it finds preset 0. */
  lemma FoundMeansId(id: string)
    ensures PresetIndex(id) == 0 || PresetId(PresetIndex(id)) == id
  {
    hide PresetId;
    FoundFrom(id, 0);
  }

  lemma {:induction false} FoundFrom(id: string, from: nat)
    requires from <= PRESET_COUNT
    ensures PresetIndexFrom(id, from) == 0 || PresetId(PresetIndexFrom(id, from)) == id
    decreases PRESET_COUNT - from
  {
    hide PresetId;
    if from < PRESET_COUNT {
      FoundFrom(id, from + 1);
    }
  }

  /** Only preset 0 begins with an o and an l. */
  ghost predicate NoOlive(row: seq<string>, from: nat) {
    forall k | from <= k < |row| :: |row[k]| >= 2 && (row[k][0] != 'o' || row[k][1] != 'l')
  }

  lemma RowHasNoOlive(r: nat)
    requires 0 < r < 10
    ensures NoOlive(Row(r), 0)
  {
    if r < 6 {
      EarlyRowHasNoOlive(r);
    } else {
      LateRowHasNoOlive(r);
    }
  }

  lemma EarlyRowHasNoOlive(r: nat)
    requires 0 < r < 6
    ensures NoOlive(Row(r), 0)
  {
    match r
    case 1 => assert NoOlive(ROW1, 0);
    case 2 => assert NoOlive(ROW2, 0);
    case 3 => assert NoOlive(ROW3, 0);
    case 4 => assert NoOlive(ROW4, 0);
    case _ => assert NoOlive(ROW5, 0);
  }

  lemma LateRowHasNoOlive(r: nat)
    requires 6 <= r < 10
    ensures NoOlive(Row(r), 0)
  {
    match r
    case 6 => assert NoOlive(ROW6, 0);
    case 7 => assert NoOlive(ROW7, 0);
    case 8 => assert NoOlive(ROW8, 0);
    case _ => assert NoOlive(ROW9, 0);
  }

  lemma FirstRowHasOneOlive()
    ensures Row(0) == ROW0 && NoOlive(ROW0, 1)
    ensures ROW0[0][0] == 'o' && ROW0[0][1] == 'l' && |ROW0[0]| == 12 && PresetId(0) == ROW0[0]
  {
    assert ROW0[0] == "olive_pocket";
  }

  lemma OlivesPrefix(p: PresetNumber, n: nat)
    requires 0 < p && 0 < n < |PresetId(0)|
    ensures PresetId(p) != PresetId(0)[..n]
  {
    hide Row;
    var r, k := p / ROW_LENGTH, p % ROW_LENGTH;
    RowLength(r);
    FirstRowHasOneOlive();
    if r > 0 {
      RowHasNoOlive(r);
    }
    assert Row(r)[k] == PresetId(p);
  }
}
