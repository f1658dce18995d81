/** How much twelve distinct preset ids can take on the recent= line. */
module RecentLine {
  import opened PresetCatalog

  const MAX_RECENT: nat := 12
  const SHORT_ID: nat := 16

  ghost predicate Distinct(recent: seq<PresetNumber>) {
    forall i, j | 0 <= i < j < |recent| :: recent[i] != recent[j]
  }

  /** The ids, separated by commas. */
  function Joined(recent: seq<PresetNumber>): string {
    if recent == [] then ""
    else if |recent| == 1 then PresetId(recent[0])
    else PresetId(recent[0]) + "," + Joined(recent[1..])
  }

  /** How many bytes of an id lie beyond the sixteenth. */
  ghost function Excess(p: PresetNumber): nat {
    if |PresetId(p)| > SHORT_ID then |PresetId(p)| - SHORT_ID else 0
  }

  ghost function ExcessOf(recent: seq<PresetNumber>): nat {
    if recent == [] then 0 else Excess(recent[0]) + ExcessOf(recent[1..])
  }

  ghost function ExcessBelow(n: nat): nat
    requires n <= PRESET_COUNT
  {
    if n == 0 then 0 else ExcessBelow(n - 1) + Excess(n - 1)
  }

  lemma {:induction false} JoinedLength(recent: seq<PresetNumber>)
    ensures |Joined(recent)| <= |recent| * (SHORT_ID + 1) + ExcessOf(recent)
    ensures recent != [] ==> |Joined(recent)| < |recent| * (SHORT_ID + 1) + ExcessOf(recent)
  {
    hide PresetId;
    if recent != [] {
      JoinedLength(recent[1..]);
    }
  }

  // ---- distinct presets cannot all be long --------------------------------------------------------

  function Without(recent: seq<PresetNumber>, p: PresetNumber): seq<PresetNumber> {
    if recent == [] then []
    else if recent[0] == p then recent[1..]
    else [recent[0]] + Without(recent[1..], p)
  }

  lemma {:induction false} WithoutFacts(recent: seq<PresetNumber>, p: PresetNumber)
    requires Distinct(recent)
    ensures Distinct(Without(recent, p)) && p !in Without(recent, p)
    ensures forall x <- Without(recent, p) :: x in recent
    ensures ExcessOf(recent) <= ExcessOf(Without(recent, p)) + Excess(p)
  {
    hide Excess;
    if recent != [] {
      var rest := recent[1..];
      WithoutFacts(rest, p);
      if recent[0] == p {
        assert forall k | 0 <= k < |rest| :: rest[k] == recent[k + 1];
      } else {
        assert recent[0] !in Without(rest, p) by {
          assert forall k | 0 <= k < |rest| :: rest[k] == recent[k + 1];
        }
        assert Without(recent, p)[1..] == Without(rest, p);
      }
    }
  }

  lemma {:induction false} DistinctExcess(recent: seq<PresetNumber>, n: nat)
    requires n <= PRESET_COUNT && Distinct(recent) && forall x <- recent :: x < n
    ensures ExcessOf(recent) <= ExcessBelow(n)
    decreases n
  {
    hide Excess;
    if recent != [] {
      assert recent[0] in recent;
      WithoutFacts(recent, n - 1);
      DistinctExcess(Without(recent, n - 1), n - 1);
    }
  }

  lemma InRow(r: nat, k: nat)
    requires r < 10 && k < ROW_LENGTH
    ensures |Row(r)| == ROW_LENGTH && Excess(r * ROW_LENGTH + k) == Beyond(Row(r)[k])
    ensures ExcessBelow(r * ROW_LENGTH + k + 1) == ExcessBelow(r * ROW_LENGTH + k) + Beyond(Row(r)[k])
  {
    hide Row;
    RowLength(r);
  }

  lemma RowExcess(r: nat)
    requires r < 10 && |Row(r)| == ROW_LENGTH
    ensures ExcessBelow(r * ROW_LENGTH + ROW_LENGTH) == ExcessBelow(r * ROW_LENGTH) + RowSum(Row(r))
  {
    hide Row, Excess, Beyond, ExcessBelow;
    InRow(r, 0);
    InRow(r, 1);
    InRow(r, 2);
    InRow(r, 3);
    InRow(r, 4);
    InRow(r, 5);
    InRow(r, 6);
  }

  ghost function Beyond(id: string): nat {
    if |id| > SHORT_ID then |id| - SHORT_ID else 0
  }

  ghost function RowSum(row: seq<string>): nat
    requires |row| == ROW_LENGTH
  {
    Beyond(row[0]) + Beyond(row[1]) + Beyond(row[2]) + Beyond(row[3]) + Beyond(row[4]) + Beyond(row[5]) + Beyond(row[6])
  }

  lemma CatalogExcess()
    ensures ExcessBelow(PRESET_COUNT) == 35
  {
    hide Excess;
    assert RowSum(ROW0) == 1;
    assert RowSum(ROW1) == 0;
    assert RowSum(ROW2) == 3;
    assert RowSum(ROW3) == 4;
    assert RowSum(ROW4) == 0;
    assert RowSum(ROW5) == 13;
    assert RowSum(ROW6) == 0;
    assert RowSum(ROW7) == 0;
    assert RowSum(ROW8) == 7;
    assert RowSum(ROW9) == 7;
    for r := 0 to 10
      invariant ExcessBelow(r * ROW_LENGTH) == [0, 1, 1, 4, 8, 8, 21, 21, 21, 28, 35][r]
    {
      RowLength(r);
      RowExcess(r);
    }
  }

  /** Twelve distinct ids fit the settings loader's 256-byte line buffer, key and line feed included. */
  lemma RecentLineFits(recent: seq<PresetNumber>)
    requires |recent| <= MAX_RECENT && Distinct(recent)
    ensures |"recent=" + Joined(recent)| + 2 <= 256
  {
    JoinedLength(recent);
    DistinctExcess(recent, PRESET_COUNT);
    CatalogExcess();
  }

  const LONGEST: PresetNumber := 38

  /** Without distinctness the line can overflow: twelve times a longest id is 39 characters too long. */
  lemma RepeatedIdsDoNotFit()
    ensures |"recent=" + Joined(seq(MAX_RECENT, _ => LONGEST))| == 294
  {
    assert |ROW5[3]| == 23;
    assert PresetId(LONGEST) == ROW5[3] by { RowLength(5); }
    RepeatedLength(LONGEST, MAX_RECENT);
  }

  lemma {:induction false} RepeatedLength(p: PresetNumber, n: nat)
    requires n > 0
    ensures |Joined(seq(n, _ => p))| == n * |PresetId(p)| + n - 1
  {
    hide PresetId;
    var s := seq(n, _ => p);
    if n > 1 {
      assert s[1..] == seq(n - 1, _ => p);
      RepeatedLength(p, n - 1);
    }
  }
}
