/** rebuildIndex: which photos of a directory listing are candidates, which 48 of them are kept, and in
    which order. The entry buffer is worked on in place. */
module PhotoRebuild {
  import opened CText
  import opened CardFiles
  import opened PhotoIndex
  import opened PhotoNames
  import opened PresetCatalog

  const INSPECTED_LIMIT: nat := 512

  /** One readdir item, with the modification time stat gives in seconds, if stat succeeds. */
  datatype DirItem = DirItem(name: string, mtime: Option<int32>)

  function Found(item: DirItem): Option<PhotoEntry> {
    var filename := Truncated(item.name, FILENAME_BUFFER);
    if !EndsWith(item.name, PREVIEW_ENDING) || '/' in item.name || Contains(item.name, "..") then None else
    match RecoveredFrom(filename, 0)
    case None => None
    case Some(preset) =>
      Some(PhotoEntry(if item.mtime.Some? then item.mtime.value * 1000 else 0, preset, false, filename))
  }

  predicate IsCandidate(files: Files, item: DirItem) {
    Found(item).Some? && ValidEntry(files, Found(item).value)
  }

  function Candidates(files: Files, items: seq<DirItem>): seq<PhotoEntry> {
    if items == [] then [] else
    var last := items[|items| - 1];
    Candidates(files, items[..|items| - 1]) + if IsCandidate(files, last) then [Found(last).value] else []
  }

  function Inspected(listing: seq<DirItem>): seq<DirItem> {
    if |listing| <= INSPECTED_LIMIT then listing else listing[..INSPECTED_LIMIT]
  }

  // ---- selection -------------------------------------------------------------------------------

  ghost predicate NoneOlder(kept: multiset<PhotoEntry>, dropped: multiset<PhotoEntry>) {
    forall k, d | k in kept && d in dropped :: k.timestampMs >= d.timestampMs
  }

  /** The kept entries are as many as fit; with the dropped ones they make up all candidates; none of them
      is older than a dropped one. */
  ghost predicate KeepsNewest(kept: multiset<PhotoEntry>, dropped: multiset<PhotoEntry>, all: seq<PhotoEntry>) {
    && kept + dropped == multiset(all)
    && |kept| == (if |all| <= MAX_ENTRIES then |all| else MAX_ENTRIES)
    && NoneOlder(kept, dropped)
  }

  method OldestOf(entries: array<PhotoEntry>, count: nat) returns (oldest: nat)
    requires 0 < count <= entries.Length
    ensures oldest < count && forall k | 0 <= k < count :: entries[oldest].timestampMs <= entries[k].timestampMs
  {
    oldest := 0;
    for index := 1 to count
      invariant oldest < count && forall k | 0 <= k < index :: entries[oldest].timestampMs <= entries[k].timestampMs
    {
      if entries[index].timestampMs < entries[oldest].timestampMs {
        oldest := index;
      }
    }
  }

  /** One candidate of the streaming selection: appended while there is room, otherwise it replaces the
      oldest kept entry if it is newer. */
  method KeepNewest(entries: array<PhotoEntry>, count: nat, entry: PhotoEntry, ghost dropped: multiset<PhotoEntry>,
          ghost all: seq<PhotoEntry>)
    returns (newCount: nat, ghost newDropped: multiset<PhotoEntry>)
    requires entries.Length == MAX_ENTRIES && count <= MAX_ENTRIES
    requires KeepsNewest(multiset(entries[..count]), dropped, all)
    modifies entries
    ensures newCount <= MAX_ENTRIES && KeepsNewest(multiset(entries[..newCount]), newDropped, all + [entry])
  {
    if count < MAX_ENTRIES {
      entries[count] := entry;
      newCount, newDropped := count + 1, dropped;
      assert entries[..newCount] == old(entries[..count]) + [entry];
      NoDropYet(multiset(old(entries[..count])), dropped, all);
    } else {
      var oldest := OldestOf(entries, count);
      ghost var kept := entries[..count];
      newCount := count;
      if entry.timestampMs > entries[oldest].timestampMs {
        newDropped := dropped + multiset{entries[oldest]};
        entries[oldest] := entry;
        assert entries[..count] == kept[oldest := entry];
        Replaced(kept, oldest, entry, dropped, all);
      } else {
        newDropped := dropped + multiset{entry};
        forall k: PhotoEntry | k in multiset(kept) ensures k.timestampMs >= entry.timestampMs {
          assert k in kept;
        }
      }
    }
  }

  lemma NoDropYet(kept: multiset<PhotoEntry>, dropped: multiset<PhotoEntry>, all: seq<PhotoEntry>)
    requires KeepsNewest(kept, dropped, all) && |kept| < MAX_ENTRIES
    ensures dropped == multiset{}
  {
    assert |kept| + |dropped| == |multiset(all)| == |all|;
  }

  lemma Replaced(kept: seq<PhotoEntry>, oldest: nat, entry: PhotoEntry, dropped: multiset<PhotoEntry>,
          all: seq<PhotoEntry>)
    requires oldest < |kept| == MAX_ENTRIES && KeepsNewest(multiset(kept), dropped, all)
    requires forall k | 0 <= k < |kept| :: kept[oldest].timestampMs <= kept[k].timestampMs
    requires entry.timestampMs > kept[oldest].timestampMs
    ensures KeepsNewest(multiset(kept[oldest := entry]), dropped + multiset{kept[oldest]}, all + [entry])
  {
    var next := kept[oldest := entry];
    assert multiset(next) == multiset(kept) - multiset{kept[oldest]} + multiset{entry};
    forall k: PhotoEntry, d: PhotoEntry | k in multiset(next)
        && d in dropped + multiset{kept[oldest]} ensures k.timestampMs >= d.timestampMs {
      assert kept[oldest] in multiset(kept);
      assert k in multiset(kept) || k == entry;
      assert k in multiset(kept) ==> k in kept;
    }
    assert |all| >= MAX_ENTRIES;
  }

  // ---- order -----------------------------------------------------------------------------------

  ghost predicate AscendingTimes(entries: seq<PhotoEntry>) {
    forall i, j | 0 <= i < j < |entries| :: entries[i].timestampMs <= entries[j].timestampMs
  }

  method Exchange(entries: array<PhotoEntry>, count: nat, i: nat, j: nat)
    requires i < j < count <= entries.Length
    modifies entries
    ensures entries[..count] == old(entries[..count])[i := old(entries[j])][j := old(entries[i])]
    ensures multiset(entries[..count]) == multiset(old(entries[..count]))
  {
    ghost var before := entries[..count];
    entries[i], entries[j] := entries[j], entries[i];
    assert entries[..count] == before[i := before[j]][j := before[i]];
  }

  /** Position a holds an entry no later than any that follows it. */
  ghost predicate Settled(entries: seq<PhotoEntry>, a: nat) {
    forall b | a < b < |entries| :: entries[a].timestampMs <= entries[b].timestampMs
  }

  /** After an exchange the settled positions stay settled and position i is the earliest up to j. */
  lemma ExchangeSettles(s: seq<PhotoEntry>, i: nat, j: nat)
    requires i < j < |s| && s[j].timestampMs < s[i].timestampMs
    requires forall a: nat | a < i :: Settled(s, a)
    requires forall b | i < b < j :: s[i].timestampMs <= s[b].timestampMs
    ensures var t := s[i := s[j]][j := s[i]];
            && (forall a: nat | a < i :: Settled(t, a))
            && (forall b | i < b < j + 1 :: t[i].timestampMs <= t[b].timestampMs)
  {
    var t := s[i := s[j]][j := s[i]];
    forall a: nat | a < i ensures Settled(t, a) {
      assert Settled(s, a) && t[a] == s[a];
    }
  }

  /** One turn of the outer loop brings the earliest of the remaining entries to position i. */
  method SettlePosition(entries: array<PhotoEntry>, count: nat, i: nat)
    requires i < count <= entries.Length
    requires forall a: nat | a < i :: Settled(entries[..count], a)
    modifies entries
    ensures multiset(entries[..count]) == multiset(old(entries[..count]))
    ensures forall a: nat | a <= i :: Settled(entries[..count], a)
  {
    hide Settled;
    for j := i + 1 to count
      invariant multiset(entries[..count]) == multiset(old(entries[..count]))
      invariant forall a: nat | a < i :: Settled(entries[..count], a)
      invariant forall b | i < b < j :: entries[..count][i].timestampMs <= entries[..count][b].timestampMs
    {
      if entries[j].timestampMs < entries[i].timestampMs {
        ExchangeSettles(entries[..count], i, j);
        Exchange(entries, count, i, j);
      }
    }
    NowSettled(entries[..count], i);
  }

  lemma NowSettled(s: seq<PhotoEntry>, i: nat)
    requires i < |s| && forall b | i < b < |s| :: s[i].timestampMs <= s[b].timestampMs
    ensures Settled(s, i)
  {}

  /** The exchange sort of rebuildIndex. */
  method SortByTime(entries: array<PhotoEntry>, count: nat)
    requires count <= entries.Length
    modifies entries
    ensures multiset(entries[..count]) == multiset(old(entries[..count])) && AscendingTimes(entries[..count])
  {
    for i := 0 to count
      invariant multiset(entries[..count]) == multiset(old(entries[..count]))
      invariant forall a: nat | a < i :: Settled(entries[..count], a)
    {
      SettlePosition(entries, count, i);
    }
    SettledIsAscending(entries[..count]);
  }

  lemma SettledIsAscending(s: seq<PhotoEntry>)
    requires forall a: nat | a < |s| :: Settled(s, a)
    ensures AscendingTimes(s)
  {
    forall i, j | 0 <= i < j < |s| ensures s[i].timestampMs <= s[j].timestampMs {
      assert Settled(s, i);
    }
  }

  /** A directory whose names fit the filename buffer yields distinct filenames. */
  lemma {:induction false} CandidateNames(files: Files, items: seq<DirItem>)
    requires forall i, j | 0 <= i < j < |items| :: items[i].name != items[j].name
    requires forall i | 0 <= i < |items| :: |items[i].name| < FILENAME_BUFFER
    ensures DistinctNames(Candidates(files, items))
    ensures forall e <- Candidates(files, items) :: exists i | 0 <= i < |items| :: items[i].name == e.filename
    ensures forall e <- Candidates(files, items) :: ValidEntry(files, e)
  {
    if items != [] {
      var n := |items| - 1;
      CandidateNames(files, items[..n]);
      assert forall i | 0 <= i < n :: items[..n][i] == items[i];
      assert IsCandidate(files, items[n]) ==> Found(items[n]).value.filename == items[n].name;
    }
  }

  // ---- the rebuilt list in terms of the directory ----------------------------------------------------

  /** A photo that can be listed again: a preview's name with a preset's ending, and all three files complete. */
  ghost predicate Restorable(files: Files, name: string) {
    && EndsWith(name, PREVIEW_ENDING) && '/' !in name && !Contains(name, "..")
    && (exists preset: PresetNumber :: EndsWith(name, PresetEnding(preset)))
    && Complete(files, name)
  }

  /** Milliseconds of the modification time, 0 where stat fails. */
  function TimeOf(item: DirItem): int {
    match item.mtime
    case Some(seconds) => 1000 * seconds
    case None => 0
  }

  ghost predicate MadeFrom(e: PhotoEntry, item: DirItem) {
    && e.filename == item.name && EndsWith(item.name, PresetEnding(e.presetIndex)) && !e.favorite
    && e.timestampMs == TimeOf(item)
  }

  ghost predicate Fitting(items: seq<DirItem>) {
    forall i | 0 <= i < |items| :: |items[i].name| < FILENAME_BUFFER
  }

  ghost predicate FromDirectory(files: Files, items: seq<DirItem>, e: PhotoEntry) {
    exists item <- items :: Restorable(files, item.name) && MadeFrom(e, item)
  }

  /** This photo is in the list, or 48 others are, none of them older. */
  ghost predicate HeldOrOld(item: DirItem, held: seq<PhotoEntry>) {
    || (exists e <- held :: MadeFrom(e, item))
    || (|held| == MAX_ENTRIES && forall e <- held :: e.timestampMs >= TimeOf(item))
  }

  /** The list holds nothing but photos of the directory, each under its own time; a photo is left out only when
      48 others are held, none of them older; and the list ascends in time. */
  ghost predicate NewestPhotos(files: Files, items: seq<DirItem>, held: seq<PhotoEntry>) {
    && (forall e <- held :: FromDirectory(files, items, e))
    && (forall item <- items | Restorable(files, item.name) :: HeldOrOld(item, held))
    && AscendingTimes(held)
  }

  lemma CandidateIsRestorable(files: Files, item: DirItem)
    requires |item.name| < FILENAME_BUFFER
    ensures IsCandidate(files, item) <==> Restorable(files, item.name)
    ensures IsCandidate(files, item) ==> Found(item).Some? && MadeFrom(Found(item).value, item)
  {
    hide RecoveredFrom, PresetEnding, Complete, Contains;
    if Restorable(files, item.name) {
      var preset: PresetNumber :| EndsWith(item.name, PresetEnding(preset));
      RecoveryIsExact(item.name, preset, 0);
      EndingIsShorter(item.name);
    }
    if Found(item).Some? {
      RecoveryIsExact(item.name, Found(item).value.presetIndex, 0);
    }
  }

  lemma EndingIsShorter(name: string)
    requires EndsWith(name, PREVIEW_ENDING)
    ensures name != "" && EndsWith(name, ".jpg")
  {
    assert name[|name| - 4..] == name[|name| - 12..][8..];
  }

  lemma {:induction false} CandidatesComeFrom(files: Files, items: seq<DirItem>, e: PhotoEntry)
    ensures e in Candidates(files, items) <==>
              exists item <- items :: IsCandidate(files, item) && Found(item) == Some(e)
  {
    hide IsCandidate, Found;
    if items != [] {
      var n := |items| - 1;
      CandidatesComeFrom(files, items[..n], e);
      CandidateHasValue(files, items[n]);
      assert items == items[..n] + [items[n]];
    }
  }

  lemma CandidateHasValue(files: Files, item: DirItem)
    ensures IsCandidate(files, item) ==> Found(item).Some?
  {
    hide Found;
  }

  lemma KeptOrOlder(held: seq<PhotoEntry>, dropped: multiset<PhotoEntry>, all: seq<PhotoEntry>, e: PhotoEntry)
    requires KeepsNewest(multiset(held), dropped, all) && e in all && e !in held
    ensures |held| == MAX_ENTRIES && forall k <- held :: k.timestampMs >= e.timestampMs
  {
    assert e in multiset(all) && e !in multiset(held);
    assert e in dropped;
    assert |multiset(held)| + |dropped| == |multiset(all)| == |all|;
    forall k | k in held ensures k.timestampMs >= e.timestampMs {
      assert k in multiset(held);
    }
  }

  /** What the streaming selection and the sort leave, said of the directory. */
  lemma RebuiltIsNewest(files: Files, items: seq<DirItem>, held: seq<PhotoEntry>, dropped: multiset<PhotoEntry>)
    requires Fitting(items) && AscendingTimes(held)
    requires KeepsNewest(multiset(held), dropped, Candidates(files, items))
    ensures NewestPhotos(files, items, held)
  {
    hide IsCandidate, Found, Restorable, MadeFrom, Candidates, KeepsNewest, AscendingTimes, FromDirectory, HeldOrOld;
    var all := Candidates(files, items);
    forall e | e in held ensures FromDirectory(files, items, e) {
      HeldIsCandidate(held, dropped, all, e);
      CandidateFromDirectory(files, items, e);
    }
    forall item | item in items && Restorable(files, item.name) ensures HeldOrOld(item, held) {
      RestorableIsHeldOrOld(files, items, held, dropped, item);
    }
  }

  lemma HeldIsCandidate(held: seq<PhotoEntry>, dropped: multiset<PhotoEntry>, all: seq<PhotoEntry>, e: PhotoEntry)
    requires KeepsNewest(multiset(held), dropped, all) && e in held
    ensures e in all
  {
    assert e in multiset(held) && e in multiset(all);
  }

  lemma CandidateFromDirectory(files: Files, items: seq<DirItem>, e: PhotoEntry)
    requires Fitting(items) && e in Candidates(files, items)
    ensures FromDirectory(files, items, e)
  {
    hide IsCandidate, Found, Restorable, MadeFrom, Candidates;
    CandidatesComeFrom(files, items, e);
    var item :| item in items && IsCandidate(files, item) && Found(item) == Some(e);
    CandidateIsRestorable(files, item);
  }

  lemma RestorableIsHeldOrOld(files: Files, items: seq<DirItem>, held: seq<PhotoEntry>,
          dropped: multiset<PhotoEntry>, item: DirItem)
    requires Fitting(items) && KeepsNewest(multiset(held), dropped, Candidates(files, items))
    requires item in items && Restorable(files, item.name)
    ensures HeldOrOld(item, held)
  {
    hide IsCandidate, Found, Restorable, MadeFrom, Candidates, KeepsNewest;
    CandidateIsRestorable(files, item);
    var e := Found(item).value;
    CandidatesComeFrom(files, items, e);
    if e !in held {
      KeptOrOlder(held, dropped, Candidates(files, items), e);
      TimeOfMade(e, item);
    }
  }

  lemma TimeOfMade(e: PhotoEntry, item: DirItem)
    requires MadeFrom(e, item)
    ensures e.timestampMs == TimeOf(item)
  {}
}
