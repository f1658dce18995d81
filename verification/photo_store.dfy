/** PhotoStore: the transactional store of at most 48 photos. Its methods work on the entry buffer and on
    the card step by step, as the source does. What they promise holds for every pattern of failing card
    operations, and the card's trace says what a crash after any step would leave behind. */
module PhotoStorage {
  import opened CText
  import opened PresetCatalog
  import opened CardFiles
  import opened PhotoIndex
  import opened PhotoNames
  import opened PhotoSidecar
  import opened PhotoRebuild
  import opened RecentLine
  import opened SettingsText

  datatype StorageState =
    | NotConfigured | Ready | InvalidRoot | DirectoryFailed | InsufficientSpace | IndexFailed | WriteProbeFailed

  const MINIMUM_FREE_BYTES: int := 64 * 1024 * 1024

  /** addEntry: a full list loses its first entry. */
  function Appended(entries: seq<PhotoEntry>, e: PhotoEntry): (r: seq<PhotoEntry>)
    requires |entries| <= MAX_ENTRIES
    ensures |r| <= MAX_ENTRIES
  {
    (if |entries| == MAX_ENTRIES then entries[1..] else entries) + [e]
  }

  /** The files a successful save unlinks: those of the entry a full list loses. */
  function EvictedFiles(entries: seq<PhotoEntry>): set<Path> {
    if |entries| == MAX_ENTRIES then Triple(entries[0].filename) else {}
  }

  function Removed(entries: seq<PhotoEntry>, index: nat): seq<PhotoEntry>
    requires index < |entries|
  {
    entries[..index] + entries[index + 1..]
  }

  /** No listed photo has this filename; files of its stem may still lie on the card. */
  ghost predicate Unlisted(entries: seq<PhotoEntry>, filename: string) {
    forall e <- entries :: e.filename != filename
  }

  /** The stem is fresh: none of the three files it names is on the card yet. */
  ghost predicate Fresh(files: Files, filename: string) {
    Triple(filename) !! files.Keys
  }

  /** The list is what the card stands for, and no two photos share a filename. */
  ghost predicate Sound(files: Files, entries: seq<PhotoEntry>) {
    Holds(files, entries) && DistinctNames(entries)
  }

  /** Every card state from a point of a trace on stands for one of two lists. */
  ghost predicate CrashSafe(trace: seq<Files>, from: nat, before: seq<PhotoEntry>, after: seq<PhotoEntry>) {
    forall k | from <= k < |trace| :: Holds(trace[k], before) || Holds(trace[k], after)
  }

  lemma CrashSafeJoins(earlier: seq<Files>, trace: seq<Files>, from: nat, before: seq<PhotoEntry>,
          after: seq<PhotoEntry>)
    requires earlier <= trace
    requires CrashSafe(earlier, from, before, after) && CrashSafe(trace, |earlier|, before, after)
    ensures CrashSafe(trace, from, before, after)
  {
    hide Holds;
    forall k | from <= k < |trace| ensures Holds(trace[k], before) || Holds(trace[k], after) {
      if k < |earlier| {
        assert trace[k] == earlier[k];
      }
    }
  }

  /** Steps that stay clear of the index and of the listed photos leave every state standing for the list. */
  lemma CrashSafeWithin(trace: seq<Files>, from: nat, base: Files, touched: set<Path>, entries: seq<PhotoEntry>,
          before: seq<PhotoEntry>, after: seq<PhotoEntry>)
    requires EachWithin(trace, from, base, touched) && Holds(base, entries)
    requires INDEX_PATH !in touched && forall e <- entries :: Triple(e.filename) !! touched
    requires entries == before || entries == after
    ensures CrashSafe(trace, from, before, after)
  {
    forall k | from <= k < |trace| ensures Holds(trace[k], entries) {
      HoldsFrame(base, trace[k], entries, touched);
    }
  }

  lemma CrashSafeShown(trace: seq<Files>, from: nat, a: Files, b: Files, before: seq<PhotoEntry>,
          after: seq<PhotoEntry>)
    requires EachShows(trace, from, a, b)
    requires Holds(a, before) && (Holds(b, before) || Holds(b, after))
    ensures CrashSafe(trace, from, before, after)
  {
    forall k | from <= k < |trace| ensures Holds(trace[k], before) || Holds(trace[k], after) {
      if SameExcept(trace[k], a, {}) {
        HoldsFrame(a, trace[k], before, {});
      } else if Holds(b, before) {
        HoldsFrame(b, trace[k], before, {});
      } else {
        HoldsFrame(b, trace[k], after, {});
      }
    }
  }

  // ---- the three phases of a save ---------------------------------------------------------------

  /** While the three files are written, every state stands for the old list. */
  lemma TriplePhase(trace: seq<Files>, from: nat, pre: Files, mid: Files, entries: seq<PhotoEntry>,
          after: seq<PhotoEntry>, filename: string)
    requires Holds(pre, entries) && Unlisted(entries, filename)
    requires EndsWith(filename, ".jpg") && |filename| < FILENAME_BUFFER
    requires EachWithin(trace, from, pre, Triple(filename)) && SameExcept(mid, pre, Triple(filename))
    ensures Holds(mid, entries) && CrashSafe(trace, from, entries, after)
  {
    hide Holds, Triple;
    UnlistedIsApart(pre, entries, filename);
    HoldsFrame(pre, mid, entries, Triple(filename));
    CrashSafeWithin(trace, from, pre, Triple(filename), entries, entries, after);
  }

  /** The index commit: afterwards the card stands for the new list, at every step for one of the two. */
  lemma IndexPhase(trace: seq<Files>, from: nat, pre: Files, mid: Files, after: Files, entries: seq<PhotoEntry>,
          e: PhotoEntry)
    requires Sound(pre, entries) && Holds(mid, entries) && |entries| <= MAX_ENTRIES && Unlisted(entries, e.filename)
    requires ValidEntry(mid, e) && Carried(e.filename) && SameExcept(mid, pre, Triple(e.filename))
    requires SameExcept(after, mid, {INDEX_PATH}) && INDEX_PATH in after
    requires after[INDEX_PATH] == IndexText(Appended(entries, e))
    requires EachShows(trace, from, mid, after)
    ensures Sound(after, Appended(entries, e)) && CrashSafe(trace, from, entries, Appended(entries, e))
  {
    hide Holds, Triple, Complete, IndexText;
    var next := Appended(entries, e);
    UnlistedIsApart(pre, entries, e.filename);
    AppendedNames(entries, e);
    TripleIsFinal(e.filename);
    forall x | x in next ensures ValidEntry(after, x) && Carried(x.filename) {
      if x in entries {
        HeldNames(mid, entries);
        TripleIsFinal(x.filename);
        KeptEntry(after, mid, entries, x, {INDEX_PATH});
      } else {
        KeptFiles(after, mid, e, {INDEX_PATH});
      }
    }
    PrintedListHolds(after, next);
    CrashSafeShown(trace, from, mid, after, entries, next);
  }

  /** The card when the index stage of a save begins. */
  ghost predicate SaveBase(pre: Files, mid: Files, entries: seq<PhotoEntry>, e: PhotoEntry) {
    && Sound(pre, entries) && Holds(mid, entries) && |entries| <= MAX_ENTRIES && Unlisted(entries, e.filename)
    && ValidEntry(mid, e) && Carried(e.filename) && SameExcept(mid, pre, Triple(e.filename))
  }

  lemma RolledBack(committed: seq<Files>, trace: seq<Files>, from: nat, pre: Files, mid: Files, after: Files,
          end: Files, entries: seq<PhotoEntry>, e: PhotoEntry)
    requires SaveBase(pre, mid, entries, e) && committed <= trace
    requires EachShows(committed, from, mid, after) && SameExcept(after, mid, {})
    requires EachWithin(trace, |committed|, after, Triple(e.filename)) && SameExcept(end, after, Triple(e.filename))
    ensures Holds(end, entries) && CrashSafe(trace, from, entries, entries)
  {
    hide Holds, Triple, Complete, DistinctNames;
    UnlistedIsApart(pre, entries, e.filename);
    HoldsFrame(mid, after, entries, {});
    CrashSafeShown(committed, from, mid, after, entries, entries);
    HoldsFrame(after, end, entries, Triple(e.filename));
    CrashSafeWithin(trace, |committed|, after, Triple(e.filename), entries, entries, entries);
    CrashSafeJoins(committed, trace, from, entries, entries);
  }

  lemma Evicted(committed: seq<Files>, trace: seq<Files>, from: nat, pre: Files, after: Files, end: Files,
          entries: seq<PhotoEntry>, e: PhotoEntry)
    requires Sound(pre, entries) && |entries| == MAX_ENTRIES && Unlisted(entries, e.filename) && committed <= trace
    requires EndsWith(e.filename, ".jpg") && |e.filename| < FILENAME_BUFFER
    requires Holds(after, Appended(entries, e)) && CrashSafe(committed, from, entries, Appended(entries, e))
    requires EachWithin(trace, |committed|, after, Triple(entries[0].filename))
    requires SameExcept(end, after, Triple(entries[0].filename))
    ensures Sound(end, Appended(entries, e)) && CrashSafe(trace, from, entries, Appended(entries, e))
  {
    hide Holds, Triple, ValidEntry;
    var next := Appended(entries, e);
    HeldNames(pre, entries);
    UnlistedIsApart(pre, entries, e.filename);
    AppendedNames(entries, e);
    UnlinkPhase(trace, |committed|, after, end, next, entries, next, entries[0].filename);
    CrashSafeJoins(committed, trace, from, entries, next);
  }

  lemma TripleIsComplete(files: Files, e: PhotoEntry, jpeg: string, manifest: string, thumbnail: string)
    requires TripleWritten(files, e.filename, jpeg, manifest, thumbnail)
    requires jpeg != "" && manifest != "" && |thumbnail| == THUMBNAIL_BYTES
    ensures Complete(files, e.filename)
  {}

  /** Unlinking the files of a photo the list no longer names disturbs nothing. */
  lemma UnlinkPhase(trace: seq<Files>, from: nat, base: Files, end: Files, entries: seq<PhotoEntry>,
          before: seq<PhotoEntry>, after: seq<PhotoEntry>, filename: string)
    requires Holds(base, entries) && (entries == before || entries == after)
    requires EndsWith(filename, ".jpg") && |filename| < FILENAME_BUFFER
    requires forall x <- entries :: x.filename != filename
    requires EachWithin(trace, from, base, Triple(filename)) && SameExcept(end, base, Triple(filename))
    ensures Holds(end, entries) && CrashSafe(trace, from, before, after)
  {
    hide Holds, Triple;
    HeldNames(base, entries);
    TripleIsFinal(filename);
    forall x | x in entries ensures Triple(x.filename) !! Triple(filename) {
      TriplesApart(x.filename, filename);
    }
    HoldsFrame(base, end, entries, Triple(filename));
    CrashSafeWithin(trace, from, base, Triple(filename), entries, before, after);
  }

  /** Unlinking a stem keeps the list exactly when no listed photo has that stem. This is why a save needs an
      unlisted stem, whose rollback would otherwise remove an older photo, and a deletion distinct names. */
  lemma UnlinkKeepsListExactly(base: Files, end: Files, entries: seq<PhotoEntry>, filename: string)
    requires Holds(base, entries) && end == base - Triple(filename)
    requires EndsWith(filename, ".jpg") && |filename| < FILENAME_BUFFER
    ensures Holds(end, entries) <==> Unlisted(entries, filename)
  {
    hide Holds;
    if Unlisted(entries, filename) {
      UnlinkPhase([], 0, base, end, entries, entries, entries, filename);
    } else {
      var x :| x in entries && x.filename == filename;
      assert PhotoPath(filename) in Triple(filename) && PhotoPath(filename) !in end;
      if Holds(end, entries) {
        HeldNames(end, entries);
      }
    }
  }

  // ---- the two phases of a deletion --------------------------------------------------------------

  ghost predicate DeleteCommitted(pre: Files, after: Files, trace: seq<Files>, from: nat, next: seq<PhotoEntry>) {
    && SameExcept(after, pre, {INDEX_PATH}) && INDEX_PATH in after && after[INDEX_PATH] == IndexText(next)
    && EachShows(trace, from, pre, after)
  }

  lemma DeleteIndexPhase(trace: seq<Files>, from: nat, pre: Files, after: Files, entries: seq<PhotoEntry>, index: nat)
    requires Sound(pre, entries) && |entries| <= MAX_ENTRIES && index < |entries|
    requires DeleteCommitted(pre, after, trace, from, Removed(entries, index))
    ensures Sound(after, Removed(entries, index)) && CrashSafe(trace, from, entries, Removed(entries, index))
    ensures forall x <- Removed(entries, index) :: x.filename != entries[index].filename
  {
    hide Holds, Triple, Complete, IndexText;
    var next := Removed(entries, index);
    HeldNames(pre, entries);
    forall x | x in next ensures x in entries && x.filename != entries[index].filename {
      var k :| 0 <= k < |next| && next[k] == x;
      assert x == entries[if k < index then k else k + 1];
    }
    forall x | x in next ensures ValidEntry(after, x) && Carried(x.filename) {
      TripleIsFinal(x.filename);
      KeptEntry(after, pre, entries, x, {INDEX_PATH});
    }
    PrintedListHolds(after, next);
    CrashSafeShown(trace, from, pre, after, entries, next);
  }

  /** What a deletion promises about the card, the list and every card state in between. */
  ghost predicate Deleted(pre: Files, list: seq<PhotoEntry>, post: Files, held: seq<PhotoEntry>, trace: seq<Files>,
          unlinksWork: bool, newestIndex: int, removed: bool)
  {
    var index := |list| - 1 - newestIndex;
    if !(0 <= newestIndex < |list|) then
      !removed && held == list && post == pre && trace == []
    else
      // either the index was not replaced and nothing has changed, or the entry is gone from memory and index
      && (held == list || held == Removed(list, index))
      && (held == list ==> !removed && SameExcept(post, pre, {}) && (unlinksWork ==> post.Keys <= pre.Keys))
      && (held != list ==>
            && SameExcept(post, pre, {INDEX_PATH} + Triple(list[index].filename))
            && (removed ==> PhotoPath(list[index].filename) !in post)
            && (unlinksWork ==> removed && Triple(list[index].filename) !! post.Keys - {INDEX_PATH}))
      // from a sound store, the end and every crash point stand for the list with or without the entry
      && (Sound(pre, list) ==> Sound(post, held) && CrashSafe(trace, 0, list, held))
  }

  lemma DeleteFinished(pre: Files, list: seq<PhotoEntry>, after: Files, post: Files, committed: seq<Files>,
          trace: seq<Files>, from: nat, unlinksWork: bool, newestIndex: nat, removed: bool)
    requires newestIndex < |list| <= MAX_ENTRIES && from <= |committed| && committed <= trace
    requires DeleteCommitted(pre, after, committed, from, Removed(list, |list| - 1 - newestIndex))
    requires SameExcept(post, after, Triple(list[|list| - 1 - newestIndex].filename))
    requires EachWithin(trace, |committed|, after, Triple(list[|list| - 1 - newestIndex].filename))
    requires removed ==> PhotoPath(list[|list| - 1 - newestIndex].filename) !in post
    requires unlinksWork ==> removed && Triple(list[|list| - 1 - newestIndex].filename) !! post.Keys
    ensures Deleted(pre, list, post, Removed(list, |list| - 1 - newestIndex), trace[from..], unlinksWork, newestIndex,
                    removed)
  {
    hide Holds, Triple, PhotoPath;
    var index := |list| - 1 - newestIndex;
    if Sound(pre, list) {
      var next := Removed(list, index);
      DeleteIndexPhase(committed, from, pre, after, list, index);
      HeldNames(pre, list);
      UnlinkPhase(trace, |committed|, after, post, next, list, next, list[index].filename);
      CrashSafeJoins(committed, trace, from, list, next);
    }
  }

  lemma DeleteRefused(pre: Files, list: seq<PhotoEntry>, post: Files, trace: seq<Files>, from: nat, unlinksWork: bool,
          newestIndex: nat)
    requires newestIndex < |list| && from <= |trace|
    requires SameExcept(post, pre, {}) && EachShows(trace, from, pre, post) && (unlinksWork ==> post.Keys <= pre.Keys)
    ensures Deleted(pre, list, post, list, trace[from..], unlinksWork, newestIndex, false)
  {
    hide Holds;
    if Sound(pre, list) {
      HoldsFrame(pre, post, list, {});
      CrashSafeShown(trace, from, pre, post, list, list);
    }
  }

  // ---- lists and files ----------------------------------------------------------------------------

  lemma HeldNames(files: Files, entries: seq<PhotoEntry>)
    requires Holds(files, entries)
    ensures forall e <- entries :: ValidEntry(files, e) && Carried(e.filename) && EndsWith(e.filename, ".jpg")
    ensures forall e <- entries :: Triple(e.filename) <= files.Keys
  {
    hide ReadIndex, Carried;
    ReadEntriesAreGood(files, files[INDEX_PATH], 0);
  }

  /** An unlisted stem shares no file with any photo of the list. */
  lemma UnlistedIsApart(files: Files, entries: seq<PhotoEntry>, filename: string)
    requires Holds(files, entries) && Unlisted(entries, filename)
    requires EndsWith(filename, ".jpg") && |filename| < FILENAME_BUFFER
    ensures forall e <- entries :: Triple(e.filename) !! Triple(filename)
    ensures INDEX_PATH !in Triple(filename)
  {
    HeldNames(files, entries);
    TripleIsFinal(filename);
    forall e | e in entries ensures Triple(e.filename) !! Triple(filename) {
      TriplesApart(e.filename, filename);
    }
  }

  lemma AppendedNames(entries: seq<PhotoEntry>, e: PhotoEntry)
    requires DistinctNames(entries) && |entries| <= MAX_ENTRIES
    requires forall x <- entries :: x.filename != e.filename
    ensures DistinctNames(Appended(entries, e))
    ensures |entries| == MAX_ENTRIES ==> forall x <- Appended(entries, e) :: x.filename != entries[0].filename
    ensures forall x <- Appended(entries, e) :: x in entries || x == e
  {}

  lemma KeptFiles(files: Files, base: Files, e: PhotoEntry, touched: set<Path>)
    requires ValidEntry(base, e) && |e.filename| < FILENAME_BUFFER
    requires SameExcept(files, base, touched) && Triple(e.filename) !! touched
    ensures ValidEntry(files, e)
  {
    TripleIsFinal(e.filename);
    forall p | p in Triple(e.filename) ensures SameAt(files, base, p) {
      assert p !in touched;
    }
  }

  /** A listed photo stays valid under any change outside its own files. */
  lemma KeptEntry(files: Files, base: Files, entries: seq<PhotoEntry>, e: PhotoEntry, touched: set<Path>)
    requires Holds(base, entries) && e in entries
    requires SameExcept(files, base, touched) && Triple(e.filename) !! touched
    ensures ValidEntry(files, e) && Carried(e.filename)
  {
    HeldNames(base, entries);
    KeptFiles(files, base, e, touched);
  }

  /** Once the printed list is in place on a card that has all its files, the card stands for that list. */
  lemma PrintedListHolds(files: Files, next: seq<PhotoEntry>)
    requires |next| <= MAX_ENTRIES && forall x <- next :: ValidEntry(files, x) && Carried(x.filename)
    requires INDEX_PATH in files && files[INDEX_PATH] == IndexText(next)
    ensures Holds(files, next)
  {
    hide ReadIndex, IndexText, ValidEntry, Carried;
    IndexRoundTrip(files, next, 0);
  }

  /** What a save promises about the card, the list and every card state in between. */
  ghost predicate Saved(pre: Files, list: seq<PhotoEntry>, post: Files, held: seq<PhotoEntry>, trace: seq<Files>,
          unlinksWork: bool, e: PhotoEntry, ok: bool)
    requires |list| <= MAX_ENTRIES
  {
    // the entry is appended and committed, or nothing but files of its own stem has changed
    && held == (if ok then Appended(list, e) else list)
    && SameExcept(post, pre, if ok then Triple(e.filename) + {INDEX_PATH} + EvictedFiles(list) else Triple(e.filename))
    // with a fresh stem and working unlinks, a failed save leaves the completed files as they were and no other file
    && (!ok && Fresh(pre, e.filename) && unlinksWork ==> SameExcept(post, pre, {}) && post.Keys <= pre.Keys)
    // and a successful one leaves no file of the evicted photo
    && (ok && unlinksWork ==> EvictedFiles(list) !! post.Keys - {INDEX_PATH})
    // from a sound store and an unlisted stem, the end and every crash point stand for the old or the new list
    && (Sound(pre, list) && Unlisted(list, e.filename) ==> Sound(post, held) && CrashSafe(trace, 0, list, held))
  }

  lemma NothingSaved(files: Files, list: seq<PhotoEntry>, trace: seq<Files>, e: PhotoEntry)
    requires |list| <= MAX_ENTRIES
    ensures forall unlinksWork :: Saved(files, list, files, list, trace[|trace|..], unlinksWork, e, false)
  {
    hide Holds, Triple;
  }

  lemma NotWritten(pre: Files, list: seq<PhotoEntry>, mid: Files, trace: seq<Files>, from: nat, unlinksWork: bool,
          e: PhotoEntry)
    requires |list| <= MAX_ENTRIES && from <= |trace| && SameExcept(mid, pre, Triple(e.filename))
    requires unlinksWork && Fresh(pre, e.filename) ==> SameExcept(mid, pre, {}) && mid.Keys <= pre.Keys
    requires Sound(pre, list) && Unlisted(list, e.filename) ==> Holds(mid, list) && CrashSafe(trace, from, list, list)
    ensures Saved(pre, list, mid, list, trace[from..], unlinksWork, e, false)
  {
    hide Holds, Triple;
  }

  lemma SaveFinished(pre: Files, list: seq<PhotoEntry>, mid: Files, post: Files, held: seq<PhotoEntry>,
          written: seq<Files>, trace: seq<Files>, from: nat, unlinksWork: bool, e: PhotoEntry, ok: bool)
    requires |list| <= MAX_ENTRIES && from <= |written| && written <= trace
    requires SameExcept(mid, pre, Triple(e.filename)) && mid.Keys <= pre.Keys + Triple(e.filename)
    requires held == if ok then Appended(list, e) else list
    requires ok ==> SameExcept(post, mid, {INDEX_PATH} + EvictedFiles(list))
    requires ok && unlinksWork ==> EvictedFiles(list) !! post.Keys - {INDEX_PATH}
    requires !ok ==> SameExcept(post, mid, Triple(e.filename))
    requires !ok && unlinksWork ==> Triple(e.filename) !! post.Keys && post.Keys <= mid.Keys
    requires Sound(pre, list) && Unlisted(list, e.filename) ==>
               Sound(post, held) && CrashSafe(written, from, list, held) && CrashSafe(trace, |written|, list, held)
    ensures Saved(pre, list, post, held, trace[from..], unlinksWork, e, ok)
  {
    hide Holds, Triple, EvictedFiles;
    if Sound(pre, list) && Unlisted(list, e.filename) {
      CrashSafeJoins(written, trace, from, list, held);
    }
    if !ok && unlinksWork && Fresh(pre, e.filename) {
      assert forall p | p in Triple(e.filename) :: p !in post && p !in pre;
    }
  }

  lemma NewFilesStay(pre: Files, list: seq<PhotoEntry>, mid: Files, post: Files, e: PhotoEntry, jpeg: string,
          manifest: string, thumbnail: string)
    requires Holds(pre, list) && Unlisted(list, e.filename) && EndsWith(e.filename, ".jpg")
        && |e.filename| < FILENAME_BUFFER
    requires TripleWritten(mid, e.filename, jpeg, manifest, thumbnail)
    requires SameExcept(post, mid, {INDEX_PATH} + EvictedFiles(list))
    ensures TripleWritten(post, e.filename, jpeg, manifest, thumbnail)
  {
    UnlistedIsApart(pre, list, e.filename);
    TripleIsFinal(e.filename);
    forall p | p in Triple(e.filename) ensures SameAt(post, mid, p) {
      assert p !in {INDEX_PATH} + EvictedFiles(list);
    }
  }

  ghost predicate TripleWritten(files: Files, filename: string, jpeg: string, manifest: string, thumbnail: string) {
    && PhotoPath(filename) in files && files[PhotoPath(filename)] == jpeg
    && SidecarPath(filename) in files && files[SidecarPath(filename)] == manifest
    && ThumbnailPath(filename) in files && files[ThumbnailPath(filename)] == thumbnail
  }

  class PhotoStore {
    const card: Card
    const entries: array<PhotoEntry>
    var entryCount: nat
    var storageState: StorageState
    const root: string
    const model: string
    const version: string

    ghost predicate Valid()
      reads this
    {
      entries.Length == MAX_ENTRIES && entryCount <= MAX_ENTRIES
    }

    ghost function Held(): (held: seq<PhotoEntry>)
      requires Valid()
      reads this, entries
      ensures |held| == entryCount <= MAX_ENTRIES
    {
      entries[..entryCount]
    }

    constructor (card: Card, root: string, model: string, version: string)
      ensures Valid() && fresh(entries) && this.card == card
      ensures this.root == root && this.model == model && this.version == version
      ensures entryCount == 0 && storageState == NotConfigured
    {
      this.card, this.root, this.model, this.version := card, root, model, version;
      entries := new PhotoEntry[MAX_ENTRIES](_ => PhotoEntry(0, 0, false, ""));
      entryCount, storageState := 0, NotConfigured;
    }

    method AddEntry(entry: PhotoEntry)
      requires Valid()
      modifies this`entryCount, entries
      ensures Valid() && Held() == Appended(old(Held()), entry)
    {
      if entryCount == MAX_ENTRIES {
        var i := 0;
        while i + 1 < entryCount
          invariant 0 <= i < entryCount == MAX_ENTRIES
          invariant forall k | 0 <= k < i :: entries[k] == old(entries[k + 1])
          invariant forall k | i <= k < MAX_ENTRIES :: entries[k] == old(entries[k])
        {
          entries[i] := entries[i + 1];
          i := i + 1;
        }
        entryCount := entryCount - 1;
      }
      entries[entryCount] := entry;
      entryCount := entryCount + 1;
    }

    method RemoveEntry(index: nat)
      requires Valid() && index < entryCount
      modifies this`entryCount, entries
      ensures Valid() && Held() == Removed(old(Held()), index)
    {
      var i := index;
      while i + 1 < entryCount
        invariant index <= i < entryCount == old(entryCount)
        invariant forall k | 0 <= k < index :: entries[k] == old(entries[k])
        invariant forall k | index <= k < i :: entries[k] == old(entries[k + 1])
        invariant forall k | i <= k < MAX_ENTRIES :: entries[k] == old(entries[k])
      {
        entries[i] := entries[i + 1];
        i := i + 1;
      }
      entryCount := entryCount - 1;
      ghost var next := Removed(old(Held()), index);
      assert forall k | 0 <= k < entryCount :: entries[k] == next[k];
    }

    /** The memcpy back from the saved buffer. */
    method Restore(previous: seq<PhotoEntry>, previousCount: nat)
      requires Valid() && |previous| == MAX_ENTRIES && previousCount <= MAX_ENTRIES
      modifies this`entryCount, entries
      ensures Valid() && Held() == previous[..previousCount]
    {
      forall k | 0 <= k < MAX_ENTRIES {
        entries[k] := previous[k];
      }
      entryCount := previousCount;
    }

    /** saveIndex: the printed list replaces index.txt in one step, or index.txt stays as it was. */
    method SaveIndex() returns (ok: bool)
      requires Valid()
      modifies card
      ensures old(card.trace) <= card.trace && old(card.unlinkFaults) <= card.unlinkFaults
      ensures card.faults == old(card.faults) + if ok then [] else [Temporary(INDEX_PATH)]
      ensures ok ==> INDEX_PATH in card.files && card.files[INDEX_PATH] == IndexText(Held())
      ensures ok ==> SameExcept(card.files, old(card.files), {INDEX_PATH})
      ensures !ok ==> SameExcept(card.files, old(card.files), {})
      ensures !ok && card.unlinkFaults == old(card.unlinkFaults) ==> card.files.Keys <= old(card.files).Keys
      ensures ok ==> card.files.Keys <= old(card.files).Keys + {INDEX_PATH}
      ensures EachShows(card.trace, old(|card.trace|), old(card.files), card.files)
    {
      hide EntryLine;
      var text := "";
      var i := 0;
      while i < entryCount
        invariant i <= entryCount && text == IndexText(entries[..i])
        modifies {}
      {
        IndexTextAppend(entries[..i], entries[i]);
        assert entries[..i] + [entries[i]] == entries[..i + 1];
        text := text + (EntryLine(entries[i]) + "\n");
        i := i + 1;
      }
      IndexIsFinal();
      ok := card.WriteFile(INDEX_PATH, text, false);
    }

    // ---- save ----------------------------------------------------------------------------------

    /** JPEG and sidecar. */
    method WritePair(photo: Path, sidecar: Path, jpeg: string, manifest: string) returns (ok: bool)
      requires photo != sidecar && !IsTemporary(photo) && !IsTemporary(sidecar)
      modifies card
      ensures old(card.trace) <= card.trace && old(card.unlinkFaults) <= card.unlinkFaults
      ensures old(card.faults) <= card.faults && (ok <==> card.faults == old(card.faults))
      ensures ok ==> photo in card.files && card.files[photo] == jpeg
      ensures ok ==> sidecar in card.files && card.files[sidecar] == manifest
      ensures SameExcept(card.files, old(card.files), {photo, sidecar})
      ensures !ok && card.unlinkFaults == old(card.unlinkFaults) && photo !in old(card.files) ==>
                SameExcept(card.files, old(card.files), {}) && card.files.Keys <= old(card.files).Keys
      ensures ok ==> card.files.Keys <= old(card.files).Keys + {photo, sidecar}
      ensures EachWithin(card.trace, old(|card.trace|), old(card.files), {photo, sidecar})
    {
      ok := card.WriteFile(photo, jpeg, true);
      if !ok {
        return;
      }
      ok := card.WriteFile(sidecar, manifest, false);
      if !ok {
        var _ := card.Unlink(photo);
      }
    }

    /** The first three stages of savePhoto, with the rollback each failure point has. */
    method WriteTriple(filename: string, jpeg: string, manifest: string, thumbnail: string) returns (ok: bool)
      requires EndsWith(filename, ".jpg") && |filename| < FILENAME_BUFFER
      modifies card
      ensures old(card.trace) <= card.trace && old(card.unlinkFaults) <= card.unlinkFaults
      ensures old(card.faults) <= card.faults && (ok <==> card.faults == old(card.faults))
      ensures ok ==> TripleWritten(card.files, filename, jpeg, manifest, thumbnail)
      ensures SameExcept(card.files, old(card.files), Triple(filename))
      ensures !ok && card.unlinkFaults == old(card.unlinkFaults) && Fresh(old(card.files), filename) ==>
                SameExcept(card.files, old(card.files), {}) && card.files.Keys <= old(card.files).Keys
      ensures ok ==> card.files.Keys <= old(card.files).Keys + Triple(filename)
      ensures EachWithin(card.trace, old(|card.trace|), old(card.files), Triple(filename))
    {
      hide PhotoPath, SidecarPath, ThumbnailPath;
      var photo, sidecar, thumb := PhotoPath(filename), SidecarPath(filename), ThumbnailPath(filename);
      TripleIsFinal(filename);
      PathsApart(filename);
      ok := WritePair(photo, sidecar, jpeg, manifest);
      if !ok {
        return;
      }
      ok := card.WriteFile(thumb, thumbnail, true);
      if !ok {
        assert SameExcept(card.files, old(card.files), {photo, sidecar});
        UnlinkBoth(sidecar, photo);
      }
    }

    method UnlinkBoth(p: Path, q: Path)
      modifies card
      ensures old(card.trace) <= card.trace && old(card.unlinkFaults) <= card.unlinkFaults
      ensures card.faults == old(card.faults)
      ensures SameExcept(card.files, old(card.files), {p, q})
      ensures card.files.Keys <= old(card.files).Keys
      ensures card.unlinkFaults == old(card.unlinkFaults) ==> card.files == old(card.files) - {p, q}
      ensures EachWithin(card.trace, old(|card.trace|), old(card.files), {p, q})
    {
      var _ := card.Unlink(p);
      var _ := card.Unlink(q);
    }

    method UnlinkThree(p: Path, q: Path, r: Path) returns (firstGone: bool)
      modifies card
      ensures old(card.trace) <= card.trace && old(card.unlinkFaults) <= card.unlinkFaults
      ensures card.faults == old(card.faults)
      ensures SameExcept(card.files, old(card.files), {p, q, r})
      ensures card.files.Keys <= old(card.files).Keys
      ensures card.unlinkFaults == old(card.unlinkFaults) ==> firstGone && card.files == old(card.files) - {p, q, r}
      ensures firstGone ==> p !in card.files
      ensures EachWithin(card.trace, old(|card.trace|), old(card.files), {p, q, r})
    {
      firstGone := card.Unlink(p);
      UnlinkBoth(q, r);
    }

    /** The index stage of a save: on failure the entry buffer is copied back. */
    method CommitEntry(entry: PhotoEntry) returns (ok: bool)
      requires Valid()
      modifies this`entryCount, entries, card
      ensures Valid() && Held() == if ok then Appended(old(Held()), entry) else old(Held())
      ensures old(card.trace) <= card.trace && old(card.unlinkFaults) <= card.unlinkFaults
      ensures card.faults == old(card.faults) + if ok then [] else [Temporary(INDEX_PATH)]
      ensures ok ==> INDEX_PATH in card.files && card.files[INDEX_PATH] == IndexText(Held())
      ensures ok ==> SameExcept(card.files, old(card.files), {INDEX_PATH})
      ensures !ok ==> SameExcept(card.files, old(card.files), {})
      ensures !ok && card.unlinkFaults == old(card.unlinkFaults) ==> card.files.Keys <= old(card.files).Keys
      ensures ok ==> card.files.Keys <= old(card.files).Keys + {INDEX_PATH}
      ensures EachShows(card.trace, old(|card.trace|), old(card.files), card.files)
    {
      var previous, previousCount := entries[..], entryCount;
      AddEntry(entry);
      ok := SaveIndex();
      if !ok {
        Restore(previous, previousCount);
      }
    }

    /** The rest of a save once its three files stand on the card: commit the entry, then unlink either the
        new photo or the evicted one. */
    method CommitOrRollBack(entry: PhotoEntry, ghost pre: Files) returns (ok: bool)
      requires Valid() && EndsWith(entry.filename, ".jpg") && |entry.filename| < FILENAME_BUFFER
      modifies this`entryCount, entries, card
      ensures Valid() && old(card.trace) <= card.trace && old(card.unlinkFaults) <= card.unlinkFaults
      ensures card.faults == old(card.faults) + if ok then [] else [Temporary(INDEX_PATH)]
      ensures Held() == if ok then Appended(old(Held()), entry) else old(Held())
      ensures !ok ==> SameExcept(card.files, old(card.files), Triple(entry.filename))
      ensures !ok && card.unlinkFaults == old(card.unlinkFaults) ==>
                Triple(entry.filename) !! card.files.Keys && card.files.Keys <= old(card.files).Keys
      ensures ok ==> SameExcept(card.files, old(card.files), {INDEX_PATH} + EvictedFiles(old(Held())))
      ensures ok && card.unlinkFaults == old(card.unlinkFaults) ==>
                EvictedFiles(old(Held())) !! card.files.Keys - {INDEX_PATH}
      ensures SaveBase(pre, old(card.files), old(Held()), entry) ==>
                Sound(card.files, Held()) && CrashSafe(card.trace, old(|card.trace|), old(Held()), Held())
    {
      hide Holds, PhotoPath, SidecarPath, ThumbnailPath, DistinctNames, Complete;
      var filename := entry.filename;
      var evicted := if entryCount == MAX_ENTRIES then Some(entries[0].filename) else None;
      ghost var mid, list, next := card.files, Held(), Appended(Held(), entry);
      ghost var good := SaveBase(pre, mid, list, entry);
      ok := CommitEntry(entry);
      ghost var after, committed := card.files, card.trace;
      if !ok {
        var _ := UnlinkThree(ThumbnailPath(filename), SidecarPath(filename), PhotoPath(filename));
        if good {
          RolledBack(committed, card.trace, old(|card.trace|), pre, mid, after, card.files, list, entry);
        }
      } else {
        if good {
          IndexPhase(committed, old(|card.trace|), pre, mid, after, list, entry);
        }
        if evicted.Some? {
          var _ := UnlinkThree(PhotoPath(evicted.value), SidecarPath(evicted.value), ThumbnailPath(evicted.value));
          if good {
            Evicted(committed, card.trace, old(|card.trace|), pre, after, card.files, list, entry);
          }
        }
      }
    }

    /** savePhoto. The encoder's output, the free space and the local time are inputs. */
    method SavePhoto(thumbnail: string, jpeg: Option<string>, preset: PresetNumber, intensity: int,
            adjustments: Adjustment, favorite: bool, timestampMs: int64, availableBytes: int, time: LocalTime)
      returns (ok: bool)
      requires Valid() && |thumbnail| == THUMBNAIL_BYTES && (jpeg.Some? ==> |jpeg.value| >= 4)
      modifies this`entryCount, this`storageState, entries, card
      ensures Valid() && old(card.trace) <= card.trace && old(card.unlinkFaults) <= card.unlinkFaults
      ensures old(card.faults) <= card.faults
      // it succeeds exactly when the store is ready, there is space, the encoder delivered and no operation failed
      ensures ok <==> && old(storageState) == Ready && !(0 <= availableBytes < MINIMUM_FREE_BYTES) && jpeg.Some?
                      && card.faults == old(card.faults)
      ensures ok && old(entryCount) < MAX_ENTRIES ==>
                Held() == old(Held()) + [PhotoEntry(timestampMs, preset, favorite, Filename(time, timestampMs, preset))]
      ensures ok && old(entryCount) == MAX_ENTRIES ==>
                Held() == old(Held())[1..] + [PhotoEntry(timestampMs, preset, favorite,
                                                         Filename(time, timestampMs, preset))]
      ensures old(storageState) != Ready || 0 <= availableBytes < MINIMUM_FREE_BYTES || jpeg.None? ==>
                !ok && card.files == old(card.files) && card.trace == old(card.trace)
      ensures storageState == (if old(storageState) == Ready && 0 <= availableBytes < MINIMUM_FREE_BYTES
                               then InsufficientSpace else old(storageState))
      ensures Saved(old(card.files), old(Held()), card.files, Held(), card.trace[old(|card.trace|)..],
                    card.unlinkFaults == old(card.unlinkFaults),
                    PhotoEntry(timestampMs, preset, favorite, Filename(time, timestampMs, preset)), ok)
      ensures ok && old(Sound(card.files, Held())) && Unlisted(old(Held()), Filename(time, timestampMs, preset)) ==>
                TripleWritten(card.files, Filename(time, timestampMs, preset), jpeg.value,
                              Manifest(PhotoEntry(timestampMs, preset, favorite, Filename(time, timestampMs, preset)),
                                       intensity, adjustments, model, version),
                              thumbnail)
    {
      hide Filename, Saved, Sound, Unlisted, TripleWritten, Manifest, Contains;
      ok := false;
      NothingSaved(card.files, Held(), card.trace,
                   PhotoEntry(timestampMs, preset, favorite, Filename(time, timestampMs, preset)));
      if storageState != Ready {
        return;
      }
      if 0 <= availableBytes < MINIMUM_FREE_BYTES {
        storageState := InsufficientSpace;
        return;
      }
      if jpeg.None? {
        return;
      }
      var filename := Filename(time, timestampMs, preset);
      FilenameFacts(time, timestampMs, preset);
      var entry := PhotoEntry(timestampMs, preset, favorite, filename);
      var manifest := Manifest(entry, intensity, adjustments, model, version);
      ok := SaveTransaction(entry, jpeg.value, manifest, thumbnail);
    }

    /** All four stages, each with its rollback. */
    method SaveTransaction(entry: PhotoEntry, jpeg: string, manifest: string, thumbnail: string) returns (ok: bool)
      requires Valid() && ValidName(entry.filename) && Carried(entry.filename)
      requires jpeg != "" && manifest != "" && |thumbnail| == THUMBNAIL_BYTES
      modifies this`entryCount, entries, card
      ensures Valid() && old(card.trace) <= card.trace && old(card.unlinkFaults) <= card.unlinkFaults
      ensures old(card.faults) <= card.faults && (ok <==> card.faults == old(card.faults))
      ensures Held() == if ok then Appended(old(Held()), entry) else old(Held())
      ensures Saved(old(card.files), old(Held()), card.files, Held(), card.trace[old(|card.trace|)..],
                    card.unlinkFaults == old(card.unlinkFaults), entry, ok)
      ensures ok && old(Sound(card.files, Held())) && Unlisted(old(Held()), entry.filename) ==>
                TripleWritten(card.files, entry.filename, jpeg, manifest, thumbnail)
    {
      hide Holds, Triple, PhotoPath, SidecarPath, ThumbnailPath, DistinctNames, Contains, Saved;
      var filename := entry.filename;
      ghost var pre, list := card.files, Held();
      ok := WriteTriple(filename, jpeg, manifest, thumbnail);
      ghost var mid, written := card.files, card.trace;
      if Sound(pre, list) && Unlisted(list, filename) {
        TriplePhase(written, old(|card.trace|), pre, mid, list, list, filename);
        TriplePhase(written, old(|card.trace|), pre, mid, list, Appended(list, entry), filename);
      }
      if !ok {
        NotWritten(pre, list, mid, written, old(|card.trace|), card.unlinkFaults == old(card.unlinkFaults), entry);
        return;
      }
      TripleIsComplete(mid, entry, jpeg, manifest, thumbnail);
      ok := CommitOrRollBack(entry, pre);
      SaveFinished(pre, list, mid, card.files, Held(), written, card.trace, old(|card.trace|),
                   card.unlinkFaults == old(card.unlinkFaults), entry, ok);
      if ok && Sound(pre, list) && Unlisted(list, filename) {
        NewFilesStay(pre, list, mid, card.files, entry, jpeg, manifest, thumbnail);
      }
    }

    // ---- delete --------------------------------------------------------------------------------

    function StorageIndex(newestIndex: int): int
      reads this
    {
      if newestIndex < 0 || newestIndex >= entryCount then -1 else entryCount - 1 - newestIndex
    }

    /** deletePhoto: the index goes first, the files follow. */
    method DeletePhoto(newestIndex: int) returns (removed: bool)
      requires Valid()
      modifies this`entryCount, entries, card
      ensures Valid() && old(card.trace) <= card.trace && old(card.unlinkFaults) <= card.unlinkFaults
      ensures old(card.faults) <= card.faults
      // the entry goes exactly when it exists and the new index could be written
      ensures entryCount == old(entryCount) - (if 0 <= newestIndex < old(entryCount)
                                                  && card.faults == old(card.faults) then 1 else 0)
      ensures removed ==> entryCount < old(entryCount)
      ensures entryCount < old(entryCount) ==>
                Held() == old(Held())[..entryCount - newestIndex] + old(Held())[entryCount + 1 - newestIndex..]
      ensures Deleted(old(card.files), old(Held()), card.files, Held(), card.trace[old(|card.trace|)..],
                      card.unlinkFaults == old(card.unlinkFaults), newestIndex, removed)
    {
      hide PhotoPath, SidecarPath, ThumbnailPath, IndexText;
      var index := StorageIndex(newestIndex);
      if index < 0 {
        return false;
      }
      hide Deleted;
      var filename := entries[index].filename;
      var previous, previousCount := entries[..], entryCount;
      ghost var pre, list := card.files, Held();
      RemoveEntry(index);
      var ok := SaveIndex();
      if !ok {
        Restore(previous, previousCount);
        DeleteRefused(pre, list, card.files, card.trace, old(|card.trace|),
                      card.unlinkFaults == old(card.unlinkFaults), newestIndex);
        return false;
      }
      ghost var after, committed := card.files, card.trace;
      removed := UnlinkThree(PhotoPath(filename), SidecarPath(filename), ThumbnailPath(filename));
      DeleteFinished(pre, list, after, card.files, committed, card.trace, old(|card.trace|),
                     card.unlinkFaults == old(card.unlinkFaults), newestIndex, removed);
    }

    // ---- load ------------------------------------------------------------------------------------

    /** One line of the index: kept when it is accepted. */
    method KeepLine(line: string) returns (kept: bool)
      requires Valid() && entryCount < MAX_ENTRIES
      modifies this`entryCount, entries
      ensures Valid() && kept == Accepted(card.files, line) && (kept ==> ParseLine(line).Parsed?)
      ensures Held() == if kept then old(Held()) + [ParseLine(line).entry] else old(Held())
    {
      hide Accepted, ParseLine;
      kept := Accepted(card.files, line);
      if kept {
        AcceptedIsParsed(card.files, line);
        entries[entryCount] := ParseLine(line).entry;
        entryCount := entryCount + 1;
      }
    }

    /** loadIndex: the entry buffer is filled line by line, a missing file or a bad line asks for a rebuild. */
    method LoadIndex() returns (needsRebuild: bool)
      requires Valid()
      modifies this`entryCount, entries
      ensures Valid()
      ensures INDEX_PATH !in card.files ==> needsRebuild && Held() == []
      ensures INDEX_PATH in card.files
          ==> Reading(Held(), needsRebuild) == ReadIndex(card.files, card.files[INDEX_PATH], 0)
    {
      hide ReadIndex, LineOf, FgetsLength, ParseLine, Accepted, Together;
      entryCount := 0;
      needsRebuild := false;
      if INDEX_PATH !in card.files {
        return true;
      }
      ghost var whole := ReadIndex(card.files, card.files[INDEX_PATH], 0);
      var text := card.files[INDEX_PATH];
      NothingReadYet(whole);
      assert Held() == [];
      while entryCount < MAX_ENTRIES && text != ""
        invariant Valid()
        invariant whole == Together(Held(), needsRebuild, ReadIndex(card.files, text, entryCount))
        decreases |text|
      {
        LineRead(card.files, text, Held(), needsRebuild);
        var kept := KeepLine(LineOf(text, LINE_BUFFER));
        text := text[FgetsLength(text, LINE_BUFFER)..];
        if !kept {
          needsRebuild := true;
        }
      }
      AllRead(card.files, text, Held(), needsRebuild);
    }

    /** rebuildIndex: at most 512 items of the listing are inspected, the newest 48 candidates are kept, sorted
        by time and written out as the new index. */
    method RebuildIndex(listing: Option<seq<DirItem>>) returns (ok: bool, ghost dropped: multiset<PhotoEntry>)
      requires Valid()
      modifies this`entryCount, entries, card
      ensures Valid() && old(card.trace) <= card.trace && old(card.unlinkFaults) <= card.unlinkFaults
      ensures card.faults == old(card.faults) + if ok || listing.None? then [] else [Temporary(INDEX_PATH)]
      ensures listing.None? ==> !ok && Held() == []
      ensures listing.Some? ==>
                && KeepsNewest(multiset(Held()), dropped, Candidates(old(card.files), Inspected(listing.value)))
                && AscendingTimes(Held())
      ensures listing.Some? && Fitting(Inspected(listing.value)) ==>
                NewestPhotos(old(card.files), Inspected(listing.value), Held())
      ensures ok ==> INDEX_PATH in card.files && card.files[INDEX_PATH] == IndexText(Held())
      ensures SameExcept(card.files, old(card.files), if ok then {INDEX_PATH} else {})
      ensures EachShows(card.trace, old(|card.trace|), old(card.files), card.files)
    {
      hide IsCandidate, Found, IndexText, KeepsNewest, AscendingTimes, Inspected, Candidates, NewestPhotos, Fitting;
      entryCount := 0;
      dropped := multiset{};
      if listing.None? {
        return false, dropped;
      }
      dropped := ScanListing(listing.value);
      SortByTime(entries, entryCount);
      if Fitting(Inspected(listing.value)) {
        RebuiltIsNewest(card.files, Inspected(listing.value), Held(), dropped);
      }
      ok := SaveIndex();
    }

    /** The readdir loop. */
    method ScanListing(listing: seq<DirItem>) returns (ghost dropped: multiset<PhotoEntry>)
      requires Valid() && entryCount == 0
      modifies this`entryCount, entries
      ensures Valid() && KeepsNewest(multiset(Held()), dropped, Candidates(card.files, Inspected(listing)))
    {
      hide IsCandidate, Found, IndexText, KeepsNewest, Candidates;
      ghost var items := Inspected(listing);
      var inspected := 0;
      dropped := multiset{};
      NothingKept(card.files);
      assert items[..0] == [] && entries[..0] == [];
      while inspected < INSPECTED_LIMIT && inspected < |listing|
        invariant inspected <= |items| && Valid()
        invariant KeepsNewest(multiset(Held()), dropped, Candidates(card.files, items[..inspected]))
      {
        var item := listing[inspected];
        CandidateStep(card.files, items, inspected);
        if IsCandidate(card.files, item) {
          ghost var all := Candidates(card.files, items[..inspected]);
          CandidateIsFound(card.files, item);
          entryCount, dropped := KeepNewest(entries, entryCount, Found(item).value, dropped, all);
        } else {
          assert Candidates(card.files, items[..inspected]) + [] == Candidates(card.files, items[..inspected]);
        }
        inspected := inspected + 1;
      }
      assert items[..inspected] == items;
    }

    // ---- start -----------------------------------------------------------------------------------

    /** cleanTemporaryFiles: at most 256 items of a directory are looked at. */
    method CleanTemporaryFiles(directory: Directory, listing: seq<string>)
      modifies card
      ensures card.faults == old(card.faults) && old(card.unlinkFaults) <= card.unlinkFaults
      ensures old(card.trace) <= card.trace && SameExcept(card.files, old(card.files), {})
      ensures EachWithin(card.trace, old(|card.trace|), old(card.files), {})
      // every temporary among them is gone unless an unlink failed, and every other file is as it was
      ensures card.unlinkFaults == old(card.unlinkFaults) ==> Cleaned(card.files, directory, listing)
      ensures card.files.Keys <= old(card.files).Keys
      ensures forall p | p in old(card.files) && p !in card.files :: p.dir == directory && IsTemporary(p)
      ensures forall p <- card.files :: card.files[p] == old(card.files)[p]
    {
      var inspected := 0;
      while inspected < 256 && inspected < |listing|
        invariant inspected <= |listing| && inspected <= 256
        invariant card.faults == old(card.faults) && old(card.unlinkFaults) <= card.unlinkFaults
        invariant old(card.trace) <= card.trace && SameExcept(card.files, old(card.files), {})
        invariant EachWithin(card.trace, old(|card.trace|), old(card.files), {})
        invariant card.unlinkFaults == old(card.unlinkFaults) ==>
          forall i | 0 <= i < inspected && EndsWith(listing[i], ".tmp") :: Path(directory, listing[i]) !in card.files
        invariant card.files.Keys <= old(card.files).Keys
        invariant forall p | p in old(card.files) && p !in card.files :: p.dir == directory && IsTemporary(p)
        invariant forall p <- card.files :: card.files[p] == old(card.files)[p]
      {
        if EndsWith(listing[inspected], ".tmp") {
          var _ := card.Unlink(Path(directory, listing[inspected]));
        }
        inspected := inspected + 1;
      }
    }

    method CleanDirectories(configListing: seq<string>, photosListing: seq<string>, thumbnailsListing: seq<string>)
      modifies card
      ensures card.faults == old(card.faults) && old(card.unlinkFaults) <= card.unlinkFaults
      ensures old(card.trace) <= card.trace && SameExcept(card.files, old(card.files), {})
      ensures EachWithin(card.trace, old(|card.trace|), old(card.files), {})
      ensures card.unlinkFaults == old(card.unlinkFaults) ==>
                && Cleaned(card.files, Config, configListing) && Cleaned(card.files, Photos, photosListing)
                && Cleaned(card.files, Thumbnails, thumbnailsListing)
    {
      CleanTemporaryFiles(Config, configListing);
      CleanTemporaryFiles(Photos, photosListing);
      CleanTemporaryFiles(Thumbnails, thumbnailsListing);
    }

    /** The probe file through its temporary. */
    method WriteProbeFile(value: string) returns (ok: bool)
      modifies card
      ensures old(card.unlinkFaults) <= card.unlinkFaults
      ensures card.faults == old(card.faults) + if ok then [] else [PROBE_TEMPORARY]
      ensures ok ==> PROBE_PATH in card.files && card.files[PROBE_PATH] == value
      ensures old(card.trace) <= card.trace && SameExcept(card.files, old(card.files), {PROBE_PATH})
      ensures EachWithin(card.trace, old(|card.trace|), old(card.files), {PROBE_PATH})
    {
      ProbePaths();
      UnlinkBoth(PROBE_TEMPORARY, PROBE_PATH);
      var isOpen;
      isOpen, ok := card.WriteTemporary(PROBE_TEMPORARY, value, true);
      if ok {
        ok := card.AtomicReplace(PROBE_TEMPORARY, PROBE_PATH);
      }
    }

    /** The write probe of initialize: write, rename, read back, remove. */
    method WriteProbe() returns (ok: bool)
      modifies card
      ensures old(card.unlinkFaults) <= card.unlinkFaults
      ensures card.unlinkFaults == old(card.unlinkFaults) ==> PROBE_PATH !in card.files
      ensures card.faults == old(card.faults) + if ok then [] else [PROBE_TEMPORARY]
      ensures old(card.trace) <= card.trace && SameExcept(card.files, old(card.files), {PROBE_PATH})
      ensures EachWithin(card.trace, old(|card.trace|), old(card.files), {PROBE_PATH})
    {
      ProbePaths();
      var value := "RETROLENS STORAGE OK\n";
      ok := WriteProbeFile(value);
      if !ok || PROBE_PATH !in card.files || |card.files[PROBE_PATH]| != |value| {
        UnlinkBoth(PROBE_TEMPORARY, PROBE_PATH);
        return false;
      }
      ok := card.files[PROBE_PATH][0] == 'R';
      var _ := card.Unlink(PROBE_PATH);
    }

    /** The list from the index, or from the directory when the index is missing or has a bad line. */
    method LoadOrRebuild(listing: Option<seq<DirItem>>)
      returns (ok: bool, rebuilt: bool, ghost dropped: multiset<PhotoEntry>)
      requires Valid()
      modifies this`entryCount, entries, card
      ensures Valid() && old(card.trace) <= card.trace && old(card.unlinkFaults) <= card.unlinkFaults
      ensures forall list | Holds(old(card.files), list) :: !rebuilt && Held() == list
      ensures !rebuilt ==> ok && card.files == old(card.files) && card.trace == old(card.trace)
                           && card.faults == old(card.faults) && Holds(card.files, Held())
      ensures rebuilt ==> (ok <==> listing.Some? && card.faults == old(card.faults))
      ensures card.faults == old(card.faults) || card.faults == old(card.faults) + [Temporary(INDEX_PATH)]
      ensures rebuilt && ok ==>
                && KeepsNewest(multiset(Held()), dropped, Candidates(old(card.files), Inspected(listing.value)))
                && AscendingTimes(Held()) && SameExcept(card.files, old(card.files), {INDEX_PATH})
                && INDEX_PATH in card.files && card.files[INDEX_PATH] == IndexText(Held())
                && (Fitting(Inspected(listing.value)) ==>
                      NewestPhotos(old(card.files), Inspected(listing.value), Held()))
    {
      hide Holds, KeepsNewest, AscendingTimes, Candidates, Inspected, IndexText, NewestPhotos, Fitting;
      dropped := multiset{};
      rebuilt := LoadIndex();
      LoadedMeansHeld(card.files, Held(), rebuilt);
      ok := true;
      if rebuilt {
        ok, dropped := RebuildIndex(listing);
      }
    }

    /** initialize. Which directories can be made, the free space and the directory listings are inputs. */
    method Initialize(directoriesMade: bool, availableBytes: int, configListing: seq<string>,
            photosListing: seq<string>, thumbnailsListing: seq<string>, listing: Option<seq<DirItem>>)
      returns (rebuilt: bool, ghost base: Files, ghost dropped: multiset<PhotoEntry>)
      requires Valid()
      modifies this`entryCount, this`storageState, entries, card
      ensures Valid() && old(card.trace) <= card.trace && storageState != NotConfigured
      ensures old(card.faults) <= card.faults && old(card.unlinkFaults) <= card.unlinkFaults
      // the state: the guards in order, then the probe, then the index
      ensures storageState == if !RootAllowed(root) then InvalidRoot
                              else if !directoriesMade then DirectoryFailed
                              else if 0 <= availableBytes < MINIMUM_FREE_BYTES then InsufficientSpace
                              else if ProbeFailed(card.faults[|old(card.faults)|..]) then WriteProbeFailed
                              else if rebuilt && (listing.None? || card.faults != old(card.faults)) then IndexFailed
                              else Ready
      // a refusal before the index is read leaves the list alone, one before the probe the card too
      ensures storageState in {InvalidRoot, DirectoryFailed, InsufficientSpace, WriteProbeFailed} ==>
                !rebuilt && Held() == old(Held())
      ensures storageState in {InvalidRoot, DirectoryFailed, InsufficientSpace} ==>
                card.files == old(card.files) && card.trace == old(card.trace)
      ensures storageState == Ready ==>
                RootAllowed(root) && directoriesMade && !(0 <= availableBytes < MINIMUM_FREE_BYTES)
      // past the probe the temporaries of the three directories are gone before the index is read
      ensures storageState in {Ready, IndexFailed} && card.unlinkFaults == old(card.unlinkFaults) ==>
                && Cleaned(base, Config, configListing) && Cleaned(base, Photos, photosListing)
                && Cleaned(base, Thumbnails, thumbnailsListing)
      // a card that stands for a list comes up with that list, without a rebuild and without a step that loses it
      ensures forall list | Holds(old(card.files), list) ::
                && !rebuilt && Holds(card.files, list) && CrashSafe(card.trace, old(|card.trace|), list, list)
                && (storageState == Ready ==> Held() == list)
      // otherwise the list is either what loadIndex accepts or the newest candidates of the listing
      ensures storageState == Ready && !rebuilt ==> Holds(card.files, Held())
      ensures storageState == Ready && rebuilt ==>
                && listing.Some? && KeepsNewest(multiset(Held()), dropped, Candidates(base, Inspected(listing.value)))
                && AscendingTimes(Held())
                && SameExcept(card.files, base, {INDEX_PATH}) && SameExcept(base, old(card.files), {PROBE_PATH})
                && INDEX_PATH in card.files && card.files[INDEX_PATH] == IndexText(Held())
                && (Fitting(Inspected(listing.value)) ==> NewestPhotos(base, Inspected(listing.value), Held()))
    {
      hide Holds, KeepsNewest, AscendingTimes, Candidates, Inspected, IndexText, NewestPhotos, Fitting, Cleaned;
      rebuilt, dropped := false, multiset{};
      base := card.files;
      StartPhase(old(card.files), card.files, card.trace, old(|card.trace|));
      if !RootAllowed(root) {
        storageState := InvalidRoot;
        return;
      }
      if !directoriesMade {
        storageState := DirectoryFailed;
        return;
      }
      if 0 <= availableBytes < MINIMUM_FREE_BYTES {
        storageState := InsufficientSpace;
        return;
      }
      var probed := WriteProbe();
      StartPhase(old(card.files), card.files, card.trace, old(|card.trace|));
      if !probed {
        storageState := WriteProbeFailed;
        return;
      }
      CleanDirectories(configListing, photosListing, thumbnailsListing);
      base := card.files;
      StartPhase(old(card.files), card.files, card.trace, old(|card.trace|));
      var ok;
      ok, rebuilt, dropped := LoadOrRebuild(listing);
      storageState := if ok then Ready else IndexFailed;
    }

    /** loadThumbnail: the bytes of the newestIndex-th newest photo. */
    method LoadThumbnail(newestIndex: int) returns (thumbnail: Option<string>)
      requires Valid()
      ensures thumbnail == if 0 <= newestIndex < entryCount
                           then ThumbnailBytes(card.files, Held()[entryCount - 1 - newestIndex].filename) else None
    {
      hide ThumbnailPath;
      var index := StorageIndex(newestIndex);
      if index < 0 {
        return None;
      }
      var path := ThumbnailPath(entries[index].filename);
      if path !in card.files || |card.files[path]| < THUMBNAIL_BYTES {
        return None;
      }
      thumbnail := Some(card.files[path][..THUMBNAIL_BYTES]);
    }

    // ---- settings --------------------------------------------------------------------------------

    /** saveSettings: the printed record replaces settings.cfg in one step, or settings.cfg stays as it was. */
    method SaveSettings(settings: RuntimeSettings) returns (ok: bool)
      requires 0 <= settings.favoritesLo && 0 <= settings.favoritesHi
      requires |settings.adjustments| == PRESET_COUNT && |settings.recent| <= MAX_RECENT
      modifies card
      ensures old(card.trace) <= card.trace
      ensures old(card.faults) <= card.faults && (ok <==> card.faults == old(card.faults))
      ensures ok ==> SETTINGS_PATH in card.files && card.files[SETTINGS_PATH] == SettingsFile(settings)
      ensures SameExcept(card.files, old(card.files), if ok then {SETTINGS_PATH} else {})
      ensures EachShows(card.trace, old(|card.trace|), old(card.files), card.files)
    {
      hide AdjustLine, PresetId, Printed, AdjustLines, Joined;
      var recents := "";
      var i := 0;
      RecentSoFar(settings.recent, 0);
      while i < |settings.recent|
        invariant i <= |settings.recent| && recents == Joined(settings.recent[..i])
        modifies {}
      {
        recents := recents + (if i > 0 then "," else "") + PresetId(settings.recent[i]);
        i := i + 1;
        RecentSoFar(settings.recent, i);
      }
      assert settings.recent[..i] == settings.recent;
      ghost var rows := AdjustLines(settings.adjustments, 0);
      var text := HeadText(settings, recents);
      HeadPrinted(settings, rows);
      i := 0;
      while i < PRESET_COUNT
        invariant i <= PRESET_COUNT && SettingsFile(settings) == text + Printed(AdjustLines(settings.adjustments, i))
        modifies {}
      {
        AdjustStep(settings.adjustments, i, text);
        if settings.adjustments[i] != NO_ADJUSTMENT {
          text := text + (AdjustLine(i, settings.adjustments[i]) + "\n");
        }
        i := i + 1;
      }
      SettingsPathIsFinal();
      AdjustEnd(settings.adjustments, text);
      ok := card.WriteFile(SETTINGS_PATH, text, false);
    }

    /** loadSettings */
    method LoadSettings() returns (found: bool, settings: RuntimeSettings)
      ensures found == (SETTINGS_PATH in card.files)
      ensures Bounded(settings) && settings == if found then Loaded(card.files[SETTINGS_PATH]) else Defaults()
    {
      hide LineOf, FgetsLength, ReadLine, Bounded;
      settings := Defaults();
      found := SETTINGS_PATH in card.files;
      if !found {
        LoadedIsBounded("");
        return;
      }
      var text := card.files[SETTINGS_PATH];
      while text != ""
        invariant |settings.adjustments| == PRESET_COUNT
        invariant ReadLines(settings, text) == ReadLines(Defaults(), card.files[SETTINGS_PATH])
        decreases |text|
      {
        settings := ReadLine(settings, LineOf(text, SETTINGS_LINE_BUFFER));
        text := text[FgetsLength(text, SETTINGS_LINE_BUFFER)..];
      }
      if !(0 <= settings.intensity <= 100) {
        settings := settings.(intensity := 100);
      }
      if !(0 <= settings.motion <= 2) {
        settings := settings.(motion := 2);
      }
      LoadedIsBounded(card.files[SETTINGS_PATH]);
    }
  }

  /** What has been read so far, followed by what is still to be read. */
  ghost function Together(held: seq<PhotoEntry>, needsRebuild: bool, rest: Reading): Reading {
    Reading(held + rest.entries, needsRebuild || rest.needsRebuild)
  }

  lemma NothingReadYet(whole: Reading)
    ensures Together([], false, whole) == whole
  {
    assert [] + whole.entries == whole.entries;
  }

  lemma LineRead(files: Files, text: string, held: seq<PhotoEntry>, needsRebuild: bool)
    requires |held| < MAX_ENTRIES && text != ""
    ensures var line, rest := LineOf(text, LINE_BUFFER), text[FgetsLength(text, LINE_BUFFER)..];
            Together(held, needsRebuild, ReadIndex(files, text, |held|)) ==
              if Accepted(files, line) then
                Together(held + [ParseLine(line).entry], needsRebuild, ReadIndex(files, rest, |held| + 1))
              else
                Together(held, true, ReadIndex(files, rest, |held|))
  {
    hide LineOf, FgetsLength, ParseLine, Accepted, ReadIndex;
    ReadStep(files, text, |held|);
    var line, rest := LineOf(text, LINE_BUFFER), text[FgetsLength(text, LINE_BUFFER)..];
    AcceptedIsParsed(files, line);
    if Accepted(files, line) {
      var tail := ReadIndex(files, rest, |held| + 1).entries;
      assert held + ([ParseLine(line).entry] + tail) == held + [ParseLine(line).entry] + tail;
    }
  }

  lemma AllRead(files: Files, text: string, held: seq<PhotoEntry>, needsRebuild: bool)
    requires |held| == MAX_ENTRIES || (|held| < MAX_ENTRIES && text == "")
    ensures Together(held, needsRebuild, ReadIndex(files, text, |held|)) == Reading(held, needsRebuild)
  {
    assert held + [] == held;
  }

  lemma AcceptedIsParsed(files: Files, line: string)
    ensures Accepted(files, line) ==> ParseLine(line).Parsed?
  {
    hide ParseLine, PresetId;
  }

  lemma CandidateIsFound(files: Files, item: DirItem)
    requires IsCandidate(files, item)
    ensures Found(item).Some? && ValidEntry(files, Found(item).value)
  {
    hide Found;
  }

  /** After a rebuild the card stands for the rebuilt list exactly when the index can carry its filenames; a listing
      of distinct names that fit the filename buffer makes them distinct. */
  lemma RebuildIsSound(files: Files, base: Files, items: seq<DirItem>, held: seq<PhotoEntry>,
          dropped: multiset<PhotoEntry>)
    requires |held| <= MAX_ENTRIES && KeepsNewest(multiset(held), dropped, Candidates(base, items))
    requires SameExcept(files, base, {INDEX_PATH}) && INDEX_PATH in files && files[INDEX_PATH] == IndexText(held)
    ensures Holds(files, held) <==> forall e <- held :: Carried(e.filename)
    ensures (forall i, j | 0 <= i < j < |items| :: items[i].name != items[j].name)
            && (forall i | 0 <= i < |items| :: |items[i].name| < FILENAME_BUFFER)
            ==> DistinctNames(held)
  {
    hide IndexText, Carried, Candidates, ValidEntry, DistinctNames, Holds;
    var all := Candidates(base, items);
    CandidatesAreValid(base, items);
    forall e | e in held ensures ValidEntry(files, e) {
      assert e in multiset(held) && e in multiset(all) && e in all;
      CandidateStays(files, base, e);
    }
    if forall e <- held :: Carried(e.filename) {
      PrintedListHolds(files, held);
    } else if Holds(files, held) {
      HeldNames(files, held);
    }
    if && (forall i, j | 0 <= i < j < |items| :: items[i].name != items[j].name)
       && (forall i | 0 <= i < |items| :: |items[i].name| < FILENAME_BUFFER)
    {
      CandidateNames(base, items);
      KeptNames(held, dropped, all);
    }
  }

  lemma {:induction false} CandidatesAreValid(files: Files, items: seq<DirItem>)
    ensures forall e <- Candidates(files, items) :: ValidEntry(files, e) && |e.filename| < FILENAME_BUFFER
  {
    hide ValidEntry, RecoveredFrom;
    if items != [] {
      CandidatesAreValid(files, items[..|items| - 1]);
    }
  }

  lemma CandidateStays(files: Files, base: Files, e: PhotoEntry)
    requires ValidEntry(base, e) && |e.filename| < FILENAME_BUFFER && SameExcept(files, base, {INDEX_PATH})
    ensures ValidEntry(files, e)
  {
    TripleIsFinal(e.filename);
    KeptFiles(files, base, e, {INDEX_PATH});
  }

  lemma NothingKept(files: Files)
    ensures KeepsNewest(multiset([]), multiset{}, Candidates(files, []))
  {}

  lemma CandidateStep(files: Files, items: seq<DirItem>, k: nat)
    requires k < |items|
    ensures Candidates(files, items[..k + 1]) == Candidates(files, items[..k]) +
              if IsCandidate(files, items[k]) then [Found(items[k]).value] else []
  {
    hide IsCandidate, Found;
    assert items[..k + 1][..k] == items[..k] && items[..k + 1][k] == items[k];
  }

  lemma {:induction false} NamesOccurOnce(all: seq<PhotoEntry>)
    requires DistinctNames(all)
    ensures forall x <- multiset(all) :: multiset(all)[x] == 1
  {
    if all != [] {
      var n := |all| - 1;
      NamesOccurOnce(all[..n]);
      assert all == all[..n] + [all[n]];
      assert all[n] !in all[..n];
    }
  }

  lemma TwiceIsTwice(s: seq<PhotoEntry>, i: nat, j: nat)
    requires i < j < |s| && s[i] == s[j]
    ensures multiset(s)[s[i]] >= 2
  {
    assert s == s[..j] + [s[j]] + s[j + 1..];
    assert s[..j][i] == s[i];
  }

  lemma KeptNames(held: seq<PhotoEntry>, dropped: multiset<PhotoEntry>, all: seq<PhotoEntry>)
    requires DistinctNames(all) && multiset(held) + dropped == multiset(all)
    ensures DistinctNames(held)
  {
    NamesOccurOnce(all);
    forall i, j | 0 <= i < j < |held| ensures held[i].filename != held[j].filename {
      if held[i] == held[j] {
        TwiceIsTwice(held, i, j);
      } else {
        assert held[i] in multiset(held) && held[j] in multiset(held);
        assert held[i] in multiset(all) && held[j] in multiset(all);
        assert held[i] in all && held[j] in all;
      }
    }
  }

  // ---- start up ------------------------------------------------------------------------------------

  const PROBE_PATH: Path := Path(Config, "storage_probe.ok")
  const PROBE_TEMPORARY: Path := Path(Config, "storage_probe.tmp")

  /** No temporary among the first 256 names of a directory is on the card. */
  ghost predicate Cleaned(files: Files, directory: Directory, listing: seq<string>) {
    forall i | 0 <= i < |listing| && i < 256 && EndsWith(listing[i], ".tmp") :: Path(directory, listing[i]) !in files
  }

  predicate RootAllowed(root: string) {
    root != "" && root[0] == '/' && !Contains(root, "..")
  }

  /** The write probe comes before every other operation that is looked at. */
  predicate ProbeFailed(faults: seq<Path>) {
    faults != [] && faults[0] == PROBE_TEMPORARY
  }

  lemma ProbePaths()
    ensures IsTemporary(PROBE_TEMPORARY) && !IsTemporary(PROBE_PATH)
  {
    assert LastChar(PROBE_PATH) == 'k';
    if IsTemporary(PROBE_PATH) {
      TemporaryEnds(PROBE_PATH);
    }
    assert "storage_probe.tmp" == "storage_probe" + ".tmp";
  }

  /** Steps that touch only the probe file and temporaries leave every list the card stands for in place. */
  lemma StartPhase(pre: Files, post: Files, trace: seq<Files>, from: nat)
    requires SameExcept(post, pre, {PROBE_PATH}) && EachWithin(trace, from, pre, {PROBE_PATH})
    ensures forall list | Holds(pre, list) :: Holds(post, list) && CrashSafe(trace, from, list, list)
  {
    hide Holds, Triple;
    forall list | Holds(pre, list) ensures Holds(post, list) && CrashSafe(trace, from, list, list) {
      forall e: PhotoEntry | e in list ensures Triple(e.filename) !! {PROBE_PATH} {
        NotConfig(e.filename);
      }
      HoldsFrame(pre, post, list, {PROBE_PATH});
      CrashSafeWithin(trace, from, pre, {PROBE_PATH}, list, list, list);
    }
  }

  lemma NotConfig(filename: string)
    ensures forall p <- Triple(filename) :: p.dir != Config
  {}

  /** loadIndex without a rebuild returns the one list the card stands for. */
  lemma LoadedMeansHeld(files: Files, held: seq<PhotoEntry>, needsRebuild: bool)
    requires INDEX_PATH !in files ==> needsRebuild
    requires INDEX_PATH in files ==> Reading(held, needsRebuild) == ReadIndex(files, files[INDEX_PATH], 0)
    ensures forall list | Holds(files, list) :: !needsRebuild && held == list
    ensures !needsRebuild ==> Holds(files, held)
  {
    hide ReadIndex;
  }

  // ---- settings -------------------------------------------------------------------------------------

  const SETTINGS_PATH: Path := Path(Config, "settings.cfg")

  lemma SettingsPathIsFinal()
    ensures !IsTemporary(SETTINGS_PATH)
  {
    assert LastChar(SETTINGS_PATH) == 'g';
    if IsTemporary(SETTINGS_PATH) {
      TemporaryEnds(SETTINGS_PATH);
    }
  }

  // ---- restarts --------------------------------------------------------------------------------------

  /** A crash during a save or a deletion leaves one of its crash-safe states on the card. Starting a new
      store on that card recovers the list from before or the list from after, whole and without a rebuild. */
  method RestartAfterCrash(files: Files, ghost before: seq<PhotoEntry>, ghost after: seq<PhotoEntry>, root: string,
          model: string, version: string, directoriesMade: bool, availableBytes: int, configListing: seq<string>,
          photosListing: seq<string>, thumbnailsListing: seq<string>, listing: Option<seq<DirItem>>)
    returns (store: PhotoStore, rebuilt: bool)
    requires CrashSafe([files], 0, before, after)
    ensures fresh(store) && store.Valid() && !rebuilt
    ensures store.storageState == Ready ==> store.Held() == before || store.Held() == after
    ensures RootAllowed(root) && directoriesMade && !(0 <= availableBytes < MINIMUM_FREE_BYTES)
              && store.card.faults == [] ==>
              store.storageState == Ready
    ensures Holds(store.card.files, before) || Holds(store.card.files, after)
  {
    hide Holds;
    assert [files][0] == files;
    var card := new Card(files);
    store := new PhotoStore(card, root, model, version);
    ghost var base, dropped;
    rebuilt, base, dropped := store.Initialize(directoriesMade, availableBytes, configListing, photosListing,
                                               thumbnailsListing, listing);
  }

  /** settings.cfg after a successful save loads as the very record that was saved, in this run or the next. */
  method SaveThenLoadSettings(store: PhotoStore, settings: RuntimeSettings)
    returns (ok: bool, found: bool, loaded: RuntimeSettings)
    requires WellFormed(settings)
    modifies store.card
    ensures ok <==> store.card.faults == old(store.card.faults)
    ensures ok ==> found && loaded == settings
  {
    hide Loaded, SettingsFile;
    ok := store.SaveSettings(settings);
    found, loaded := store.LoadSettings();
    SettingsRoundTrip(settings);
  }

  // ---- thumbnails -----------------------------------------------------------------------------------

  function ThumbnailBytes(files: Files, filename: string): Option<string> {
    var path := ThumbnailPath(filename);
    if path in files && |files[path]| >= THUMBNAIL_BYTES then Some(files[path][..THUMBNAIL_BYTES]) else None
  }

  /** Every listed photo of a store has a thumbnail to show, and it is the whole file. */
  lemma HeldThumbnails(files: Files, entries: seq<PhotoEntry>)
    requires Holds(files, entries)
    ensures forall e <- entries :: ThumbnailPath(e.filename) in files
                                   && ThumbnailBytes(files, e.filename) == Some(files[ThumbnailPath(e.filename)])
  {
    hide Holds;
    HeldNames(files, entries);
    forall e | e in entries ensures ThumbnailPath(e.filename) in files
                                    && ThumbnailBytes(files, e.filename) == Some(files[ThumbnailPath(e.filename)]) {
      var bytes := files[ThumbnailPath(e.filename)];
      assert bytes[..THUMBNAIL_BYTES] == bytes;
    }
  }
}
