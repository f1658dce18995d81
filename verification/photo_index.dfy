/** The gallery index: the text saveIndex prints and the list loadIndex takes from it. */
module PhotoIndex {
  import opened CText
  import opened PresetCatalog
  import opened CardFiles

  const MAX_ENTRIES: nat := 48
  const LINE_BUFFER: nat := 320
  const FILENAME_BUFFER: nat := 128
  const THUMBNAIL_BYTES: nat := 80 * 60 * 3

  type int64 = x: int | INT64_MIN <= x <= INT64_MAX

  datatype PhotoEntry = PhotoEntry(timestampMs: int64, presetIndex: PresetNumber, favorite: bool, filename: string)

  function Stem(filename: string): string {
    var buffer := Truncated(filename, FILENAME_BUFFER);
    buffer[..LastIndexOf(buffer, '.')]
  }

  const INDEX_PATH: Path := Path(Thumbnails, "index.txt")
  function PhotoPath(filename: string): Path { Path(Photos, filename) }
  function SidecarPath(filename: string): Path { Path(Photos, Stem(filename) + ".json") }
  function ThumbnailPath(filename: string): Path { Path(Thumbnails, Stem(filename) + ".rgb") }
  function Triple(filename: string): set<Path> { {PhotoPath(filename), SidecarPath(filename), ThumbnailPath(filename)} }

  predicate ValidName(filename: string) {
    filename != "" && !Contains(filename, "..") && '/' !in filename && EndsWith(filename, ".jpg")
  }

  /** The three files validateEntry asks for. */
  predicate Complete(files: Files, filename: string) {
    && PhotoPath(filename) in files && files[PhotoPath(filename)] != ""
    && SidecarPath(filename) in files && files[SidecarPath(filename)] != ""
    && ThumbnailPath(filename) in files && |files[ThumbnailPath(filename)]| == THUMBNAIL_BYTES
  }

  /** validateEntry */
  predicate ValidEntry(files: Files, e: PhotoEntry) {
    ValidName(e.filename) && Complete(files, e.filename)
  }

  // ---- printing ------------------------------------------------------------------------------

  function EntryLine(e: PhotoEntry): string {
    Decimal(e.timestampMs) + "|" + e.filename + "|" + PresetId(e.presetIndex) + "|" + (if e.favorite then "1" else "0")
  }

  function IndexText(entries: seq<PhotoEntry>): string {
    if entries == [] then "" else EntryLine(entries[0]) + "\n" + IndexText(entries[1..])
  }

  lemma {:induction false} IndexTextAppend(entries: seq<PhotoEntry>, e: PhotoEntry)
    ensures IndexText(entries + [e]) == IndexText(entries) + (EntryLine(e) + "\n")
  {
    hide EntryLine;
    if entries == [] {
      assert [e][1..] == [];
      assert entries + [e] == [e];
      assert EntryLine(e) + "\n" + "" == EntryLine(e) + "\n";
    } else {
      IndexTextAppend(entries[1..], e);
      assert (entries + [e])[0] == entries[0] && (entries + [e])[1..] == entries[1..] + [e];
      Reassociated(EntryLine(entries[0]) + "\n", IndexText(entries[1..]), EntryLine(e) + "\n");
    }
  }

  // ---- reading -------------------------------------------------------------------------------

  datatype ParsedLine = Malformed | Parsed(entry: PhotoEntry, presetId: string)

  /** One line of loadIndex: cut at three bars, each field converted by its C function. */
  function ParseLine(line: string): ParsedLine {
    var first := CutAt(line, '|');
    if first.Uncut? then Malformed else
    var second := CutAt(first.after, '|');
    if second.Uncut? then Malformed else
    var third := CutAt(second.after, '|');
    if third.Uncut? then Malformed else
    Parsed(PhotoEntry(Strtoll(first.before), PresetIndex(third.before), Atoi(third.after) != 0,
                      Truncated(second.before, FILENAME_BUFFER)), third.before)
  }

  /** The line is kept: it parses, its preset id is a real one and its files are complete. */
  predicate Accepted(files: Files, line: string) {
    var p := ParseLine(line);
    p.Parsed? && PresetId(p.entry.presetIndex) == p.presetId && ValidEntry(files, p.entry)
  }

  datatype Reading = Reading(entries: seq<PhotoEntry>, needsRebuild: bool)

  /** What loadIndex makes of a text once it already holds the given number of entries. */
  function ReadIndex(files: Files, text: string, held: nat): (r: Reading)
    requires held <= MAX_ENTRIES
    ensures held + |r.entries| <= MAX_ENTRIES
  {
    if held == MAX_ENTRIES || text == "" then Reading([], false) else
    var line := LineOf(text, LINE_BUFFER);
    var rest := text[FgetsLength(text, LINE_BUFFER)..];
    if Accepted(files, line) then
      var tail := ReadIndex(files, rest, held + 1);
      Reading([ParseLine(line).entry] + tail.entries, tail.needsRebuild)
    else
      Reading(ReadIndex(files, rest, held).entries, true)
  }

  /** The index on the card stands for this list, every line it reads is good and none calls for a rebuild. */
  ghost predicate Holds(files: Files, entries: seq<PhotoEntry>) {
    INDEX_PATH in files && ReadIndex(files, files[INDEX_PATH], 0) == Reading(entries, false)
  }

  // ---- names and paths -----------------------------------------------------------------------

  /** Filenames the index can carry: no bar, no line feed, no NUL, and short enough for the buffer. */
  predicate Carried(filename: string) {
    '|' !in filename && '\n' !in filename && '\0' !in filename && |filename| < FILENAME_BUFFER
  }

  lemma {:induction false} ReadEntriesAreGood(files: Files, text: string, held: nat)
    requires held <= MAX_ENTRIES
    ensures forall e <- ReadIndex(files, text, held).entries :: ValidEntry(files, e) && Carried(e.filename)
    decreases |text|
  {
    if held < MAX_ENTRIES && text != "" {
      var line := LineOf(text, LINE_BUFFER);
      var rest := text[FgetsLength(text, LINE_BUFFER)..];
      ReadEntriesAreGood(files, rest, if Accepted(files, line) then held + 1 else held);
      if Accepted(files, line) {
        ParsedNameIsCarried(line);
      }
    }
  }

  lemma ParsedNameIsCarried(line: string)
    requires '\n' !in line && '\0' !in line && ParseLine(line).Parsed?
    ensures Carried(ParseLine(line).entry.filename)
  {
    var first := CutAt(line, '|');
    var field := CutAt(first.after, '|').before;
    assert forall c <- field :: c in first.after && c in line;
  }

  function LastChar(p: Path): char {
    if p.name == "" then ' ' else p.name[|p.name| - 1]
  }

  lemma StemOf(a: string)
    requires EndsWith(a, ".jpg") && |a| < FILENAME_BUFFER
    ensures a == Stem(a) + ".jpg"
  {
    var n := |a| - 4;
    assert a[n..] == ".jpg";
    assert a[n] == '.' && a[n + 1] == 'j' && a[n + 2] == 'p' && a[n + 3] == 'g';
    var i := LastIndexOf(a, '.');
    assert i >= n;
    assert i == n;
    assert a == a[..n] + a[n..];
  }

  lemma PathEnds(a: string)
    requires EndsWith(a, ".jpg") && |a| < FILENAME_BUFFER
    ensures LastChar(PhotoPath(a)) == 'g' && LastChar(SidecarPath(a)) == 'n' && LastChar(ThumbnailPath(a)) == 'b'
  {
    assert a[|a| - 4..][3] == 'g';
  }

  lemma TemporaryEnds(p: Path)
    requires IsTemporary(p)
    ensures LastChar(p) == 'p'
  {
    assert p.name[|p.name| - 4..][3] == 'p';
  }

  lemma AppendCancels(a: string, b: string, suffix: string)
    requires a + suffix == b + suffix
    ensures a == b
  {
    assert |a| == |b|;
    assert a == (a + suffix)[..|a|] == (b + suffix)[..|b|] == b;
  }

  lemma IndexIsFinal()
    ensures !IsTemporary(INDEX_PATH)
  {
    assert LastChar(INDEX_PATH) == 't';
    if IsTemporary(INDEX_PATH) {
      TemporaryEnds(INDEX_PATH);
    }
  }

  /** The index and the files of a photo are not temporaries, and the index is not one of those files. */
  lemma TripleIsFinal(a: string)
    requires EndsWith(a, ".jpg") && |a| < FILENAME_BUFFER
    ensures INDEX_PATH !in Triple(a) && !IsTemporary(INDEX_PATH)
    ensures forall p <- Triple(a) :: !IsTemporary(p)
  {
    PathEnds(a);
    assert LastChar(INDEX_PATH) == 't';
    forall p | p in Triple(a) + {INDEX_PATH} ensures !IsTemporary(p) {
      if IsTemporary(p) {
        TemporaryEnds(p);
      }
    }
  }

  lemma PathsApart(a: string)
    requires EndsWith(a, ".jpg") && |a| < FILENAME_BUFFER
    ensures PhotoPath(a) != SidecarPath(a) && PhotoPath(a) != ThumbnailPath(a) && SidecarPath(a) != ThumbnailPath(a)
  {
    PathEnds(a);
  }

  /** Distinct photos share no file: each path gives its filename back. */
  lemma TriplesApart(a: string, b: string)
    requires EndsWith(a, ".jpg") && EndsWith(b, ".jpg") && |a| < FILENAME_BUFFER && |b| < FILENAME_BUFFER
    ensures a != b ==> Triple(a) !! Triple(b)
  {
    PathEnds(a);
    PathEnds(b);
    StemOf(a);
    StemOf(b);
    if SidecarPath(a) == SidecarPath(b) {
      AppendCancels(Stem(a), Stem(b), ".json");
    }
    if ThumbnailPath(a) == ThumbnailPath(b) {
      AppendCancels(Stem(a), Stem(b), ".rgb");
    }
    hide PhotoPath, SidecarPath, ThumbnailPath;
    assert a != b ==> forall p <- Triple(a), q <- Triple(b) :: p != q;
  }

  // ---- frames ---------------------------------------------------------------------------------

  ghost predicate DistinctNames(entries: seq<PhotoEntry>) {
    forall i, j | 0 <= i < j < |entries| :: entries[i].filename != entries[j].filename
  }

  /** A text read without complaint reads the same on any card that keeps the files it names. */
  lemma {:induction false} ReadIndexFrame(files: Files, other: Files, text: string, held: nat)
    requires held <= MAX_ENTRIES && !ReadIndex(files, text, held).needsRebuild
    requires forall e <- ReadIndex(files, text, held).entries :: Complete(other, e.filename)
    ensures ReadIndex(other, text, held) == ReadIndex(files, text, held)
    decreases |text|
  {
    hide ParseLine, LineOf, FgetsLength, ValidName, PresetId;
    if held < MAX_ENTRIES && text != "" {
      var line := LineOf(text, LINE_BUFFER);
      var rest := text[FgetsLength(text, LINE_BUFFER)..];
      ReadStep(files, text, held);
      ReadStep(other, text, held);
      var e := ParseLine(line).entry;
      var tail := ReadIndex(files, rest, held + 1);
      assert e in [e] + tail.entries;
      assert forall x <- tail.entries :: x in [e] + tail.entries;
      ReadIndexFrame(files, other, rest, held + 1);
    }
  }

  lemma ReadStep(files: Files, text: string, held: nat)
    requires held < MAX_ENTRIES && text != ""
    ensures var line, rest := LineOf(text, LINE_BUFFER), text[FgetsLength(text, LINE_BUFFER)..];
            if Accepted(files, line) then
              var tail := ReadIndex(files, rest, held + 1);
              ReadIndex(files, text, held) == Reading([ParseLine(line).entry] + tail.entries, tail.needsRebuild)
            else
              ReadIndex(files, text, held) == Reading(ReadIndex(files, rest, held).entries, true)
  {}

  /** What the index stands for survives every change outside the index and the files it names. */
  lemma HoldsFrame(files: Files, other: Files, entries: seq<PhotoEntry>, touched: set<Path>)
    requires Holds(files, entries) && SameExcept(other, files, touched)
    requires INDEX_PATH !in touched && forall e <- entries :: Triple(e.filename) !! touched
    ensures Holds(other, entries)
  {
    ReadEntriesAreGood(files, files[INDEX_PATH], 0);
    forall e | e in entries ensures Complete(other, e.filename) {
      TripleIsFinal(e.filename);
      forall p | p in Triple(e.filename) ensures SameAt(other, files, p) {
        assert p !in touched;
      }
    }
    assert SameAt(other, files, INDEX_PATH) by {
      IndexIsFinal();
    }
    ReadIndexFrame(files, other, files[INDEX_PATH], 0);
  }

  // ---- the round trip -------------------------------------------------------------------------

  lemma FieldsParse(a: string, b: string, c: string, d: string)
    requires '|' !in a && '|' !in b && '|' !in c
    ensures ParseLine(a + "|" + b + "|" + c + "|" + d)
            == Parsed(PhotoEntry(Strtoll(a), PresetIndex(c), Atoi(d) != 0, Truncated(b, FILENAME_BUFFER)), c)
  {
    var afterSecond := c + ['|'] + d;
    var afterFirst := b + ['|'] + afterSecond;
    assert a + "|" + b + "|" + c + "|" + d == a + ['|'] + afterFirst;
    CutOf(a, '|', afterFirst);
    CutOf(b, '|', afterSecond);
    CutOf(c, '|', d);
  }

  lemma EntryLineParses(e: PhotoEntry)
    requires Carried(e.filename)
    ensures ParseLine(EntryLine(e)) == Parsed(e, PresetId(e.presetIndex))
  {
    DecimalChars(e.timestampMs);
    DecimalAlone(e.timestampMs);
    IdFacts(e.presetIndex);
    LookupInverts(e.presetIndex);
    FlagParses(e.favorite);
    FieldsParse(Decimal(e.timestampMs), e.filename, PresetId(e.presetIndex), if e.favorite then "1" else "0");
  }

  lemma FlagParses(favorite: bool)
    ensures (Atoi(if favorite then "1" else "0") != 0) == favorite
  {
    DecimalAlone(if favorite then 1 else 0);
    assert Decimal(1) == "1" && Decimal(0) == "0";
  }

  /** Every printed line fits the buffer loadIndex reads it into. */
  lemma EntryLineFits(e: PhotoEntry)
    requires Carried(e.filename)
    ensures |EntryLine(e)| + 2 <= LINE_BUFFER
    ensures '\n' !in EntryLine(e) && '\0' !in EntryLine(e)
    ensures EntryLine(e)[|EntryLine(e)| - 1] != '\r'
  {
    DecimalChars(e.timestampMs);
    IdFacts(e.presetIndex);
    assert Power(10, 10) == 10_000_000_000;
    assert Power(10, 19) > INT64_MAX + 1 by {
      assert Power(10, 13) == 1000 * Power(10, 10);
      assert Power(10, 16) == 1000 * Power(10, 13);
      assert Power(10, 19) == 1000 * Power(10, 16);
    }
    DecimalLength(e.timestampMs, 19);
  }

  /** The first line of a printed list is read as the first entry, and what is left is the rest of the list. */
  lemma FirstLineReads(files: Files, e: PhotoEntry, rest: string, held: nat)
    requires held < MAX_ENTRIES && Carried(e.filename) && ValidEntry(files, e)
    ensures var tail := ReadIndex(files, rest, held + 1);
            ReadIndex(files, EntryLine(e) + ['\n'] + rest, held) == Reading([e] + tail.entries, tail.needsRebuild)
  {
    hide ParseLine, LineOf, FgetsLength, EntryLine, ValidEntry, PresetId, ReadIndex;
    ReadStep(files, EntryLine(e) + ['\n'] + rest, held);
    EntryLineParses(e);
    EntryLineFits(e);
    PrintedLine(EntryLine(e), rest, LINE_BUFFER);
  }

  ghost predicate Printable(files: Files, entries: seq<PhotoEntry>) {
    forall e <- entries :: Carried(e.filename) && ValidEntry(files, e)
  }

  lemma FirstIsPrintable(files: Files, entries: seq<PhotoEntry>)
    requires entries != [] && Printable(files, entries)
    ensures Carried(entries[0].filename) && ValidEntry(files, entries[0]) && Printable(files, entries[1..])
  {
    hide Carried, ValidEntry;
    assert entries[0] in entries;
  }

  lemma NoLinesRead(files: Files, held: nat)
    requires held <= MAX_ENTRIES
    ensures IndexText([]) == "" && ReadIndex(files, "", held) == Reading([], false)
  {}

  lemma {:induction false} PrintedReads(files: Files, entries: seq<PhotoEntry>, held: nat)
    requires held + |entries| <= MAX_ENTRIES && Printable(files, entries)
    ensures ReadIndex(files, IndexText(entries), held) == Reading(entries, false)
    decreases |entries|
  {
    hide *;
    if entries == [] {
      NoLinesRead(files, held);
    } else {
      var e, rest := entries[0], entries[1..];
      FirstIsPrintable(files, entries);
      PrintedReads(files, rest, held + 1);
      FirstLineReads(files, e, IndexText(rest), held);
      FirstLine(entries);
      assert entries == [e] + rest;
    }
  }

  /** loadIndex of what saveIndex printed is the same list, with no rebuild. */
  lemma IndexRoundTrip(files: Files, entries: seq<PhotoEntry>, held: nat)
    requires held + |entries| <= MAX_ENTRIES
    requires forall e <- entries :: Carried(e.filename) && ValidEntry(files, e)
    ensures ReadIndex(files, IndexText(entries), held) == Reading(entries, false)
  {
    hide Carried, ValidEntry, ReadIndex, IndexText;
    PrintedReads(files, entries, held);
  }

  lemma FirstLine(entries: seq<PhotoEntry>)
    requires entries != []
    ensures IndexText(entries) == EntryLine(entries[0]) + ['\n'] + IndexText(entries[1..])
  {
    hide EntryLine;
  }

  /** The round trip gives back exactly the lists whose filenames the format can carry. */
  lemma IndexRoundTripExactly(files: Files, entries: seq<PhotoEntry>)
    requires |entries| <= MAX_ENTRIES && forall e <- entries :: ValidEntry(files, e)
    ensures ReadIndex(files, IndexText(entries), 0) == Reading(entries, false)
            <==> forall e <- entries :: Carried(e.filename)
  {
    if forall e <- entries :: Carried(e.filename) {
      IndexRoundTrip(files, entries, 0);
    } else {
      ReadEntriesAreGood(files, IndexText(entries), 0);
    }
  }
}
