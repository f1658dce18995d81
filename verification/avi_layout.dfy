/** The AVI file AviWriter is meant to produce, as a tree of RIFF chunks, and where its parts lie
    (Microsoft AVI RIFF File Reference, AVI Index Entries). */
module AviLayout {
  import opened Riff

  datatype Format = Format(width: nat, height: nat, fps: nat)

  const AVI_FORM: FourCC := Id("AVI ")
  const MOVI_FORM: FourCC := Id("movi")
  const FRAME_ID: FourCC := Id("00dc")

  function Words(values: seq<nat>): (r: seq<byte>)
    ensures |r| == 4 * |values|
  {
    if values == [] then [] else Words(values[..|values| - 1]) + Le32(values[|values| - 1])
  }

  function ImageBytes(f: Format): nat {
    f.width * f.height * 3
  }

  function AvihStart(f: Format): (r: seq<byte>)
    requires f.fps > 0
    ensures |r| == 16
  {
    Words([1000000 / f.fps, 0, 0, 0x10])
  }

  function AvihEnd(f: Format): (r: seq<byte>)
    ensures |r| == 36
  {
    Words([0, 1, ImageBytes(f), f.width, f.height, 0, 0, 0, 0])
  }

  function StrhStart(f: Format): (r: seq<byte>)
    ensures |r| == 32
  {
    Id("vids") + Id("MJPG") + Words([0, 0, 0, 1, f.fps, 0])
  }

  function StrhEnd(f: Format): (r: seq<byte>)
    ensures |r| == 20
  {
    Words([ImageBytes(f), 0xffff_ffff, 0, 0]) + Le16(f.width) + Le16(f.height)
  }

  function StrfData(f: Format): (r: seq<byte>)
    ensures |r| == 40
  {
    Words([40, f.width, f.height]) + Le16(1) + Le16(24) + Id("MJPG") + Words([ImageBytes(f), 0, 0, 0, 0])
  }

  // ---- the tree --------------------------------------------------------------------------------

  function HeaderList(f: Format, count: nat): Chunk
    requires f.fps > 0
  {
    Group(LIST, Id("hdrl"), [
      Leaf(Id("avih"), AvihStart(f) + Le32(count) + AvihEnd(f)),
      Group(LIST, Id("strl"), [
        Leaf(Id("strh"), StrhStart(f) + Le32(count) + StrhEnd(f)),
        Leaf(Id("strf"), StrfData(f))])])
  }

  function FrameChunks(frames: seq<seq<byte>>): (r: seq<Chunk>)
    ensures |r| == |frames| && forall i | 0 <= i < |r| :: r[i] == Leaf(FRAME_ID, frames[i])
  {
    seq(|frames|, i requires 0 <= i < |frames| => Leaf(FRAME_ID, frames[i]))
  }

  /** Where frame i's chunk starts, counted from the 'movi' FourCC. */
  function ChunkOffset(frames: seq<seq<byte>>, i: nat): nat
    requires i <= |frames|
  {
    4 + |EncodedAll(FrameChunks(frames[..i]))|
  }

  function IndexEntry(frames: seq<seq<byte>>, i: nat): (r: seq<byte>)
    requires i < |frames|
    ensures |r| == 16
  {
    FRAME_ID + Le32(0x10) + Le32(ChunkOffset(frames, i)) + Le32(|frames[i]|)
  }

  function IndexEntries(frames: seq<seq<byte>>, n: nat): (r: seq<byte>)
    requires n <= |frames|
    ensures |r| == 16 * n
  {
    if n == 0 then [] else IndexEntries(frames, n - 1) + IndexEntry(frames, n - 1)
  }

  function AviTree(f: Format, frames: seq<seq<byte>>): Chunk
    requires f.fps > 0
  {
    Group(RIFF, AVI_FORM, [
      HeaderList(f, |frames|),
      Group(LIST, MOVI_FORM, FrameChunks(frames)),
      Leaf(Id("idx1"), IndexEntries(frames, |frames|))])
  }

  // ---- where the patched fields lie ---------------------------------------------------------------

  const AVIH_FRAMES: nat := 48
  const STRH_FRAMES: nat := 140
  const MOVI_SIZE: nat := 216
  const MOVI_START: nat := 220

  function HeaderA(f: Format): (r: seq<byte>)
    requires f.fps > 0
    ensures |r| == 36
  {
    LIST + Le32(192) + Id("hdrl") + Id("avih") + Le32(56) + AvihStart(f)
  }

  function HeaderB(f: Format): (r: seq<byte>)
    ensures |r| == 88
  {
    AvihEnd(f) + LIST + Le32(116) + Id("strl") + Id("strh") + Le32(56) + StrhStart(f)
  }

  function HeaderC(f: Format): (r: seq<byte>)
    ensures |r| == 68
  {
    StrhEnd(f) + Id("strf") + Le32(40) + StrfData(f)
  }

  /** The bytes up to and including the 'movi' FourCC, with the four back-patched values as parameters. */
  function Start(f: Format, riffSize: nat, avihFrames: nat, strhFrames: nat, moviSize: nat): (r: seq<byte>)
    requires f.fps > 0
    ensures |r| == MOVI_START + 4
  {
    RIFF + Le32(riffSize) + AVI_FORM + HeaderA(f) + Le32(avihFrames) + HeaderB(f) + Le32(strhFrames) + HeaderC(f) +
    LIST + Le32(moviSize) + MOVI_FORM
  }

  lemma EncodedOne(c: Chunk)
    ensures EncodedAll([c]) == Encoded(c)
  {
    assert [c][1..] == [];
  }

  lemma EncodedTwo(c: Chunk, d: Chunk)
    ensures EncodedAll([c, d]) == Encoded(c) + Encoded(d)
  {
    EncodedOne(d);
    assert [c, d][1..] == [d];
  }

  lemma StreamListLayout(f: Format, count: nat)
    ensures var strl := Group(LIST, Id("strl"),
                              [Leaf(Id("strh"), StrhStart(f) + Le32(count) + StrhEnd(f)),
                               Leaf(Id("strf"), StrfData(f))]);
            Encoded(strl) == LIST + Le32(116) + Id("strl") + Id("strh") + Le32(56) + StrhStart(f) + Le32(count)
                + HeaderC(f)
  {
    hide StrhStart, StrhEnd, StrfData, Le32, Id;
    var strh, strf := Leaf(Id("strh"), StrhStart(f) + Le32(count) + StrhEnd(f)), Leaf(Id("strf"), StrfData(f));
    EncodedTwo(strh, strf);
    assert Encoded(strh) == Id("strh") + Le32(56) + StrhStart(f) + Le32(count) + StrhEnd(f);
    assert Encoded(strf) == Id("strf") + Le32(40) + StrfData(f);
  }

  lemma HeaderLayout(f: Format, count: nat)
    requires f.fps > 0
    ensures Encoded(HeaderList(f, count)) == HeaderA(f) + Le32(count) + HeaderB(f) + Le32(count) + HeaderC(f)
  {
    hide StrhStart, HeaderC, AvihStart, AvihEnd, Le32, Id, Encoded;
    var strl := Group(LIST, Id("strl"),
                      [Leaf(Id("strh"), StrhStart(f) + Le32(count) + StrhEnd(f)), Leaf(Id("strf"), StrfData(f))]);
    var avih := Leaf(Id("avih"), AvihStart(f) + Le32(count) + AvihEnd(f));
    StreamListLayout(f, count);
    AvihLayout(f, count);
    TwoInList(Id("hdrl"), avih, strl);
  }

  lemma TwoInList(form: FourCC, c: Chunk, d: Chunk)
    ensures Encoded(Group(LIST, form, [c, d]))
            == LIST + Le32(4 + |Encoded(c)| + |Encoded(d)|) + form + (Encoded(c) + Encoded(d))
  {
    EncodedTwo(c, d);
    hide EncodedAll, Le32;
  }

  lemma AvihLayout(f: Format, count: nat)
    requires f.fps > 0
    ensures Encoded(Leaf(Id("avih"), AvihStart(f) + Le32(count) + AvihEnd(f)))
            == Id("avih") + Le32(56) + AvihStart(f) + Le32(count) + AvihEnd(f)
  {
    hide AvihStart, AvihEnd, Le32, Id;
  }

  function MoviBytes(frames: seq<seq<byte>>): (r: seq<byte>)
  {
    EncodedAll(FrameChunks(frames))
  }

  function IndexChunk(frames: seq<seq<byte>>): (r: seq<byte>)
    ensures |r| == 8 + 16 * |frames|
  {
    Id("idx1") + Le32(16 * |frames|) + IndexEntries(frames, |frames|)
  }

  function FileSize(frames: seq<seq<byte>>): nat {
    MOVI_START + 4 + |MoviBytes(frames)| + 8 + 16 * |frames|
  }

  /** The whole file: the start with every size and count exact, the frames, the index. */
  lemma TreeLayout(f: Format, frames: seq<seq<byte>>)
    requires f.fps > 0
    ensures Encoded(AviTree(f, frames)) ==
              Start(f, FileSize(frames) - 8, |frames|, |frames|, 4 + |MoviBytes(frames)|) + MoviBytes(frames)
                  + IndexChunk(frames)
  {
    hide HeaderA, HeaderB, HeaderC, IndexEntries, Le32, HeaderList, Id, EncodedAll;
    var n := |frames|;
    var header, movi, index := HeaderList(f, n), Group(LIST, MOVI_FORM, FrameChunks(frames)),
        Leaf(Id("idx1"), IndexEntries(frames, n));
    HeaderLayout(f, n);
    EncodedThree(header, movi, index);
    assert Encoded(index) == IndexChunk(frames);
    Assembled(RIFF + Le32(FileSize(frames) - 8) + AVI_FORM, HeaderA(f), Le32(n), HeaderB(f), HeaderC(f),
              LIST, Le32(4 + |MoviBytes(frames)|), MOVI_FORM, MoviBytes(frames), IndexChunk(frames));
  }

  lemma EncodedThree(c: Chunk, d: Chunk, e: Chunk)
    ensures EncodedAll([c, d, e]) == Encoded(c) + Encoded(d) + Encoded(e)
  {
    EncodedTwo(d, e);
    assert [c, d, e][1..] == [d, e];
  }

  lemma Assembled(riff: seq<byte>, a: seq<byte>, count: seq<byte>, b: seq<byte>, c: seq<byte>, list: seq<byte>,
          size: seq<byte>, form: seq<byte>, movi: seq<byte>, index: seq<byte>)
    ensures riff + ((a + count + b + count + c) + (list + size + form + movi) + index)
            == (riff + a + count + b + count + c + list + size + form) + movi + index
  {}

  // ---- patching ------------------------------------------------------------------------------------

  /** Four bytes of a file replaced. */
  function Patched(file: seq<byte>, offset: nat, value: nat): (r: seq<byte>)
    requires offset + 4 <= |file|
    ensures |r| == |file|
  {
    file[..offset] + Le32(value) + file[offset + 4..]
  }

  lemma PatchPart(before: seq<byte>, present: nat, after: seq<byte>, value: nat)
    ensures Patched(before + Le32(present) + after, |before|, value) == before + Le32(value) + after
  {
    hide Le32;
    var file := before + Le32(present) + after;
    assert file[..|before|] == before && file[|before| + 4..] == after;
  }

  lemma PatchRiffSize(f: Format, riffSize: nat, avihFrames: nat, strhFrames: nat, moviSize: nat, rest: seq<byte>,
          value: nat)
    requires f.fps > 0
    ensures Patched(Start(f, riffSize, avihFrames, strhFrames, moviSize) + rest, 4, value)
            == Start(f, value, avihFrames, strhFrames, moviSize) + rest
  {
    hide HeaderA, HeaderB, HeaderC, Le32, Patched;
    var after := AVI_FORM + HeaderA(f) + Le32(avihFrames) + HeaderB(f) + Le32(strhFrames) + HeaderC(f) +
      LIST + Le32(moviSize) + MOVI_FORM + rest;
    PatchPart(RIFF, riffSize, after, value);
    assert Start(f, riffSize, avihFrames, strhFrames, moviSize) + rest == RIFF + Le32(riffSize) + after;
    assert Start(f, value, avihFrames, strhFrames, moviSize) + rest == RIFF + Le32(value) + after;
  }

  lemma PatchAvihFrames(f: Format, riffSize: nat, avihFrames: nat, strhFrames: nat, moviSize: nat, rest: seq<byte>,
          value: nat)
    requires f.fps > 0
    ensures Patched(Start(f, riffSize, avihFrames, strhFrames, moviSize) + rest, AVIH_FRAMES, value)
            == Start(f, riffSize, value, strhFrames, moviSize) + rest
  {
    hide HeaderA, HeaderB, HeaderC, Le32, Patched;
    var before := RIFF + Le32(riffSize) + AVI_FORM + HeaderA(f);
    var after := HeaderB(f) + Le32(strhFrames) + HeaderC(f) + LIST + Le32(moviSize) + MOVI_FORM + rest;
    PatchPart(before, avihFrames, after, value);
    assert Start(f, riffSize, avihFrames, strhFrames, moviSize) + rest == before + Le32(avihFrames) + after;
    assert Start(f, riffSize, value, strhFrames, moviSize) + rest == before + Le32(value) + after;
  }

  lemma PatchStrhFrames(f: Format, riffSize: nat, avihFrames: nat, strhFrames: nat, moviSize: nat, rest: seq<byte>,
          value: nat)
    requires f.fps > 0
    ensures Patched(Start(f, riffSize, avihFrames, strhFrames, moviSize) + rest, STRH_FRAMES, value)
            == Start(f, riffSize, avihFrames, value, moviSize) + rest
  {
    hide HeaderA, HeaderB, HeaderC, Le32, Patched;
    var before := RIFF + Le32(riffSize) + AVI_FORM + HeaderA(f) + Le32(avihFrames) + HeaderB(f);
    var after := HeaderC(f) + LIST + Le32(moviSize) + MOVI_FORM + rest;
    PatchPart(before, strhFrames, after, value);
    assert Start(f, riffSize, avihFrames, strhFrames, moviSize) + rest == before + Le32(strhFrames) + after;
    assert Start(f, riffSize, avihFrames, value, moviSize) + rest == before + Le32(value) + after;
  }

  lemma PatchMoviSize(f: Format, riffSize: nat, avihFrames: nat, strhFrames: nat, moviSize: nat, rest: seq<byte>,
          value: nat)
    requires f.fps > 0
    ensures Patched(Start(f, riffSize, avihFrames, strhFrames, moviSize) + rest, MOVI_SIZE, value)
            == Start(f, riffSize, avihFrames, strhFrames, value) + rest
  {
    hide HeaderA, HeaderB, HeaderC, Le32, Patched;
    var before := RIFF + Le32(riffSize) + AVI_FORM + HeaderA(f) + Le32(avihFrames) + HeaderB(f) + Le32(strhFrames) +
      HeaderC(f) + LIST;
    var after := MOVI_FORM + rest;
    PatchPart(before, moviSize, after, value);
    assert Start(f, riffSize, avihFrames, strhFrames, moviSize) + rest == before + Le32(moviSize) + after;
    assert Start(f, riffSize, avihFrames, strhFrames, value) + rest == before + Le32(value) + after;
  }

  // ---- what a reader gets back ------------------------------------------------------------------------

  /** The frames a reader takes from a parsed AVI file: the data of every chunk of its second list. */
  function FramesOf(p: Parse): seq<seq<byte>> {
    if p.Chunks? && |p.chunks| == 1 && p.chunks[0].Group? && |p.chunks[0].children| == 3
        && p.chunks[0].children[1].Group?
    then Bodies(p.chunks[0].children[1].children)
    else []
  }

  function Bodies(cs: seq<Chunk>): seq<seq<byte>> {
    seq(|cs|, i requires 0 <= i < |cs| => if cs[i].Leaf? then cs[i].data else [])
  }

  lemma TreeIsProper(f: Format, frames: seq<seq<byte>>)
    requires f.fps > 0
    ensures Proper(AviTree(f, frames))
  {
    hide AvihStart, AvihEnd, StrhStart, StrhEnd, StrfData, IndexEntries, Le32;
    var strh, strf := Leaf(Id("strh"), StrhStart(f) + Le32(|frames|) + StrhEnd(f)), Leaf(Id("strf"), StrfData(f));
    var avih, strl := Leaf(Id("avih"), AvihStart(f) + Le32(|frames|) + AvihEnd(f)),
        Group(LIST, Id("strl"), [strh, strf]);
    var movi, index := Group(LIST, MOVI_FORM, FrameChunks(frames)), Leaf(Id("idx1"), IndexEntries(frames, |frames|));
    assert Proper(strh) && Proper(strf) && Proper(avih) && Proper(index);
    assert Proper(strl);
    assert Proper(HeaderList(f, |frames|));
    assert forall i | 0 <= i < |frames| :: Proper(FrameChunks(frames)[i]);
    assert Proper(movi);
  }

  /** A RIFF parser recovers the whole tree and, from it, exactly the frames in their order. */
  lemma AviRoundTrip(f: Format, frames: seq<seq<byte>>)
    requires f.fps > 0 && |Encoded(AviTree(f, frames))| < 0x1_0000_0000
    ensures Parsed(Encoded(AviTree(f, frames))) == Chunks([AviTree(f, frames)])
    ensures FramesOf(Parsed(Encoded(AviTree(f, frames)))) == frames
  {
    hide Parsed, Proper, HeaderList, IndexEntries, Encoded;
    var tree := AviTree(f, frames);
    TreeIsProper(f, frames);
    EncodedOne(tree);
    RiffRoundTrip([tree]);
    assert Bodies(FrameChunks(frames)) == frames;
  }

  // ---- what the headers say --------------------------------------------------------------------------

  /** A 32-bit field of a header, as a reader takes it. */
  function Field(data: seq<byte>, at: nat): nat
    requires at + 4 <= |data|
  {
    Word(data[at..at + 4])
  }

  lemma {:induction false} WordsAt(values: seq<nat>, before: seq<byte>, after: seq<byte>, i: nat)
    requires i < |values| && values[i] < 0x1_0000_0000
    ensures Field(before + Words(values) + after, |before| + 4 * i) == values[i]
    decreases |values|
  {
    hide Le32, Word;
    var n := |values| - 1;
    var all, at := before + Words(values) + after, |before| + 4 * i;
    if i == n {
      assert all[at..at + 4] == Le32(values[n]);
      WordRoundTrip(values[n]);
    } else {
      WordsAt(values[..n], before, Le32(values[n]) + after, i);
      assert before + Words(values[..n]) + (Le32(values[n]) + after) == all;
    }
  }

  lemma WordAt(v: nat, before: seq<byte>, after: seq<byte>)
    requires v < 0x1_0000_0000
    ensures Field(before + Le32(v) + after, |before|) == v
  {
    hide Le32, Word;
    assert (before + Le32(v) + after)[|before|..|before| + 4] == Le32(v);
    WordRoundTrip(v);
  }

  ghost predicate Fits(f: Format, count: nat) {
    0 < f.fps < 0x1_0000_0000 && f.width < 0x1_0000_0000 && f.height < 0x1_0000_0000 && count < 0x1_0000_0000
  }

  /** AVIMAINHEADER: microseconds a frame, frames, streams, size. */
  lemma MainHeaderSays(f: Format, count: nat)
    requires Fits(f, count)
    ensures var data := HeaderList(f, count).children[0].data;
            && |data| == 56 && Field(data, 0) == 1000000 / f.fps && Field(data, 16) == count
            && Field(data, 24) == 1 && Field(data, 32) == f.width && Field(data, 36) == f.height
  {
    hide Words, Le32, Word, Field;
    var before, after := [1000000 / f.fps, 0, 0, 0x10], [0, 1, ImageBytes(f), f.width, f.height, 0, 0, 0, 0];
    var data := Words(before) + Le32(count) + Words(after);
    assert data == [] + Words(before) + (Le32(count) + Words(after));
    WordsAt(before, [], Le32(count) + Words(after), 0);
    WordAt(count, Words(before), Words(after));
    assert data == (Words(before) + Le32(count)) + Words(after) + [];
    WordsAt(after, Words(before) + Le32(count), [], 1);
    WordsAt(after, Words(before) + Le32(count), [], 3);
    WordsAt(after, Words(before) + Le32(count), [], 4);
  }

  /** AVISTREAMHEADER: a video stream of JPEG frames, fps frames in one second, so many of them. */
  lemma StreamHeaderSays(f: Format, count: nat)
    requires Fits(f, count)
    ensures var data := HeaderList(f, count).children[1].children[0].data;
            && |data| == 56 && data[..4] == Id("vids") && data[4..8] == Id("MJPG")
            && Field(data, 20) == 1 && Field(data, 24) == f.fps && Field(data, 32) == count
  {
    hide Words, Le32, Word, Field, Id;
    var kind, words := Id("vids") + Id("MJPG"), [0, 0, 0, 1, f.fps, 0];
    var data := kind + Words(words) + Le32(count) + StrhEnd(f);
    assert data == kind + Words(words) + (Le32(count) + StrhEnd(f));
    WordsAt(words, kind, Le32(count) + StrhEnd(f), 3);
    WordsAt(words, kind, Le32(count) + StrhEnd(f), 4);
    WordAt(count, kind + Words(words), StrhEnd(f));
    assert data[..4] == Id("vids") && data[4..8] == Id("MJPG");
  }

  /** BITMAPINFOHEADER: size and compression of a frame. */
  lemma StreamFormatSays(f: Format, count: nat)
    requires Fits(f, count)
    ensures var data := HeaderList(f, count).children[1].children[1].data;
            && |data| == 40 && Field(data, 0) == 40 && Field(data, 4) == f.width && Field(data, 8) == f.height
            && data[14..16] == Le16(24) && data[16..20] == Id("MJPG")
  {
    hide Words, Le32, Word, Field, Id, Le16;
    var words := [40, f.width, f.height];
    var rest := Le16(1) + Le16(24) + Id("MJPG") + Words([ImageBytes(f), 0, 0, 0, 0]);
    var data := StrfData(f);
    assert data == [] + Words(words) + rest;
    WordsAt(words, [], rest, 0);
    WordsAt(words, [], rest, 1);
    WordsAt(words, [], rest, 2);
    assert data[14..16] == Le16(24) && data[16..20] == Id("MJPG");
  }

  lemma {:induction false} EntryInIndex(frames: seq<seq<byte>>, n: nat, i: nat)
    requires i < n <= |frames|
    ensures IndexEntries(frames, n)[16 * i..16 * i + 16] == IndexEntry(frames, i)
  {
    hide IndexEntry;
    if i < n - 1 {
      EntryInIndex(frames, n - 1, i);
      assert IndexEntries(frames, n)[16 * i..16 * i + 16] == IndexEntries(frames, n - 1)[16 * i..16 * i + 16];
    }
  }

  lemma FrameInMovi(frames: seq<seq<byte>>, i: nat)
    requires i < |frames|
    ensures var at, c := ChunkOffset(frames, i) - 4, Encoded(Leaf(FRAME_ID, frames[i]));
            at + |c| <= |MoviBytes(frames)| && MoviBytes(frames)[at..at + |c|] == c
  {
    hide Encoded;
    var before, after := FrameChunks(frames[..i]), FrameChunks(frames[i + 1..]);
    var c := Leaf(FRAME_ID, frames[i]);
    assert FrameChunks(frames) == before + ([c] + after);
    EncodedAllJoins(before, [c] + after);
    EncodedAllJoins([c], after);
    EncodedOne(c);
    assert MoviBytes(frames) == EncodedAll(before) + Encoded(c) + EncodedAll(after);
  }

  lemma SliceWithin(before: seq<byte>, part: seq<byte>, after: seq<byte>, from: nat, to: nat)
    requires from <= to <= |part|
    ensures (before + part + after)[|before| + from..|before| + to] == part[from..to]
  {}

  /** The index entry of frame i, as it stands in the file. */
  lemma IndexEntryInFile(f: Format, frames: seq<seq<byte>>, i: nat)
    requires f.fps > 0 && i < |frames|
    ensures var file, index := Encoded(AviTree(f, frames)), MOVI_START + 4 + |MoviBytes(frames)|;
            && |file| == FileSize(frames)
            && file[MOVI_START..MOVI_START + 4] == MOVI_FORM
            && file[index..index + 4] == Id("idx1")
            && file[index + 8 + 16 * i..index + 24 + 16 * i] == IndexEntry(frames, i)
  {
    hide IndexEntries, Start, Encoded, EncodedAll, Le32, Id, IndexEntry, AviTree;
    var movi, entries := MoviBytes(frames), IndexEntries(frames, |frames|);
    var start := Start(f, FileSize(frames) - 8, |frames|, |frames|, 4 + |movi|);
    TreeLayout(f, frames);
    StartEnds(f, FileSize(frames) - 8, |frames|, |frames|, 4 + |movi|);
    SliceWithin([], start, movi + IndexChunk(frames), MOVI_START, MOVI_START + 4);
    assert [] + start + (movi + IndexChunk(frames)) == start + movi + IndexChunk(frames);
    var before := start + movi + Id("idx1") + Le32(16 * |frames|);
    assert before + entries + [] == start + movi + IndexChunk(frames);
    SliceWithin(before, entries, [], 16 * i, 16 * i + 16);
    EntryInIndex(frames, |frames|, i);
  }

  /** Frame i's chunk, as it stands in the file. */
  lemma FrameInFile(f: Format, frames: seq<seq<byte>>, i: nat)
    requires f.fps > 0 && i < |frames|
    ensures var file, at := Encoded(AviTree(f, frames)), MOVI_START + ChunkOffset(frames, i);
            var c := Encoded(Leaf(FRAME_ID, frames[i]));
            at + |c| <= |file| && file[at..at + |c|] == c
  {
    hide IndexEntries, Start, Encoded, EncodedAll, Le32, AviTree;
    var movi := MoviBytes(frames);
    var start := Start(f, FileSize(frames) - 8, |frames|, |frames|, 4 + |movi|);
    TreeLayout(f, frames);
    FrameInMovi(frames, i);
    var at, c := ChunkOffset(frames, i) - 4, Encoded(Leaf(FRAME_ID, frames[i]));
    SliceWithin(start, movi, IndexChunk(frames), at, at + |c|);
  }

  /** Entry i of the index carries frame i's size, and its offset leads from the 'movi' FourCC to frame i's chunk. */
  lemma IndexPointsAtFrames(f: Format, frames: seq<seq<byte>>, i: nat)
    requires f.fps > 0 && i < |frames| && FileSize(frames) < 0x1_0000_0000
    ensures var file, index := Encoded(AviTree(f, frames)), MOVI_START + 4 + |MoviBytes(frames)|;
            && |file| == FileSize(frames)
            && file[MOVI_START..MOVI_START + 4] == MOVI_FORM
            && file[index..index + 4] == Id("idx1")
            && var entry := file[index + 8 + 16 * i..index + 24 + 16 * i];
            var at, size := MOVI_START + Word(entry[8..12]), Word(entry[12..16]);
            && entry[..4] == FRAME_ID && size == |frames[i]|
            && at + 8 + size <= |file| && file[at..at + 4] == FRAME_ID && Word(file[at + 4..at + 8]) == size
            && file[at + 8..at + 8 + size] == frames[i]
  {
    hide IndexEntries, Encoded, EncodedAll, Word, Le32, Id, AviTree, IndexEntry, ChunkOffset;
    var file := Encoded(AviTree(f, frames));
    var c := Encoded(Leaf(FRAME_ID, frames[i]));
    IndexEntryInFile(f, frames, i);
    FrameInFile(f, frames, i);
    FrameSize(frames[i]);
    FrameHeader(frames[i]);
    EntryFields(frames, i);
    var at := MOVI_START + ChunkOffset(frames, i);
    SubSlice(file, at, c, 0, 4);
    SubSlice(file, at, c, 4, 8);
    SubSlice(file, at, c, 8, 8 + |frames[i]|);
  }

  lemma SubSlice(file: seq<byte>, at: nat, part: seq<byte>, from: nat, to: nat)
    requires at + |part| <= |file| && file[at..at + |part|] == part && from <= to <= |part|
    ensures file[at + from..at + to] == part[from..to]
  {
    forall k | 0 <= k < to - from ensures file[at + from..at + to][k] == part[from..to][k] {
      assert file[at..at + |part|][from + k] == part[from + k];
    }
  }

  lemma FrameSize(frame: seq<byte>)
    ensures |Encoded(Leaf(FRAME_ID, frame))| >= 8 + |frame|
  {}

  lemma StartEnds(f: Format, riffSize: nat, avihFrames: nat, strhFrames: nat, moviSize: nat)
    requires f.fps > 0
    ensures Start(f, riffSize, avihFrames, strhFrames, moviSize)[MOVI_START..] == MOVI_FORM
  {
    hide HeaderA, HeaderB, HeaderC, Le32;
  }

  lemma FrameHeader(frame: seq<byte>)
    requires |frame| < 0x1_0000_0000
    ensures var c := Encoded(Leaf(FRAME_ID, frame));
            && |c| >= 8 + |frame| && c[..4] == FRAME_ID && Word(c[4..8]) == |frame| && c[8..8 + |frame|] == frame
  {
    hide Word;
    LeafHeader(FRAME_ID, frame, []);
    assert Encoded(Leaf(FRAME_ID, frame)) + [] == Encoded(Leaf(FRAME_ID, frame));
  }

  lemma EntryFields(frames: seq<seq<byte>>, i: nat)
    requires i < |frames| && ChunkOffset(frames, i) < 0x1_0000_0000 && |frames[i]| < 0x1_0000_0000
    ensures var e := IndexEntry(frames, i);
            e[..4] == FRAME_ID && Word(e[8..12]) == ChunkOffset(frames, i) && Word(e[12..16]) == |frames[i]|
  {
    hide Word, Le32, ChunkOffset;
    var e := IndexEntry(frames, i);
    WordRoundTrip(ChunkOffset(frames, i));
    WordRoundTrip(|frames[i]|);
    assert e[8..12] == Le32(ChunkOffset(frames, i)) && e[12..16] == Le32(|frames[i]|);
  }
}
