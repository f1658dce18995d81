/** AviWriter: a file position, a file and the offsets that finish goes back to. A write may fail; the
    stream then keeps its error flag, as a C stream does, and nothing is promised about the file. */
module AviWriting {
  import opened Riff
  import opened AviLayout

  const MAX_AVI_FRAMES: nat := 9000
  const MAX_FRAME_BYTES: nat := 1024 * 1024

  /** A frame that is not refused after `held` frames. */
  predicate Acceptable(jpeg: seq<byte>, held: nat) {
    jpeg != [] && |jpeg| <= MAX_FRAME_BYTES && held < MAX_AVI_FRAMES
  }

  class AviWriter {
    var file: seq<byte>
    var pos: nat
    var isOpen: bool
    var failed: bool
    var format: Format
    var frameCount: nat
    var riffSizeOffset: nat
    var moviSizeOffset: nat
    var moviDataOffset: nat
    var avihFramesOffset: nat
    var strhFramesOffset: nat
    const frameOffsets: array<nat>
    const frameSizes: array<nat>
    ghost var frames: seq<seq<byte>>
    ghost var faults: nat

    constructor ()
      ensures Valid() && !isOpen && faults == 0 && fresh(frameOffsets) && fresh(frameSizes)
    {
      file, pos, isOpen, failed := [], 0, false, false;
      format := Format(0, 0, 0);
      frameCount, frames, faults := 0, [], 0;
      riffSizeOffset, moviSizeOffset, moviDataOffset, avihFramesOffset, strhFramesOffset := 0, 0, 0, 0, 0;
      frameOffsets, frameSizes := new nat[MAX_AVI_FRAMES], new nat[MAX_AVI_FRAMES];
    }

    /** What recording keeps: the start with nothing patched in but the header sizes, then every frame. */
    ghost predicate Recording()
      reads this, frameOffsets, frameSizes
    {
      && format.fps > 0 && |frames| == frameCount <= frameOffsets.Length
      && riffSizeOffset == 4 && avihFramesOffset == AVIH_FRAMES && strhFramesOffset == STRH_FRAMES
      && moviSizeOffset == MOVI_SIZE && moviDataOffset == MOVI_START
      && file == Start(format, 0, 0, 0, 0) + MoviBytes(frames) && pos == |file|
      && forall i | 0 <= i < frameCount ::
           i < frameSizes.Length && frameOffsets[i] == ChunkOffset(frames, i) && frameSizes[i] == |frames[i]|
    }

    ghost predicate Valid()
      reads this, frameOffsets, frameSizes
    {
      && frameOffsets.Length == MAX_AVI_FRAMES && frameSizes.Length == MAX_AVI_FRAMES && frameOffsets != frameSizes
      && frameCount <= MAX_AVI_FRAMES
      && (isOpen && !failed ==> Recording())
    }

    /** The stream has its error flag exactly when it had it before or an operation has failed since. */
    twostate predicate Tracked()
      reads this
    {
      old(faults) <= faults && (failed <==> old(failed) || old(faults) < faults)
    }

    /** fputc and fwrite at the current position. */
    method Put(bytes: seq<byte>)
      requires failed || pos <= |file|
      modifies this`file, this`pos, this`failed, this`faults
      ensures Tracked()
      ensures !failed ==> pos == old(pos) + |bytes| <= |file|
      ensures !failed && old(pos) == |old(file)| ==> file == old(file) + bytes
      ensures !failed && old(pos) + |bytes| <= |old(file)| ==>
                file == old(file)[..old(pos)] + bytes + old(file)[old(pos) + |bytes|..]
    {
      var fails: bool := *;
      if !failed && fails {
        failed, faults := true, faults + 1;
      }
      if failed {
        return;
      }
      var rest := if pos + |bytes| <= |file| then file[pos + |bytes|..] else [];
      file := file[..pos] + bytes + rest;
      pos := pos + |bytes|;
    }

    /** A run of appended bytes; every piece of the headers and frames is written this way. */
    ghost predicate AtEnd()
      reads this
    {
      failed || pos == |file|
    }

    method WriteU16(v: nat)
      requires AtEnd()
      modifies this`file, this`pos, this`failed, this`faults
      ensures AtEnd() && Tracked() && (!failed ==> file == old(file) + Le16(v))
    {
      Put([v % 256]);
      Put([v / 256 % 256]);
    }

    method WriteU32(v: nat)
      requires failed || pos <= |file|
      modifies this`file, this`pos, this`failed, this`faults
      ensures Tracked()
      ensures !failed ==> pos == old(pos) + 4 <= |file|
      ensures !failed && old(pos) == |old(file)| ==> file == old(file) + Le32(v)
      ensures !failed && old(pos) + 4 <= |old(file)| ==> file == Patched(old(file), old(pos), v)
    {
      Put(Le32(v));
    }

    method WriteFourCC(id: FourCC)
      requires AtEnd()
      modifies this`file, this`pos, this`failed, this`faults
      ensures AtEnd() && Tracked() && (!failed ==> file == old(file) + id)
    {
      Put(id);
    }

    /** patchU32: seek back, overwrite, seek to where it was. */
    method PatchU32(offset: nat, value: nat)
      requires failed || offset + 4 <= |file|
      modifies this`file, this`pos, this`failed, this`faults
      ensures Tracked() && pos == old(pos)
      ensures !failed ==> file == Patched(old(file), offset, value)
    {
      var here := pos;
      pos := offset;
      WriteU32(value);
      pos := here;
    }

    /** Consecutive writeU32 calls. */
    method WriteWords(values: seq<nat>)
      requires AtEnd()
      modifies this`file, this`pos, this`failed, this`faults
      ensures AtEnd() && Tracked() && (!failed ==> file == old(file) + Words(values))
    {
      hide Le32;
      var i := 0;
      while i < |values|
        invariant i <= |values| && AtEnd() && Tracked()
        invariant !failed ==> file == old(file) + Words(values[..i])
      {
        WriteU32(values[i]);
        assert values[..i + 1][..i] == values[..i];
        i := i + 1;
      }
      assert values[..i] == values;
    }

    // ---- open ------------------------------------------------------------------------------------

    method WriteAvih()
      requires AtEnd() && format.fps > 0
      modifies this`file, this`pos, this`failed, this`faults, this`avihFramesOffset
      ensures AtEnd() && Tracked()
      ensures !failed ==> avihFramesOffset == old(pos) + 24
      ensures !failed ==> file == old(file) + AvihChunk(format)
    {
      hide Words, Le32, Id;
      WriteFourCC(Id("avih"));
      WriteU32(56);
      WriteWords([1000000 / format.fps, 0, 0, 0x10]);
      avihFramesOffset := pos;
      WriteU32(0);
      WriteWords([0, 1, ImageBytes(format), format.width, format.height, 0, 0, 0, 0]);
    }

    method WriteStrh()
      requires AtEnd()
      modifies this`file, this`pos, this`failed, this`faults, this`strhFramesOffset
      ensures AtEnd() && Tracked()
      ensures !failed ==> strhFramesOffset == old(pos) + 40
      ensures !failed ==> file == old(file) + StrhChunk(format)
    {
      hide StrhStart, StrhEnd, Le32, Id;
      WriteFourCC(Id("strh"));
      WriteU32(56);
      WriteStrhStart();
      strhFramesOffset := pos;
      WriteU32(0);
      WriteStrhEnd();
    }

    method WriteStrhStart()
      requires AtEnd()
      modifies this`file, this`pos, this`failed, this`faults
      ensures AtEnd() && Tracked() && (!failed ==> file == old(file) + StrhStart(format))
    {
      hide Words, Id;
      WriteFourCC(Id("vids"));
      WriteFourCC(Id("MJPG"));
      WriteWords([0, 0, 0, 1, format.fps, 0]);
    }

    method WriteStrhEnd()
      requires AtEnd()
      modifies this`file, this`pos, this`failed, this`faults
      ensures AtEnd() && Tracked() && (!failed ==> file == old(file) + StrhEnd(format))
    {
      hide Words, Le16;
      WriteWords([ImageBytes(format), 0xffff_ffff, 0, 0]);
      WriteU16(format.width);
      WriteU16(format.height);
    }

    method WriteStrf()
      requires AtEnd()
      modifies this`file, this`pos, this`failed, this`faults
      ensures AtEnd() && Tracked()
      ensures !failed ==> file == old(file) + (Id("strf") + Le32(40) + StrfData(format))
    {
      hide Words, Le32, Le16, Id;
      WriteFourCC(Id("strf"));
      WriteU32(40);
      WriteWords([40, format.width, format.height]);
      WriteU16(1);
      WriteU16(24);
      WriteFourCC(Id("MJPG"));
      WriteWords([ImageBytes(format), 0, 0, 0, 0]);
    }

    method WriteStreams()
      requires AtEnd()
      modifies this`file, this`pos, this`failed, this`faults, this`strhFramesOffset
      ensures AtEnd() && Tracked()
      ensures !failed ==> strhFramesOffset == old(pos) + 44
      ensures !failed ==> file == old(file) + StreamHeaders(format)
    {
      hide Le32, Id, StrhChunk, StrfData;
      WriteFourCC(Id("strl"));
      WriteStrh();
      WriteStrf();
    }

    method WriteUpToHeader()
      requires file == [] && pos == 0
      modifies this`file, this`pos, this`failed, this`faults, this`riffSizeOffset
      ensures AtEnd() && Tracked()
      ensures !failed ==> file == UpToHeader() && riffSizeOffset == 4
    {
      hide Le32;
      WriteFourCC(RIFF);
      riffSizeOffset := pos;
      WriteU32(0);
      WriteFourCC(AVI_FORM);
      WriteFourCC(LIST);
    }

    method WriteUpToStreams()
      requires AtEnd() && format.fps > 0
      modifies this`file, this`pos, this`failed, this`faults, this`avihFramesOffset
      ensures AtEnd() && Tracked()
      ensures !failed ==> file == old(file) + UpToStreams(format) && avihFramesOffset == old(pos) + 28
    {
      hide Id, AvihChunk;
      WriteFourCC(Id("hdrl"));
      WriteAvih();
      WriteFourCC(LIST);
    }

    /** open, from the first FourCC to the last: every offset is recorded on the way, the two header sizes
        are patched in, the other four fields are left zero. */
    method WriteStart()
      requires file == [] && pos == 0 && format.fps > 0
      modifies this`file, this`pos, this`failed, this`faults, this`riffSizeOffset, this`moviSizeOffset,
               this`moviDataOffset, this`avihFramesOffset, this`strhFramesOffset
      ensures Tracked()
      ensures !failed ==>
                && file == Start(format, 0, 0, 0, 0) && pos == |file|
                && riffSizeOffset == 4 && avihFramesOffset == AVIH_FRAMES && strhFramesOffset == STRH_FRAMES
                && moviSizeOffset == MOVI_SIZE && moviDataOffset == MOVI_START
    {
      hide Le32, UpToHeader, UpToStreams, StreamHeaders, Patched, Start;
      WriteUpToHeader();
      var hdrlSize := pos;
      WriteU32(0);
      var hdrlStart := pos;
      WriteUpToStreams();
      var strlSize := pos;
      WriteU32(0);
      var strlStart := pos;
      WriteStreams();
      if !failed {
        PatchU32(strlSize, pos - strlStart);
      }
      if !failed {
        PatchU32(hdrlSize, pos - hdrlStart);
        HeaderSizesPatched(format);
      }
      WriteMoviStart();
    }

    /** The head of the frame list. */
    method WriteMoviStart()
      requires AtEnd()
      modifies this`file, this`pos, this`failed, this`faults, this`moviSizeOffset, this`moviDataOffset
      ensures AtEnd() && Tracked()
      ensures !failed ==> file == old(file) + LIST + Le32(0) + MOVI_FORM
                          && moviSizeOffset == old(pos) + 4 && moviDataOffset == old(pos) + 8
    {
      hide Le32;
      WriteFourCC(LIST);
      moviSizeOffset := pos;
      WriteU32(0);
      moviDataOffset := pos;
      WriteFourCC(MOVI_FORM);
    }

    // ---- the public calls ------------------------------------------------------------------------

    method Abort()
      requires Valid()
      modifies this`isOpen
      ensures Valid() && !isOpen
    {
      isOpen := false;
    }

    method Open(width: int, height: int, fps: int) returns (ok: bool)
      requires Valid()
      modifies this
      ensures Valid() && old(faults) <= faults && (ok ==> isOpen && !failed && frames == [])
      ensures ok <==> width > 0 && height > 0 && fps > 0 && faults == old(faults)
      ensures ok ==> format == Format(width, height, fps)
      ensures width <= 0 || height <= 0 || fps <= 0 ==> !ok && !isOpen
    {
      hide Start;
      Abort();
      if width <= 0 || height <= 0 || fps <= 0 {
        return false;
      }
      var created: bool := *;
      if !created {
        faults := faults + 1;
        return false;
      }
      isOpen, failed, file, pos := true, false, [], 0;
      format := Format(width, height, fps);
      frameCount, frames := 0, [];
      WriteStart();
      assert MoviBytes([]) == [];
      ok := !failed;
    }

    /** addFrame: a chunk of its own for every accepted frame, padded to an even length. */
    method AddFrame(jpeg: seq<byte>) returns (ok: bool)
      requires Valid()
      modifies this`file, this`pos, this`failed, this`faults, this`frameCount, this`frames, frameOffsets, frameSizes
      ensures Valid() && Tracked()
      ensures !old(isOpen) || jpeg == [] || old(frameCount) >= MAX_AVI_FRAMES || |jpeg| > MAX_FRAME_BYTES ==>
                !ok && file == old(file) && frames == old(frames) && failed == old(failed)
      ensures ok ==> !failed && frames == old(frames) + [jpeg]
      ensures !ok && !failed ==> frames == old(frames)
      ensures ok <==> old(isOpen) && !failed && Acceptable(jpeg, |old(frames)|)
    {
      hide Start, MoviBytes, FrameBytes, ChunkOffset;
      if !isOpen || jpeg == [] || frameCount >= MAX_AVI_FRAMES || |jpeg| > MAX_FRAME_BYTES {
        return false;
      }
      var chunk := pos;
      var written := WriteFrame(jpeg);
      if !written {
        return false;
      }
      ghost var before := frames;
      frameOffsets[frameCount] := if chunk >= moviDataOffset then chunk - moviDataOffset else 0;
      frameSizes[frameCount] := |jpeg|;
      frameCount := frameCount + 1;
      frames := frames + [jpeg];
      FrameAppended(before, jpeg);
      ok := !failed;
    }

    /** finish: the movi size, the index, then the other three back-patches. A successful recording is exactly
        the tree. */
    method Finish() returns (ok: bool)
      requires Valid()
      modifies this`file, this`pos, this`failed, this`faults, this`isOpen
      ensures Valid() && !isOpen && old(faults) <= faults
      ensures ok <==> old(isOpen) && !old(failed) && faults == old(faults)
      ensures ok ==> format.fps > 0 && file == Encoded(AviTree(format, frames))
    {
      hide Start, MoviBytes, Patched, IndexChunk, ChunkOffset, AviTree;
      if !isOpen {
        return false;
      }
      ghost var moviSize := 4 + |MoviBytes(frames)|;
      WriteTables();
      PatchTotals(moviSize, MoviBytes(frames) + IndexChunk(frames));
      if !failed {
        TreeLayout(format, frames);
      }
      var flushed: bool := *;
      ok := !failed && flushed;
      if !flushed {
        faults := faults + 1;
      }
      isOpen := false;
    }

    /** The size of the frame list, then the index. */
    method WriteTables()
      requires Valid() && isOpen
      modifies this`file, this`pos, this`failed, this`faults
      ensures Tracked()
      ensures !failed ==> format.fps > 0 && pos == |file|
                          && file == Start(format, 0, 0, 0, 4 + |MoviBytes(frames)|)
                                     + (MoviBytes(frames) + IndexChunk(frames))
    {
      hide Start, MoviBytes, Patched, IndexChunk, ChunkOffset;
      if !failed {
        var moviEnd := pos;
        PatchU32(moviSizeOffset, moviEnd - moviDataOffset);
        PatchMoviSize(format, 0, 0, 0, 0, MoviBytes(frames), 4 + |MoviBytes(frames)|);
      }
      if !failed {
        WriteIndex(4 + |MoviBytes(frames)|);
      }
    }

    /** The frame count in both headers and the size of the whole file. */
    method PatchTotals(ghost moviSize: nat, ghost rest: seq<byte>)
      requires !failed ==>
                 && format.fps > 0 && file == Start(format, 0, 0, 0, moviSize) + rest && pos == |file|
                 && avihFramesOffset == AVIH_FRAMES && strhFramesOffset == STRH_FRAMES && riffSizeOffset == 4
      modifies this`file, this`pos, this`failed, this`faults
      ensures Tracked()
      ensures !failed ==> |old(file)| >= 8 && format.fps > 0
                          && file == Start(format, |old(file)| - 8, frameCount, frameCount, moviSize) + rest
    {
      hide Start, Patched;
      if !failed {
        PatchU32(avihFramesOffset, frameCount);
        PatchAvihFrames(format, 0, 0, 0, moviSize, rest, frameCount);
      }
      if !failed {
        PatchU32(strhFramesOffset, frameCount);
        PatchStrhFrames(format, 0, frameCount, 0, moviSize, rest, frameCount);
      }
      if !failed {
        PatchU32(riffSizeOffset, pos - 8);
        PatchRiffSize(format, 0, frameCount, frameCount, moviSize, rest, |old(file)| - 8);
      }
    }

    /** The idx1 chunk. */
    method WriteIndex(ghost moviSize: nat)
      requires !failed && pos == |file| && format.fps > 0 && |frames| == frameCount <= MAX_AVI_FRAMES
      requires frameOffsets.Length == MAX_AVI_FRAMES && frameSizes.Length == MAX_AVI_FRAMES
      requires file == Start(format, 0, 0, 0, moviSize) + MoviBytes(frames)
      requires forall i | 0 <= i < frameCount ::
                 frameOffsets[i] == ChunkOffset(frames, i) && frameSizes[i] == |frames[i]|
      modifies this`file, this`pos, this`failed, this`faults
      ensures Tracked()
      ensures !failed ==>
                pos == |file| && file == Start(format, 0, 0, 0, moviSize) + (MoviBytes(frames) + IndexChunk(frames))
    {
      hide Start, MoviBytes, Le32, Id, IndexEntry, ChunkOffset;
      ghost var before := file;
      WriteFourCC(Id("idx1"));
      WriteU32(16 * frameCount);
      ghost var head := Id("idx1") + Le32(16 * frameCount);
      var i := 0;
      while i < frameCount
        invariant i <= frameCount && AtEnd() && Tracked()
        invariant !failed ==> file == before + (head + IndexEntries(frames, i))
      {
        WriteIndexEntry(i);
        i := i + 1;
      }
    }

    method WriteIndexEntry(i: nat)
      requires AtEnd() && i < frameCount == |frames| && frameCount <= frameOffsets.Length
          && frameCount <= frameSizes.Length
      requires frameOffsets[i] == ChunkOffset(frames, i) && frameSizes[i] == |frames[i]|
      modifies this`file, this`pos, this`failed, this`faults
      ensures AtEnd() && Tracked() && (!failed ==> file == old(file) + IndexEntry(frames, i))
    {
      hide Le32, ChunkOffset;
      WriteFourCC(FRAME_ID);
      WriteU32(0x10);
      WriteU32(frameOffsets[i]);
      WriteU32(frameSizes[i]);
    }

    method WriteFrame(jpeg: seq<byte>) returns (written: bool)
      requires AtEnd()
      modifies this`file, this`pos, this`failed, this`faults
      ensures AtEnd() && Tracked() && (!written ==> failed)
      ensures !failed ==> file == old(file) + FrameBytes(jpeg)
    {
      hide Le32;
      WriteFourCC(FRAME_ID);
      WriteU32(|jpeg|);
      Put(jpeg);
      if failed {
        return false;
      }
      if |jpeg| % 2 == 1 {
        Put([0]);
      }
      written := true;
    }
  }

  function FrameBytes(jpeg: seq<byte>): (r: seq<byte>) {
    FRAME_ID + Le32(|jpeg|) + jpeg + Padding(|jpeg|)
  }

  lemma FrameAppended(frames: seq<seq<byte>>, jpeg: seq<byte>)
    ensures MoviBytes(frames + [jpeg]) == MoviBytes(frames) + FrameBytes(jpeg)
    ensures ChunkOffset(frames + [jpeg], |frames|) == 4 + |MoviBytes(frames)|
    ensures forall i | 0 <= i < |frames| :: ChunkOffset(frames + [jpeg], i) == ChunkOffset(frames, i)
  {
    hide EncodedAll, Le32;
    var all, c := frames + [jpeg], Leaf(FRAME_ID, jpeg);
    assert FrameChunks(all) == FrameChunks(frames) + [c];
    EncodedAllJoins(FrameChunks(frames), [c]);
    EncodedOne(c);
    assert all[..|frames|] == frames;
    forall i | 0 <= i < |frames| ensures ChunkOffset(all, i) == ChunkOffset(frames, i) {
      assert all[..i] == frames[..i];
    }
  }

  // ---- a whole recording -------------------------------------------------------------------------------

  /** The frames that are not refused when all are offered in turn. */
  function Accepted(jpegs: seq<seq<byte>>): (r: seq<seq<byte>>)
    ensures |r| <= |jpegs|
  {
    if jpegs == [] then [] else
    var before, last := Accepted(jpegs[..|jpegs| - 1]), jpegs[|jpegs| - 1];
    if Acceptable(last, |before|) then before + [last] else before
  }

  lemma AcceptedNext(jpegs: seq<seq<byte>>, i: nat)
    requires i < |jpegs|
    ensures var before := Accepted(jpegs[..i]);
            Accepted(jpegs[..i + 1]) == if Acceptable(jpegs[i], |before|) then before + [jpegs[i]] else before
  {
    assert jpegs[..i + 1][..i] == jpegs[..i];
  }

  /** No frame is refused but an empty one, an oversized one, or one after the 9000th. */
  lemma {:induction false} AllAccepted(jpegs: seq<seq<byte>>, n: nat)
    requires n <= |jpegs| && n <= MAX_AVI_FRAMES
    requires forall k | 0 <= k < n :: 0 < |jpegs[k]| <= MAX_FRAME_BYTES
    ensures Accepted(jpegs[..n]) == jpegs[..n]
  {
    hide Accepted;
    if n == 0 {
      assert Accepted([]) == [];
    } else {
      AllAccepted(jpegs, n - 1);
      AcceptedNext(jpegs, n - 1);
      assert jpegs[..n] == jpegs[..n - 1] + [jpegs[n - 1]];
    }
  }

  /** Every frame offered in turn to an open writer. */
  method AddAll(w: AviWriter, jpegs: seq<seq<byte>>)
    requires w.Valid() && w.isOpen && w.frames == []
    modifies w`file, w`pos, w`failed, w`faults, w`frameCount, w`frames, w.frameOffsets, w.frameSizes
    ensures w.Valid() && w.Tracked() && (!w.failed ==> w.frames == Accepted(jpegs))
  {
    hide Acceptable;
    for i := 0 to |jpegs|
      invariant w.Valid() && w.Tracked() && (!w.failed ==> w.frames == Accepted(jpegs[..i]))
    {
      AcceptedNext(jpegs, i);
      var added := w.AddFrame(jpegs[i]);
    }
    assert jpegs[..|jpegs|] == jpegs;
  }

  /** open, addFrame for every frame offered, finish: it succeeds unless an operation fails, and then a reader
      gets back exactly the frames that were accepted. */
  method Record(width: int, height: int, fps: int, jpegs: seq<seq<byte>>)
    returns (ok: bool, file: seq<byte>, ghost faults: nat)
    ensures ok <==> width > 0 && height > 0 && fps > 0 && faults == 0
    ensures ok ==> file == Encoded(AviTree(Format(width, height, fps), Accepted(jpegs)))
    ensures ok && |file| < 0x1_0000_0000 ==>
              && Parsed(file) == Chunks([AviTree(Format(width, height, fps), Accepted(jpegs))])
              && FramesOf(Parsed(file)) == Accepted(jpegs)
  {
    hide AviTree, Encoded, FramesOf, Parsed, Accepted, AviWriter.Recording, AviWriter.AtEnd;
    var w := new AviWriter();
    ok := w.Open(width, height, fps);
    if ok {
      AddAll(w, jpegs);
      ok := w.Finish();
    }
    file, faults := w.file, w.faults;
    if ok && |file| < 0x1_0000_0000 {
      AviRoundTrip(Format(width, height, fps), Accepted(jpegs));
    }
  }

  // ---- the headers before their sizes are known --------------------------------------------------------

  function AvihChunk(f: Format): (r: seq<byte>)
    requires f.fps > 0
    ensures |r| == 64
  {
    Id("avih") + Le32(56) + AvihStart(f) + Le32(0) + AvihEnd(f)
  }

  function StrhChunk(f: Format): (r: seq<byte>)
    ensures |r| == 64
  {
    Id("strh") + Le32(56) + StrhStart(f) + Le32(0) + StrhEnd(f)
  }

  function StreamHeaders(f: Format): (r: seq<byte>)
    ensures |r| == 116
  {
    Id("strl") + StrhChunk(f) + (Id("strf") + Le32(40) + StrfData(f))
  }

  function UpToStreams(f: Format): (r: seq<byte>)
    requires f.fps > 0
    ensures |r| == 72
  {
    Id("hdrl") + AvihChunk(f) + LIST
  }

  function UpToHeader(): (r: seq<byte>)
    ensures |r| == 16
  {
    RIFF + Le32(0) + AVI_FORM + LIST
  }

  lemma HeaderParts(f: Format)
    requires f.fps > 0
    ensures LIST + Le32(192) + (Id("hdrl") + AvihChunk(f)) == HeaderA(f) + Le32(0) + AvihEnd(f)
    ensures AvihEnd(f) + (LIST + Le32(116) + StreamHeaders(f)) == HeaderB(f) + Le32(0) + HeaderC(f)
  {
    hide Le32, Id, AvihStart, AvihEnd, StrhStart, StrhEnd, StrfData;
  }

  lemma HeaderSizesPatched(f: Format)
    requires f.fps > 0
    ensures var file := UpToHeader() + Le32(0) + UpToStreams(f) + Le32(0) + StreamHeaders(f);
            Patched(Patched(file, 92, 116), 16, 192) + LIST + Le32(0) + MOVI_FORM == Start(f, 0, 0, 0, 0)
  {
    hide Le32, Id, AvihChunk, AvihEnd, StreamHeaders, HeaderA, HeaderB, HeaderC, Patched;
    var before := UpToHeader() + Le32(0) + UpToStreams(f);
    var after := UpToStreams(f) + Le32(116) + StreamHeaders(f);
    PatchPart(before, 0, StreamHeaders(f), 116);
    PatchPart(UpToHeader(), 0, after, 192);
    assert before + Le32(116) + StreamHeaders(f) == UpToHeader() + Le32(0) + after;
    HeaderParts(f);
    var top, a, b := RIFF + Le32(0) + AVI_FORM, Id("hdrl") + AvihChunk(f), LIST + Le32(116) + StreamHeaders(f);
    assert UpToHeader() + Le32(192) + after == top + (LIST + Le32(192) + a) + b;
    assert top + (HeaderA(f) + Le32(0) + AvihEnd(f)) + b == top + (HeaderA(f) + Le32(0)) + (AvihEnd(f) + b);
  }
}
