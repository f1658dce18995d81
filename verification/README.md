# RetroLens, modelled and verified

This project models the native core of RetroLens, a retro camera application, and proves what its three
components promise: the photo store on the memory card (`photo_store.cpp`), the worker with its process and
photo threads (`display_probe_worker.cpp`), and the filter, scaler, AVI writer and JSON escaping of
`retrolens_core.cpp`. Run `dafny verify dfyconfig.toml` to check it.

**The photo store.** The card is a map from paths to contents (`card.dfy`). Open, write, flush, rename and unlink
are its primitive steps; each may fail, and a ghost trace records the card after every one of them, so that a crash
can be placed anywhere; ghost faults record the failures the store has looked at, so that success can be stated
exactly. A card *stands for* a list (`Holds`) when its index parses, without a rebuild, to exactly that list, which
includes that every named photo has its complete JPEG, sidecar and thumbnail. The store (`photo_store.dfy`) is a
class over the 48-entry array with the same steps as the source. Saving and deleting are proved all-or-nothing for
every failure pattern and crash-consistent at every step; starting up recovers exactly the list from before or
after an interrupted operation. `photo_history.dfy` carries this over whole histories of requests. The index text
(`photo_index.dfy`), the settings text (`settings_text.dfy`, `recent_line.dfy`) and the filenames
(`photo_names.dfy`) have round trips over the printf and scanf behaviour of `c_text.dfy`; `photo_rebuild.dfy` has
the streaming selection and the in-place sort.

**The worker.** `worker.dfy` is a state machine whose steps run from one lock operation to the next: the process
thread, the photo thread, one controller calling `start()` and `stop()`, and any number of callers. The invariants
are proved for every run: lock ownership and freedom from deadlock (`worker_locks.dfy`), the end of every schedule
and the return of `stop()` (`worker_shutdown.dfy`), thread lifetimes (`worker_life.dfy`), the frame slot and the
temporal history (`worker_frames.dfy`, `worker_window.dfy`, `worker_release.dfy`), the job slot, drain and save
accounting (`worker_jobs.dfy`), the gallery (`worker_gallery.dfy`), and what callers are told
(`worker_results.dfy`). The style controls and the keys that reach them are a class with the recent array updated
in place (`style_controls.dfy`).

**The core.** `riff.dfy` is a reference RIFF parser, `avi_layout.dfy` the layout of a recording, `avi_writer.dfy`
the writer class that back-patches its file. `frame_scaler.dfy` and `frame_filter.dfy` compute in 32-bit integers
(`machine_int.dfy`), so that verification includes the absence of overflow; `filter_reference.dfy` says what the
filter computes without its arithmetic. `json_text.dfy` pairs the escaping with a decoder by section 7 of RFC 8259,
and `json_object.dfy` the sidecar (`photo_sidecar.dfy`) with a reader of objects. `preset_catalog.dfy` and
`preset_values.dfy` hold the 70 presets.

## Where the code and its documentation differ

- The repository's README says that the temporal history resets on style changes (`README.md:84`). It does, except for a
  change that lands while the very first frame is still being processed: `styleDirty_` is set from `hasRaw_`, which is
  still false then. `WorkerFrames.NoStaleHistory` states the rule without such a change. `WorkerWindow.SomeRunGoesStale`
  is a run that breaks it, and `WorkerFrames.StaleExactly` says of every run which frames are given a stale buffer: those
  taken before a second frame has been processed, when the last change landed on the first one and that one could be
  decoded. `WorkerRelease.WindowExactly` says from which runs this can still happen.
- The repository's README calls the settings versioned (`README.md:84`). `saveSettings` prints a version, and `loadSettings`
  ignores it: a file of any version loads as if it had none (`SettingsText.VersionIsIgnored`).

## Assumptions

- `rename` is atomic, and card steps reach the card in program order.
- Errors of buffered writes surface at the flush; reads of existing files succeed.
- Paths fit their buffers.
- A save needs that no listed photo has the stem it generates; two saves in one second with equal milliseconds and
  preset share one. `PhotoStorage.UnlinkKeepsListExactly` shows that this is needed. That a failed save also leaves the
  completed files as they were asks for a fresh stem, with no file of it on the card.
- `atoi` and `%d` saturate at 32 bits, as the C library's conversion through `strtol` does on the 32-bit target.
- Pixel buffers passed to the filter and the blits do not overlap.
- `processFrame` adds a shift of up to 14 to a column and of up to 2 to a row before it clamps, and the tick to a row number
  when tearing. `FrameFilter.Indexable` asks that these sums fit an int, next to the pixel offsets.

## Model

| member | source | states |
|---|---|---|
| `PhotoStorage.PhotoStore.SavePhoto` | app/src/main/jni/photo_store.cpp:251-389 | For every pattern of failing card operations a save either appends the entry (evicting the first of 48 and its files) or returns false with list and index as before, and with a fresh stem and working unlinks the completed files too. From a sound store, and unless a listed photo has the stem already, every card state in between stands for the old or the new list, and the three new files hold the encoder output, the manifest of exactly these inputs, and the frame. It succeeds exactly when the store is ready, there is space, the encoder delivered and no operation it looks at failed. |
| `PhotoStorage.PhotoStore.SaveTransaction` | app/src/main/jni/photo_store.cpp:288-389 | The four file stages with the rollback each failure point has, under the same promise (predicate Saved). It succeeds exactly when no operation it looks at failed. |
| `PhotoStorage.PhotoStore.WriteTriple` | app/src/main/jni/photo_store.cpp:288-356 | JPEG, sidecar and thumbnail are all in place with the given bytes, or, with a fresh stem and working unlinks, no completed file has changed; only the three named paths are ever touched. It succeeds exactly when no operation it looks at failed. |
| `PhotoStorage.PhotoStore.CommitEntry` | app/src/main/jni/photo_store.cpp:358-370 | The entry is appended in memory and in index.txt together, or in neither. It fails only when an operation it looks at failed. |
| `PhotoStorage.PhotoStore.CommitOrRollBack` | app/src/main/jni/photo_store.cpp:358-384 | After the index stage either the evicted photo is gone and the new one is listed, or the new photo is gone and the old list stands; no state on the way loses a listed photo. |
| `PhotoStorage.PhotoStore.DeletePhoto` | app/src/main/jni/photo_store.cpp:418-441 | A delete removes exactly the chosen entry from memory and index before any file, or restores memory and leaves the completed files alone; every crash point stands for the list with or without the entry; the result says whether the photo is gone. The entry goes exactly when it exists and the new index could be written. |
| `PhotoStorage.PhotoStore.AddEntry` | app/src/main/jni/photo_store.cpp:615-622 | The in-place shift appends and drops the first of a full list. |
| `PhotoStorage.PhotoStore.RemoveEntry` | app/src/main/jni/photo_store.cpp:429-431 | The in-place shift removes exactly one position. |
| `PhotoStorage.PhotoStore.SaveIndex` | app/src/main/jni/photo_store.cpp:599-613 | index.txt becomes the printed list in one step or stays as it was, at every crash point. It fails only when an operation it looks at failed. |
| `PhotoStorage.TriplePhase` | app/src/main/jni/photo_store.cpp:288-356 | While the three files of an unlisted stem are written every card state stands for the old list. |
| `PhotoStorage.IndexPhase` | app/src/main/jni/photo_store.cpp:365-367 | The index commit takes the card from the old list to the new one with no third state. |
| `PhotoStorage.RolledBack` | app/src/main/jni/photo_store.cpp:367-375 | After a failed index commit the rollback unlinks leave the old list standing, at every step. |
| `PhotoStorage.Evicted` | app/src/main/jni/photo_store.cpp:376-384 | Unlinking the evicted files leaves the new list standing, at every step. |
| `PhotoStorage.UnlinkKeepsListExactly` | app/src/main/jni/photo_store.cpp:367-384 | Unlinking a stem keeps the listed photos if and only if no listed photo has that stem: the exact reason why a save needs an unlisted stem. |
| `PhotoStorage.DeleteIndexPhase` | app/src/main/jni/photo_store.cpp:429-436 | The index commit of a delete goes from the list to the list without the entry with no third state, and no remaining photo shares the removed filename. |
| `PhotoStorage.PhotoStore.LoadIndex` | app/src/main/jni/photo_store.cpp:466-513 | The parse loop over fgets pieces computes the specified reading, entries and needsRebuild both. |
| `PhotoStorage.PhotoStore.RebuildIndex` | app/src/main/jni/photo_store.cpp:543-597 | At most 512 items are inspected; the kept entries are the newest min(48, n) candidates, in ascending time, and become the index. Said of the directory: every entry is a complete photo under its own modification time, one is left out only when 48 others are held and none of them is older, and the list ascends in time. |
| `PhotoStorage.PhotoStore.ScanListing` | app/src/main/jni/photo_store.cpp:548-584 | The readdir loop keeps min(48, n) of the n candidates and none that is older than a dropped one. |
| `PhotoStorage.PhotoStore.CleanTemporaryFiles` | app/src/main/jni/photo_store.cpp:515-529 | Cleaning touches temporaries only: no completed file changes at any step. Every temporary among the first 256 names is gone unless an unlink failed, and every other file is as it was. |
| `PhotoStorage.PhotoStore.WriteProbe` | app/src/main/jni/photo_store.cpp:119-149 | The write probe changes nothing but its own file at any step, succeeds exactly when no operation failed, and leaves no probe file when unlinks work. |
| `PhotoStorage.PhotoStore.Initialize` | app/src/main/jni/photo_store.cpp:103-160 | The resulting state is exact: root, directories, space, probe and index decide it in this order. A card that stands for a list comes up with exactly that list and without a rebuild, at every crash point too; otherwise Ready means the listed photos are complete, or the newest photos of the directory were rebuilt. Stale temporaries are gone before the index is read. |
| `PhotoStorage.RestartAfterCrash` | app/src/main/jni/photo_store.cpp:103-160 | A restart on any crash-safe card state recovers the list from before or the list from after the interrupted operation, without a rebuild. Unless an operation fails it ends Ready. |
| `PhotoStorage.RebuildIsSound` | app/src/main/jni/photo_store.cpp:543-597 | A rebuilt card stands for the rebuilt list if and only if the index can carry its filenames; a listing of distinct names that fit the buffer makes them distinct. |
| `PhotoStorage.PhotoStore.LoadThumbnail` | app/src/main/jni/photo_store.cpp:403-416 | The bytes shown are those of the n-th newest listed photo. |
| `PhotoStorage.HeldThumbnails` | app/src/main/jni/photo_store.cpp:403-416 | Every listed photo of a store has a whole thumbnail to show. |
| `PhotoStorage.PhotoStore.SaveSettings` | app/src/main/jni/photo_store.cpp:224-249 | settings.cfg becomes the printed record in one step or stays as it was. It fails only when an operation it looks at failed. |
| `PhotoStorage.PhotoStore.LoadSettings` | app/src/main/jni/photo_store.cpp:162-222 | Any file contents yield a record within range. |
| `PhotoStorage.SaveThenLoadSettings` | app/src/main/jni/photo_store.cpp:162-249 | Loading after a successful save returns the same record. |
| `PhotoHistory.ServeAll` | app/src/main/jni/photo_store.cpp:251-441 | Over every sequence of saves and deletions with any pattern of failures each request is granted whole or not at all. As long as no save uses the stem of a photo listed at that time, the store stays sound and every card state a crash can leave stands for one of the lists gone through. While no operation fails, a ready store grants every request that can be served. |
| `PhotoHistory.Serve` | app/src/main/jni/photo_store.cpp:251-441 | One request is granted whole or not at all, and an allowed one keeps a sound store sound at every step. A ready store with a working card grants exactly the requests that can be served. |
| `PhotoHistory.RestartAnywhere` | app/src/main/jni/photo_store.cpp:103-160 | A restart, under any root, model and version, on any card state of a history keeps the card sound at every step and comes up with one of its lists, sound, without a rebuild. Unless an operation fails the store is Ready. |
| `PhotoHistory.Session` | app/src/main/jni/photo_store.cpp:103-441 | A session on what a crash left of a history extends it: every card state of the new trace stands for a list of the old or the new session, so sessions and crashes alternate for ever. When nothing fails the store starts and grants every request that can be served. |
| `PhotoHistory.DistinctStemsAreAllowed` | app/src/main/jni/photo_store.cpp:274-286 | A history whose stems are unlisted at the start and different from one another meets that condition throughout. |
| `PhotoHistory.DeletedStemIsFree` | app/src/main/jni/photo_store.cpp:418-441 | Deleting a photo makes its stem usable again. |
| `PhotoHistory.Execute` | app/src/main/jni/display_probe_worker.cpp:653-662 | What the job switch does to the number of photos is an outcome the worker state machine allows. On a working card it fails only for want of what the job needs. |
| `CardFiles.Card.WriteFile` | app/src/main/jni/photo_store.cpp:289-303 | One temporary-write-flush-rename transaction shows the old or the new contents at every step and leaves no temporary behind when unlinks work. It succeeds exactly when no operation it looks at failed. |
| `CardFiles.Card.AtomicReplace` | app/src/main/jni/photo_store.cpp:50-68 | A failed rename changes no completed file and removes the temporary. |
| `PhotoIndex.IndexRoundTrip` | app/src/main/jni/photo_store.cpp:466-513 | Reading the printed list gives back the identical list with needsRebuild false, for every 64-bit timestamp. |
| `PhotoIndex.IndexRoundTripExactly` | app/src/main/jni/photo_store.cpp:599-613 | For complete photos the round trip holds if and only if every filename can be carried: short enough, without separator, line break or NUL. |
| `PhotoIndex.EntryLineParses` | app/src/main/jni/photo_store.cpp:475-505 | A printed line parses to the very entry it was printed from. |
| `PhotoIndex.EntryLineFits` | app/src/main/jni/photo_store.cpp:604-607 | Every printed line fits the 320-byte buffer with line feed and terminator. |
| `PhotoIndex.ReadEntriesAreGood` | app/src/main/jni/photo_store.cpp:501-507 | Whatever index.txt holds, every entry read from it is complete on the card and can be printed again. |
| `PhotoIndex.HoldsFrame` | app/src/main/jni/photo_store.cpp:531-541 | A list keeps standing under every change outside index.txt and the files of its photos. |
| `PhotoIndex.TriplesApart` | app/src/main/jni/photo_store.cpp:630-652 | Distinct filenames have no file in common. |
| `PhotoIndex.TripleIsFinal` | app/src/main/jni/photo_store.cpp:630-652 | No file of a photo is a temporary or the index. |
| `PhotoNames.FilenameFacts` | app/src/main/jni/photo_store.cpp:274-286 | The generated stem is never cut by its 112-byte buffer; the filename fits its own, is a valid name and can be carried by the index. |
| `PhotoNames.FilenameReads` | app/src/main/jni/photo_store.cpp:277-286 | Date, time, milliseconds and preset stand at fixed places of a generated filename and read back as the values given. |
| `PhotoNames.RecoveryIsExact` | app/src/main/jni/photo_store.cpp:562-572 | The suffix search finds a preset if and only if the name ends with that preset's suffix, so the first match is the only match. |
| `PhotoNames.PresetRecovered` | app/src/main/jni/photo_store.cpp:274-286 | The suffix search recovers exactly the preset of every stem a save can generate. |
| `PhotoNames.EndingsApart` | app/src/main/jni/photo_store.cpp:562-572 | No name ends with the suffixes of two presets. |
| `PhotoRebuild.KeepNewest` | app/src/main/jni/photo_store.cpp:573-584 | One step of the streaming selection keeps the newest 48 seen so far, ties resolved in favour of the kept ones. |
| `PhotoRebuild.OldestOf` | app/src/main/jni/photo_store.cpp:577-580 | The scan finds an entry none is older than. |
| `PhotoRebuild.SortByTime` | app/src/main/jni/photo_store.cpp:587-595 | The in-place exchange sort is a permutation into ascending time. |
| `PhotoRebuild.SettlePosition` | app/src/main/jni/photo_store.cpp:588-594 | One turn of the outer loop puts the earliest remaining entry in place and permutes the rest. |
| `PhotoRebuild.CandidateNames` | app/src/main/jni/photo_store.cpp:548-572 | A directory with distinct names yields candidates with distinct names, each complete. |
| `PhotoRebuild.RebuiltIsNewest` | app/src/main/jni/photo_store.cpp:543-597 | Selection and sort together, in terms of the directory: who is held, under which time, who may be left out, in which order. |
| `SettingsText.SettingsRoundTrip` | app/src/main/jni/photo_store.cpp:162-249 | Loading the printed text gives back every well-formed record: both hex masks, the recent list, and the sparse adjustment rows. |
| `SettingsText.SettingsRoundTripExactly` | app/src/main/jni/photo_store.cpp:162-249 | A record in range comes back if and only if its recent line has at most 255 characters, or is cut inside a last preset 0, the preset an unknown id is read as. |
| `SettingsText.RepeatedListIsLost` | app/src/main/jni/photo_store.cpp:178-203 | A record with a longest id twelve times does not come back. |
| `SettingsText.FileReads` | app/src/main/jni/photo_store.cpp:162-249 | Every record in range comes back but for what the loader makes of its recent line, whatever that line's length. |
| `SettingsText.CutRecentReads` | app/src/main/jni/photo_store.cpp:193-203 | The list read from the first n characters of the printed one is the list itself in exactly those cases. |
| `SettingsText.VersionIsIgnored` | app/src/main/jni/photo_store.cpp:172-222 | A file loads as what follows its version line, whatever the version. |
| `SettingsText.LoadedIsBounded` | app/src/main/jni/photo_store.cpp:204-218 | Whatever the file holds, the loaded record is within range: intensity, motion, masks, list length, adjustments. |
| `RecentLine.RecentLineFits` | app/src/main/jni/photo_store.cpp:178-203 | Twelve distinct ids fit the loader's 256-byte line. |
| `RecentLine.RepeatedIdsDoNotFit` | app/src/main/jni/photo_store.cpp:236-238 | Twelve times a longest id makes a line of 294 characters. |
| `RecentLine.DistinctExcess` | app/src/main/jni/photo_store.cpp:236-238 | Distinct presets share a bounded number of characters beyond the sixteenth of their ids. |
| `PresetCatalog.IdsDistinct` | app/src/main/jni/retrolens_core.cpp:15-189 | The 70 ids are distinct. |
| `PresetCatalog.SuffixFree` | app/src/main/jni/retrolens_core.cpp:15-189 | No id behind an underscore is a suffix of another one. |
| `PresetCatalog.IdFacts` | app/src/main/jni/retrolens_core.cpp:15-189 | Every id is short, not empty, and made of letters, digits and underscores only. |
| `PresetCatalog.FindPreset` | app/src/main/jni/retrolens_core.cpp:209-216 | The lookup loop returns the first preset with the id and 0 for an unknown one. |
| `PresetCatalog.LookupInverts` | app/src/main/jni/retrolens_core.cpp:209-216 | Looking up the id of a preset gives that preset. |
| `CText.DecimalScans` | app/src/main/jni/photo_store.cpp:604-607 | Scanning a printed decimal returns its value and stops at the character behind it. |
| `CText.HexScans` | app/src/main/jni/photo_store.cpp:234-237 | Scanning a printed 64-bit hexadecimal mask returns the mask. |
| `JsonText.JsonEscape` | app/src/main/jni/retrolens_core.cpp:495-514 | The loop writes the escaped text between quotes, up to the first NUL. |
| `JsonText.JsonRoundTrip` | app/src/main/jni/retrolens_core.cpp:495-514 | Decoding by section 7 of RFC 8259 gives back every input. |
| `JsonText.EscapedIsClean` | app/src/main/jni/retrolens_core.cpp:495-514 | No raw control character is written, and the first quote that is not escaped is the closing one. |
| `JsonObject.ObjectRoundTrip` | app/src/main/jni/photo_store.cpp:310-334 | A reader of JSON objects (sections 2 to 7 of RFC 8259) gives back the members of every printed flat object, in order. |
| `PhotoSidecar.ManifestIsRead` | app/src/main/jni/photo_store.cpp:310-334 | Reading the sidecar gives back preset, size, intensity, adjustments, time, favorite, model and version, whatever bytes the two strings hold. |
| `AviWriting.AviWriter.Open` | app/src/main/jni/retrolens_core.cpp:567-648 | An open succeeds exactly for a positive size and rate when no stream operation fails, and then records no frames for the given format. |
| `AviWriting.AviWriter.AddFrame` | app/src/main/jni/retrolens_core.cpp:650-665 | A frame is accepted exactly when the stream works and it is not empty, not over 1 MiB and not the 9001st; it is appended, a refused one changes nothing. |
| `AviWriting.AviWriter.Finish` | app/src/main/jni/retrolens_core.cpp:667-687 | A finish succeeds exactly when the writer is open and no stream operation has failed, and leaves exactly the layout of the RIFF tree of the recorded frames, every back-patched size and count included. |
| `AviWriting.Record` | app/src/main/jni/retrolens_core.cpp:567-687 | Opening, offering any frames and finishing: unless a stream operation fails it succeeds, the file is the tree of exactly the accepted frames, and a RIFF parser gives them back in order. |
| `AviWriting.AllAccepted` | app/src/main/jni/retrolens_core.cpp:650-652 | Of the first 9000 frames only an empty or an oversized one is refused. |
| `AviWriting.AviWriter.PatchU32` | app/src/main/jni/retrolens_core.cpp:560-565 | The four bytes at the offset change, nothing else, and the position is where it was. |
| `AviLayout.TreeLayout` | app/src/main/jni/retrolens_core.cpp:567-687 | The RIFF tree lays out to the writer's bytes with exact RIFF, hdrl, strl and movi sizes and both frame counts. |
| `AviLayout.MainHeaderSays` | app/src/main/jni/retrolens_core.cpp:587-600 | A reader of AVIMAINHEADER finds the frame duration, the number of frames, one stream and the size. |
| `AviLayout.StreamHeaderSays` | app/src/main/jni/retrolens_core.cpp:606-625 | A reader of AVISTREAMHEADER finds a Motion-JPEG video stream, its rate and its length. |
| `AviLayout.StreamFormatSays` | app/src/main/jni/retrolens_core.cpp:626-638 | A reader of BITMAPINFOHEADER finds the size, 24 bits and the compression. |
| `AviLayout.AviRoundTrip` | app/src/main/jni/retrolens_core.cpp:567-687 | A RIFF parser recovers the tree, and so exactly the frame byte strings in order. |
| `AviLayout.IndexPointsAtFrames` | app/src/main/jni/retrolens_core.cpp:673-680 | idx1 entry i, relative to the movi FourCC, points at the chunk that holds frame i, with its size. |
| `Riff.RiffRoundTrip` | app/src/main/jni/retrolens_core.cpp:567-687 | The reference parser recovers every tree of chunks from its padded layout. |
| `AviLayout.FrameInFile` | app/src/main/jni/retrolens_core.cpp:653-663 | Each frame lies in the file as one whole padded chunk at the recorded offset. |
| `FrameScaler.BlitRgb565` | app/src/main/jni/retrolens_core.cpp:402-437 | Accepted calls store at every destination position the converted source pixel that position falls on, rows from the top and pixels from the left, and keep the padding; all other calls write nothing. No offset or product overflows. |
| `FrameScaler.BlitCenterCrop` | app/src/main/jni/retrolens_core.cpp:439-493 | The same for the centred crop. |
| `FrameScaler.FallsOnOne` | app/src/main/jni/retrolens_core.cpp:410-415 | Every destination position falls on exactly one source position, inside the source. |
| `FrameScaler.EqualSizesCopy` | app/src/main/jni/retrolens_core.cpp:402-437 | A blit between equal sizes copies pixel by pixel. |
| `FrameScaler.FillPixels` | app/src/main/jni/retrolens_core.cpp:463-491 | The nested loops write every destination pixel, each in bounds, and no padding. |
| `FrameScaler.CropSizes` | app/src/main/jni/retrolens_core.cpp:447-461 | The 32-bit crop arithmetic computes the specified crop. |
| `FrameScaler.CropLiesInside` | app/src/main/jni/retrolens_core.cpp:447-461 | The crop lies inside the source, is centred to a pixel and spans the source one way. |
| `FrameScaler.CropHasShape` | app/src/main/jni/retrolens_core.cpp:447-461 | The crop is the largest whole-pixel one of the destination's shape; equal shapes crop nothing. |
| `FrameScaler.SameShapeSamePicture` | app/src/main/jni/retrolens_core.cpp:402-493 | For equal aspect ratios both blits leave the same destination. |
| `FrameScaler.EveryCroppedPixelShows` | app/src/main/jni/retrolens_core.cpp:463-472 | A destination at least as large as the crop shows every cropped source pixel. |
| `FrameScaler.ScaledCovers` | app/src/main/jni/retrolens_core.cpp:466-470 | Scaling up reaches every source coordinate. |
| `FrameScaler.PaddingIsKept` | app/src/main/jni/retrolens_core.cpp:463-491 | Words between the width and the stride keep their old contents. |
| `FrameScaler.ConvertedLosesNothing` | app/src/main/jni/retrolens_core.cpp:482-487 | Widening 5-6-5 to 8 bits a channel is invertible and the channels do not overlap. |
| `FrameFilter.ProcessFrame` | app/src/main/jni/retrolens_core.cpp:234-400 | For every frame and preset in range the loops write every pixel with the specified value, read in bounds, never divide by zero and never leave the int range; a refused call writes nothing. |
| `FrameFilter.FilterRows` | app/src/main/jni/retrolens_core.cpp:254-399 | The row and pixel loops thread the random state as specified and write each pixel once. |
| `FilterReference.FiltersExactly` | app/src/main/jni/retrolens_core.cpp:234-396 | A stored pixel is the filter's exactly when it follows from the source pixel by the stages in their order, each said by inequalities between whole numbers: saturation, tint, contrast, tone, heat, outline, four colours, dither, dots, characters, levels, persistence, bloom, grain. |
| `FilterReference.ShadedFollows` | app/src/main/jni/retrolens_core.cpp:234-396 | For every pixel, preset and intensity there is a course of colours through all the stages to the stored pixel. |
| `FilterReference.StoredPixel` | app/src/main/jni/retrolens_core.cpp:234-396 | Which source pixel a stored one is made from (shifted, held inside the frame, snapped to the grid), by which neighbours its edge is drawn, which pixel of the frame before is mixed in, and which draw its grain and its row's tear come from. |
| `FilterReference.DitheredFollows` | app/src/main/jni/retrolens_core.cpp:340-346 | The sixteen dither offsets are the four-by-four ordered dither. |
| `FilterReference.ThresholdsSpread` | app/src/main/jni/retrolens_core.cpp:340-346 | The dither repeats every four pixels and has each of its sixteen thresholds once in a block. |
| `FilterReference.DotsGrow` | app/src/main/jni/retrolens_core.cpp:347-360 | A pixel printed as a dot is printed as one at every darker luma; white never is. |
| `FilterReference.FullDesaturation` | app/src/main/jni/retrolens_core.cpp:276-279 | At full intensity a preset without saturation leaves only the luma. |
| `FilterReference.ThermalShowsHeat` | app/src/main/jni/retrolens_core.cpp:294-299 | A hot pixel holds no blue and much red, a cold one no red and much blue. |
| `FilterReference.ThermalKeepsOrder` | app/src/main/jni/retrolens_core.cpp:294-299 | As the luma grows, red never falls and blue never rises, posterized or not. |
| `FilterReference.JobFollows` | app/src/main/jni/retrolens_core.cpp:240-250 | Intensity is held between 0 and 100; the jitter comes from the first two draws of a seed that changes every 67 milliseconds. |
| `FilterReference.TornBands` | app/src/main/jni/retrolens_core.cpp:262-264 | Three rows of every 47 are torn; with a tick wrapped below zero every row is whose sum is negative. |
| `FilterReference.RandomGoesOn` | app/src/main/jni/retrolens_core.cpp:218-226 | The generator never sticks at zero; its first states after 1 are those of the 13-17-5 xorshift. |
| `FrameFilter.Saturated` | app/src/main/jni/retrolens_core.cpp:276-279 | Saturation stays within its bound and does nothing at intensity zero. |
| `FrameFilter.Contrasted` | app/src/main/jni/retrolens_core.cpp:283-286 | Contrast stays within its bound and does nothing at intensity zero. |
| `FrameFilter.Mixed` | app/src/main/jni/retrolens_core.cpp:375-381 | A persisted channel lies between the new and the old value. |
| `FrameFilter.EdgeStrength` | app/src/main/jni/retrolens_core.cpp:300-311 | The edge strength reads four neighbours inside the frame and is a byte. |
| `FrameFilter.ZeroIntensityShowsTheSource` | app/src/main/jni/retrolens_core.cpp:240-286 | At intensity zero a preset without fixed effects returns the camera frame. |
| `FrameFilter.SteadyPicture` | app/src/main/jni/retrolens_core.cpp:245-275 | Without jitter, tearing and grain the picture depends neither on the seed nor on the time. |
| `FrameFilter.PosterizedAgain` | app/src/main/jni/retrolens_core.cpp:369-374 | Posterizing keeps black and white, and repeating it changes nothing if and only if there are 2, 4 or 6 levels. |
| `FrameFilter.LevelKeepsOrder` | app/src/main/jni/retrolens_core.cpp:369-374 | Posterizing never reorders two values. |
| `FrameFilter.MonochromeStaysGrey` | app/src/main/jni/retrolens_core.cpp:288-293 | A monochrome preset with one tint for all channels gives a grey picture, unless it is thermal or halftone. |
| `PresetValues.PresetAt` | app/src/main/jni/retrolens_core.cpp:15-189 | Every one of the 70 rows is within the range the filter is safe for. |
| `PresetValues.Adjusted` | app/src/main/jni/display_probe_worker.cpp:766-773 | An adjusted preset stays within that range, and no adjustment leaves it as it is. |
| `PresetValues.AdjustmentsAdd` | app/src/main/jni/display_probe_worker.cpp:766-773 | The user's adjustments add to contrast, grain and persistence, held in range, and change nothing else. |
| `PresetValues.EveryStyleIsSafe` | app/src/main/jni/display_probe_worker.cpp:865-880 | Whatever the settings file holds, every selectable style meets the filter's needs on a camera frame. |
| `PresetValues.TearingTimeIsExact` | app/src/main/jni/retrolens_core.cpp:263-264 | For a tearing style and every time, what the filter asks of the tick is exactly that no sum of row and tick overflows; where the tick is an int this is a bound on the time. |
| `StyleControls.RecordedMovesToFront` | app/src/main/jni/display_probe_worker.cpp:775-790 | On a list without repetitions recording is move to front cut at twelve, and leaves none. |
| `StyleControls.StyleState.RecordRecent` | app/src/main/jni/display_probe_worker.cpp:775-790 | The in-place shifts compute the specified list, also for lists with repetitions. |
| `StyleControls.ToggleFlipsOne` | app/src/main/jni/display_probe_worker.cpp:792-806 | Toggling flips the selected preset's bit and no other one, across both 64-bit masks. |
| `StyleControls.XorBits` | app/src/main/jni/display_probe_worker.cpp:792-806 | Exclusive or acts on each bit alone. |
| `StyleControls.NextCategory` | app/src/main/jni/display_probe_worker.cpp:730-736 | The loop ends at the first preset, in the given direction, of another category. |
| `StyleControls.StyleState.ChangeCategory` | app/src/main/jni/display_probe_worker.cpp:730-745 | Changing category chooses that preset and records it. |
| `StyleControls.StyleState.ChangeStyle` | app/src/main/jni/display_probe_worker.cpp:248-266 | Any delta wraps into the catalog; zero changes and records nothing. |
| `StyleControls.StyleState.StepStyle` | app/src/main/jni/display_probe_worker.cpp:297-307 | A step wraps around the ends of the catalog and is recorded. |
| `StyleControls.StyleState.AdjustParameter` | app/src/main/jni/display_probe_worker.cpp:747-764 | A step changes the selected parameter only, and stays in range. |
| `StyleControls.StepMoves` | app/src/main/jni/display_probe_worker.cpp:747-764 | One press moves one value by its step, onward upward, to its limit at most, and changes nothing else. |
| `StyleControls.StyleState.ToggleFavorite` | app/src/main/jni/display_probe_worker.cpp:792-799 | The masks change as specified and nothing else does. |
| `StyleControls.StyleState.ToggleDiagnostics` | app/src/main/jni/display_probe_worker.cpp:354-358 | The key opens or closes the diagnostics scene, the flag says whether it is open, and no other setting changes. |
| `StyleControls.StyleState.Press` | app/src/main/jni/display_probe_worker.cpp:284-358 | Every key does to scene, chosen parameter and settings what it means in the current scene: one control of the user, or nothing. |
| `StyleControls.EverySittingRoundTrips` | app/src/main/jni/display_probe_worker.cpp:284-358 | At every point of every history of keys, in whatever scenes, saving and loading gives the settings back. |
| `StyleControls.StyleState.MoveParameter` | app/src/main/jni/display_probe_worker.cpp:310-315 | Up and down walk the four parameters and change no setting. |
| `StyleControls.StyleState.SettingsNow` | app/src/main/jni/display_probe_worker.cpp:842-855 | The record handed to the store is the one the state stands for. |
| `StyleControls.StyleState.Restore` | app/src/main/jni/display_probe_worker.cpp:603-613 | Loaded settings become the state, motion apart. |
| `StyleControls.UsedStaysWellFormed` | app/src/main/jni/display_probe_worker.cpp:747-799 | Every control keeps the settings in range and the recent list free of repetitions. |
| `StyleControls.EveryHistoryRoundTrips` | app/src/main/jni/display_probe_worker.cpp:842-855 | After every history of controls, saving and loading gives the settings back. |
| `WorkerLocks.LocksKept` | app/src/main/jni/display_probe_worker.cpp:145-202 | Every step keeps the recorded owner of each lock equal to the thread inside a section it guards. |
| `WorkerLocks.NoCircularWait` | app/src/main/jni/display_probe_worker.cpp:409-476 | In no reachable state is there a set of threads each waiting, for a lock or a join, for another one of the set. |
| `WorkerLocks.WaitingDescends` | app/src/main/jni/display_probe_worker.cpp:179-202 | Whoever is waited for ranks below the waiter: joins over mutex_ over photoMutex_ over nothing. |
| `WorkerLocks.StuckMeansWaiting` | app/src/main/jni/display_probe_worker.cpp:573-728 | A thread that cannot move has finished or waits for another thread by name. |
| `WorkerLocks.HoldersMove` | app/src/main/jni/display_probe_worker.cpp:409-454 | The holder of photoMutex_ can always move; the holder of mutex_ can, or waits for one that can. |
| `WorkerShutdown.EveryScheduleEnds` | app/src/main/jni/display_probe_worker.cpp:573-935 | From every state of every run, each schedule without new calls has a bounded number of steps: the work in the slots, threads and calls at its beginning, and one turn of a loop for each vain wake-up. |
| `WorkerShutdown.LastStretchEnds` | app/src/main/jni/display_probe_worker.cpp:195-199 | Once stop() has cleared both flags that work alone is the bound, timer ticks and spurious wake-ups included. |
| `WorkerShutdown.RestExactly` | app/src/main/jni/display_probe_worker.cpp:145-202 | In a reachable state no thread or call under way has a step that is due if and only if start() has failed or stop() has returned, both threads are gone and no call is under way. |
| `WorkerShutdown.StopReturns` | app/src/main/jni/display_probe_worker.cpp:179-202 | Every run, whoever holds which lock, can be brought to such rest without a new call; when start() has returned it ends with stop() returned. |
| `WorkerLife.LifeAlways` | app/src/main/jni/display_probe_worker.cpp:145-202 | In every run the progress of start() and stop() fixes which threads exist and both running flags. |
| `WorkerFrames.FramesConserved` | app/src/main/jni/display_probe_worker.cpp:225-246 | In every reachable state accepted = processed + undecodable + pending + in use, and never both of the last two. |
| `WorkerFrames.DecoderOwnsInput` | app/src/main/jni/display_probe_worker.cpp:857-881 | While the decoder reads the input buffer it holds the taken frame and no step writes it. |
| `WorkerFrames.FramesKept` | app/src/main/jni/display_probe_worker.cpp:857-926 | Every step of every thread keeps the slot and history invariant. |
| `WorkerFrames.ExposedExactly` | app/src/main/jni/display_probe_worker.cpp:248-266 | The history variable is set exactly when some change landed during the first frame. |
| `WorkerFrames.NoStaleHistory` | app/src/main/jni/display_probe_worker.cpp:857-926 | Unless a change lands while the first frame is being processed, no frame is filtered with a history buffer of another generation. |
| `WorkerFrames.StaleExactly` | app/src/main/jni/display_probe_worker.cpp:865-880 | A frame about to use the history gets a buffer of another generation if and only if at most one frame has been processed, and some change landed while the first one was in use, is still the last change, and that frame was not lost to the decoder. |
| `WorkerFrames.MissedExactly` | app/src/main/jni/display_probe_worker.cpp:857-926 | In every state the history variable for an unnoticed change says just that of the run's events. |
| `WorkerWindow.ChangeInWindowGoesStale` | app/src/main/jni/display_probe_worker.cpp:248-266 | From every run whose first frame is being decoded, or has been decoded and waits for mutex_, with mutex_ free, a change leads on to a frame filtered with a stale buffer. |
| `WorkerWindow.SomeRunGoesStale` | app/src/main/jni/display_probe_worker.cpp:145-266 | A run from an initial state filters a frame with a stale buffer after one change of style. |
| `WorkerRelease.WindowExactly` | app/src/main/jni/display_probe_worker.cpp:179-266 | While the first frame can still be processed, some continuation filters a frame with a stale buffer if and only if stop() has neither cleared running_ nor taken mutex_ to clear it. |
| `WorkerRelease.OpenGoesStale` | app/src/main/jni/display_probe_worker.cpp:248-266 | From every such run, whoever holds which lock, a continuation goes stale. |
| `WorkerRelease.MutexFrees` | app/src/main/jni/display_probe_worker.cpp:409-476 | The holder of mutex_ can always be let go on until the lock is free, without the process thread. |
| `WorkerWindow.LateChangeIsHarmless` | app/src/main/jni/display_probe_worker.cpp:904-908 | A change that lands on a first frame already found undecodable makes no later frame stale. |
| `WorkerJobs.JobsTakenOnce` | app/src/main/jni/display_probe_worker.cpp:573-668 | The jobs taken are the jobs accepted, once and in order, but for the pending one; an ended photo thread, by the early exit too, leaves none pending; after photoRunning_ is cleared at most one more is taken. |
| `WorkerJobs.StopDrains` | app/src/main/jni/display_probe_worker.cpp:179-202 | When stop() has returned every accepted job has been taken and executed. |
| `WorkerJobs.NoLostWakeUp` | app/src/main/jni/display_probe_worker.cpp:573-636 | The photo thread sleeps unsignalled only while the condition it sleeps on holds. |
| `WorkerJobs.JobsKept` | app/src/main/jni/display_probe_worker.cpp:808-840 | Every step of every thread keeps the job slot's invariant. |
| `WorkerJobs.SavesAccounted` | app/src/main/jni/display_probe_worker.cpp:671-688 | In every reachable state the accepted save requests are the saved, the failed, the pending and the taken but unpublished ones. |
| `WorkerResults.SavesReported` | app/src/main/jni/display_probe_worker.cpp:653-688 | In every state of every run the saved and the failed counter are the numbers of saves published as done and as failed, and every executed save has been published under its own outcome or is on its way. |
| `WorkerResults.JobsWereAsked` | app/src/main/jni/display_probe_worker.cpp:409-454 | The accepted jobs of a run are exactly those asked for, in order: a save by a photo request, a deletion of the shown photo by a confirmation, a thumbnail by the others. |
| `WorkerResults.CallsAreChecked` | app/src/main/jni/display_probe_worker.cpp:409-436 | A call goes on to the job slot exactly when what it needs is there, and is over otherwise. |
| `WorkerResults.MovesGoAround` | app/src/main/jni/display_probe_worker.cpp:286-293 | In every reachable state a key press shows the next or the previous photo, around the ends. |
| `WorkerResults.FramesReported` | app/src/main/jni/display_probe_worker.cpp:225-246 | In every state the frame counters are the numbers of submissions to an empty slot, of frames decoded and of frames lost, and the storage gate is open exactly when it was from the start or a caller has opened it. |
| `WorkerResults.NothingBeforeTheStore` | app/src/main/jni/display_probe_worker.cpp:573-628 | In no reachable state is a photo job pending or executed, or a store shown, unless the first status reported was that the storage is ready. |
| `WorkerGallery.GalleryAgrees` | app/src/main/jni/display_probe_worker.cpp:671-712 | Outside the span from executing to publishing a job the shown count is the store's, within it they differ by what that job did; the selected photo is the first or exists. |

## Left out

- JPEG encoding and decoding: an encoder result, or a decode that may fail, is an arbitrary input.
- Drawing, glyphs, JNI, window surfaces and all Java code: input and output plumbing.
- `retrolens_runtime.cpp`: retired and not linked.
- Wall-clock time, free space, directory creation and directory listings: inputs of the operations that use them.
- `writeStage_`, `lastError_`, message deadlines, status texts and frame-rate statistics: display only.
- The 320x240 upscaling inside `savePhoto` and `applyCaptureTexture`: pixel work before the encoder.
- The untorn photo snapshot: `requestPhoto` copies `filtered_` while the process thread may be writing it unlocked.
- Which frame a published thumbnail shows: the job slot is free between its release and the publication, so the next request may already have replaced the buffer.
- Restarting a worker after `stop()`: the state machine has one lifetime, and `start()` and `stop()` have one caller.
- The scene in the worker machine: its callers may do at any time what some scene allows; StyleControls.StyleState.Press has the scenes, without the gallery's own state and the return to the gallery after a deletion.
- PhotoStorage.PhotoStore.SavePhoto: takes a catalog preset, as the worker passes one; the manifest is a function of the inputs, its escaping loop is verified in JsonText.JsonEscape.
- SettingsText.SettingsRoundTrip: the recent array and its count are one sequence, so the zeros past the count are implied.
- StyleControls.StyleState.ToggleFavorite: the 64-bit masks are natural numbers below 2^64, with exclusive or defined bit by bit.
- FrameScaler.FillPixels: one destination type stands for the 16-bit and the 32-bit buffer.
- AviWriting.AviWriter.Finish: `width * height * 3` is taken modulo 2^32, and file positions are unbounded, so the promise for large files is the one under the size bound of AviLayout.AviRoundTrip.
- `choosePerformance`: only the retired runtime calls it.
- `calculateSequenceProbeMetrics`: clamped counters and a frame rate for the diagnostics panel, which nothing modelled reads.
- The getters of the worker and the store: each returns fields as they are.
