/** Whole histories of the photo store: saves and deletions one after the other, and the card states a crash can
    leave behind anywhere between. Also the store's side of the photo thread's jobs. */
module PhotoHistory {
  import opened CText
  import opened PresetCatalog
  import opened CardFiles
  import opened PhotoIndex
  import opened PhotoNames
  import opened PhotoStorage
  import PhotoRebuild
  import SettingsText
  import Worker

  // ---- requests ----------------------------------------------------------------------------------

  /** What savePhoto is given, with the encoder's result, the free space and the local time as inputs. */
  datatype Shot = Shot(thumbnail: string, jpeg: Option<string>, preset: PresetNumber, intensity: int,
                       adjustments: SettingsText.Adjustment, favorite: bool, timestampMs: int64, availableBytes: int,
                       time: LocalTime)

  datatype Request = Take(shot: Shot) | Delete(newestIndex: int)

  predicate Usable(shot: Shot) {
    |shot.thumbnail| == THUMBNAIL_BYTES && (shot.jpeg.Some? ==> |shot.jpeg.value| >= 4)
  }

  function NameOf(shot: Shot): string {
    Filename(shot.time, shot.timestampMs, shot.preset)
  }

  function EntryOf(shot: Shot): PhotoEntry {
    PhotoEntry(shot.timestampMs, shot.preset, shot.favorite, NameOf(shot))
  }

  /** The one thing a save needs of the list: no photo listed now has the stem it is about to use. */
  ghost predicate Allowed(list: seq<PhotoEntry>, request: Request) {
    request.Take? ==> Unlisted(list, NameOf(request.shot))
  }

  predicate AllUsable(requests: seq<Request>) {
    forall i | 0 <= i < |requests| && requests[i].Take? :: Usable(requests[i].shot)
  }

  /** The list a request leads to. A delete that reports failure may have taken the entry and left the file. */
  ghost predicate Leads(before: seq<PhotoEntry>, request: Request, ok: bool, after: seq<PhotoEntry>)
    requires |before| <= MAX_ENTRIES
  {
    match request
    case Take(shot) => after == if ok then Appended(before, EntryOf(shot)) else before
    case Delete(newestIndex) =>
      var index := |before| - 1 - newestIndex;
      if 0 <= newestIndex < |before| && after != before then after == Removed(before, index)
      else !ok && after == before
  }

  /** A shot with space on the card and an encoder that delivers, or a deletion of a photo there is. */
  predicate Servable(count: nat, request: Request) {
    match request
    case Take(shot) => !(0 <= shot.availableBytes < MINIMUM_FREE_BYTES) && shot.jpeg.Some?
    case Delete(newestIndex) => 0 <= newestIndex < count
  }

  predicate TakesServable(requests: seq<Request>) {
    forall i | 0 <= i < |requests| && requests[i].Take? :: Servable(0, requests[i])
  }

  /** No operation on the card has failed since. */
  twostate predicate Faultless(card: Card)
    reads card
  {
    card.faults == old(card.faults) && card.unlinkFaults == old(card.unlinkFaults)
  }

  // ---- one request ---------------------------------------------------------------------------------

  /** A request is granted whole or not at all; an allowed one keeps a sound store sound at every step. */
  method Serve(store: PhotoStore, request: Request) returns (ok: bool)
    requires store.Valid() && (request.Take? ==> Usable(request.shot))
    modifies store`entryCount, store`storageState, store.entries, store.card
    ensures store.Valid() && old(store.card.trace) <= store.card.trace
    ensures old(store.card.faults) <= store.card.faults && old(store.card.unlinkFaults) <= store.card.unlinkFaults
    // without a failing operation a ready store grants exactly the requests that can be served
    ensures old(store.storageState) == Ready && Faultless(store.card) ==>
              (ok <==> Servable(old(store.entryCount), request))
    ensures old(store.storageState) == Ready && (request.Take? ==> Servable(0, request)) ==> store.storageState == Ready
    ensures Leads(old(store.Held()), request, ok, store.Held())
    ensures old(Sound(store.card.files, store.Held())) && Allowed(old(store.Held()), request) ==>
              && Sound(store.card.files, store.Held())
              && CrashSafe(store.card.trace[old(|store.card.trace|)..], 0, old(store.Held()), store.Held())
  {
    hide Holds, Triple, Fresh, Filename, DistinctNames, CrashSafe, Unlisted;
    match request {
      case Take(shot) =>
        ok := store.SavePhoto(shot.thumbnail, shot.jpeg, shot.preset, shot.intensity, shot.adjustments, shot.favorite,
                              shot.timestampMs, shot.availableBytes, shot.time);
      case Delete(newestIndex) =>
        NoStep(store.Held());
        ok := store.DeletePhoto(newestIndex);
    }
  }

  lemma NoStep(list: seq<PhotoEntry>)
    ensures CrashSafe([], 0, list, list)
  {}

  // ---- whole histories -------------------------------------------------------------------------------

  /** The card stands for one of the lists, and its filenames are distinct. */
  ghost predicate SoundIn(files: Files, lists: seq<seq<PhotoEntry>>) {
    exists i | 0 <= i < |lists| :: Sound(files, lists[i])
  }

  /** Every card state from a point on stands for one of the lists the history went through. */
  ghost predicate AlwaysSound(trace: seq<Files>, from: nat, lists: seq<seq<PhotoEntry>>) {
    forall k | from <= k < |trace| :: SoundIn(trace[k], lists)
  }

  lemma SoundInMore(files: Files, lists: seq<seq<PhotoEntry>>, more: seq<seq<PhotoEntry>>, at: nat)
    requires SoundIn(files, lists) && at + |lists| <= |more| && more[at..at + |lists|] == lists
    ensures SoundIn(files, more)
  {
    hide Sound;
    var i :| 0 <= i < |lists| && Sound(files, lists[i]);
    assert more[at + i] == more[at..at + |lists|][i];
  }

  /** A crash-safe stretch between two lists with distinct names, after a stretch that was sound already. */
  lemma SoundFurther(earlier: seq<Files>, trace: seq<Files>, from: nat, lists: seq<seq<PhotoEntry>>,
          after: seq<PhotoEntry>)
    requires earlier <= trace && from <= |earlier| && lists != []
    requires AlwaysSound(earlier, from, lists) && DistinctNames(lists[|lists| - 1]) && DistinctNames(after)
    requires CrashSafe(trace[|earlier|..], 0, lists[|lists| - 1], after)
    ensures AlwaysSound(trace, from, lists + [after])
  {
    hide Holds, DistinctNames;
    var all := lists + [after];
    forall k | from <= k < |trace| ensures SoundIn(trace[k], all) {
      if k < |earlier| {
        assert trace[k] == earlier[k];
        SoundInMore(trace[k], lists, all, 0);
      } else {
        assert trace[k] == trace[|earlier|..][k - |earlier|];
        assert all[|lists| - 1] == lists[|lists| - 1] && all[|lists|] == after;
        assert Sound(trace[k], all[|lists| - 1]) || Sound(trace[k], all[|lists|]);
      }
    }
  }

  ghost predicate Chain(lists: seq<seq<PhotoEntry>>, requests: seq<Request>, oks: seq<bool>)
    requires |oks| <= |requests| && |lists| == |oks| + 1
  {
    forall i | 0 <= i < |oks| :: |lists[i]| <= MAX_ENTRIES && Leads(lists[i], requests[i], oks[i], lists[i + 1])
  }

  ghost predicate AllAllowed(lists: seq<seq<PhotoEntry>>, requests: seq<Request>)
    requires |lists| <= |requests| + 1
  {
    forall i | 0 <= i < |lists| - 1 :: Allowed(lists[i], requests[i])
  }

  /** Every request was granted that could be served. */
  ghost predicate AllGranted(lists: seq<seq<PhotoEntry>>, requests: seq<Request>, oks: seq<bool>)
    requires |oks| <= |requests| && |lists| == |oks| + 1
  {
    forall i | 0 <= i < |oks| :: oks[i] <==> Servable(|lists[i]|, requests[i])
  }

  /** Any number of saves and deletions, with any pattern of failures: each one is granted whole or not at all.
      From a sound store, and as long as no save uses the stem of a photo listed at that time, the store stays
      sound, and a crash anywhere leaves a card that stands for one of the lists gone through. As long as no operation
      on the card fails, space lasts and the encoder delivers, a ready store grants all it can. */
  method ServeAll(store: PhotoStore, requests: seq<Request>) returns (oks: seq<bool>, ghost lists: seq<seq<PhotoEntry>>)
    requires store.Valid() && AllUsable(requests)
    modifies store`entryCount, store`storageState, store.entries, store.card
    ensures store.Valid() && old(store.card.trace) <= store.card.trace
    ensures old(store.card.faults) <= store.card.faults && old(store.card.unlinkFaults) <= store.card.unlinkFaults
    ensures |oks| == |requests| && |lists| == |requests| + 1 && Chain(lists, requests, oks)
    ensures lists[0] == old(store.Held()) && lists[|requests|] == store.Held()
    ensures old(store.storageState) == Ready && TakesServable(requests) && Faultless(store.card) ==>
              AllGranted(lists, requests, oks)
    ensures old(Sound(store.card.files, store.Held())) && AllAllowed(lists, requests) ==>
              Sound(store.card.files, store.Held()) && AlwaysSound(store.card.trace, old(|store.card.trace|), lists)
  {
    hide Sound, Leads, AlwaysSound, CrashSafe, Allowed, Servable;
    oks, lists := [], [store.Held()];
    NothingYet(store.card.trace, lists);
    var k := 0;
    while k < |requests|
      invariant 0 <= k <= |requests| && store.Valid() && old(store.card.trace) <= store.card.trace
      invariant |oks| == k && |lists| == k + 1 && lists[0] == old(store.Held()) && lists[k] == store.Held()
      invariant Chain(lists, requests, oks)
      invariant old(store.card.faults) <= store.card.faults && old(store.card.unlinkFaults) <= store.card.unlinkFaults
      invariant old(store.storageState) == Ready && TakesServable(requests) ==> store.storageState == Ready
      invariant old(store.storageState) == Ready && TakesServable(requests) && Faultless(store.card) ==>
        AllGranted(lists, requests, oks)
      invariant old(Sound(store.card.files, store.Held())) && AllAllowed(lists, requests) ==>
        Sound(store.card.files, store.Held()) && AlwaysSound(store.card.trace, old(|store.card.trace|), lists)
    {
      ghost var earlier, pre, list := store.card.trace, store.card.files, store.Held();
      var ok := Serve(store, requests[k]);
      if old(Sound(store.card.files, store.Held())) && AllAllowed(lists + [store.Held()], requests) {
        AllowedSoFar(lists, store.Held(), requests);
        SoundHasNames(pre, list);
        SoundHasNames(store.card.files, store.Held());
        SoundFurther(earlier, store.card.trace, old(|store.card.trace|), lists, store.Held());
      }
      oks, lists := oks + [ok], lists + [store.Held()];
      k := k + 1;
    }
  }

  lemma SoundHasNames(files: Files, list: seq<PhotoEntry>)
    requires Sound(files, list)
    ensures DistinctNames(list)
  {}

  lemma AllowedSoFar(lists: seq<seq<PhotoEntry>>, after: seq<PhotoEntry>, requests: seq<Request>)
    requires 0 < |lists| <= |requests| && AllAllowed(lists + [after], requests)
    ensures AllAllowed(lists, requests) && Allowed(lists[|lists| - 1], requests[|lists| - 1])
  {
    hide Allowed;
    var all := lists + [after];
    assert forall i | 0 <= i < |lists| :: all[i] == lists[i];
  }

  lemma NothingYet(trace: seq<Files>, lists: seq<seq<PhotoEntry>>)
    ensures AlwaysSound(trace, |trace|, lists)
  {}

  // ---- which histories are allowed -----------------------------------------------------------------------

  /** A stem is free again once its photo has been deleted. */
  lemma DeletedStemIsFree(list: seq<PhotoEntry>, index: nat)
    requires DistinctNames(list) && index < |list|
    ensures Unlisted(Removed(list, index), list[index].filename)
  {
    var next := Removed(list, index);
    forall x | x in next ensures x.filename != list[index].filename {
      var k :| 0 <= k < |next| && next[k] == x;
      assert x == list[if k < index then k else k + 1];
    }
  }

  /** The names a history can have listed after some requests: those from the start and those of its saves. */
  lemma {:induction false} NamesComeFrom(lists: seq<seq<PhotoEntry>>, requests: seq<Request>, oks: seq<bool>, i: nat,
          e: PhotoEntry)
    requires |oks| <= |requests| && |lists| == |oks| + 1 && Chain(lists, requests, oks)
    requires i < |lists| && e in lists[i]
    ensures e in lists[0] || exists j | 0 <= j < i :: requests[j].Take? && e == EntryOf(requests[j].shot)
    decreases i
  {
    if i > 0 {
      assert Leads(lists[i - 1], requests[i - 1], oks[i - 1], lists[i]);
      if e in lists[i - 1] {
        NamesComeFrom(lists, requests, oks, i - 1, e);
      }
    }
  }

  /** Stems that are unlisted at the start and different from one another allow every history. */
  lemma DistinctStemsAreAllowed(lists: seq<seq<PhotoEntry>>, requests: seq<Request>, oks: seq<bool>)
    requires |oks| == |requests| && |lists| == |oks| + 1 && Chain(lists, requests, oks)
    requires forall i | 0 <= i < |requests| && requests[i].Take? :: Unlisted(lists[0], NameOf(requests[i].shot))
    requires forall i, j | 0 <= i < j < |requests| && requests[i].Take? && requests[j].Take? ::
               NameOf(requests[i].shot) != NameOf(requests[j].shot)
    ensures AllAllowed(lists, requests)
  {
    hide Chain, Leads, Filename;
    forall i | 0 <= i < |requests| ensures Allowed(lists[i], requests[i]) {
      if requests[i].Take? {
        forall e | e in lists[i] ensures e.filename != NameOf(requests[i].shot) {
          NamesComeFrom(lists, requests, oks, i, e);
        }
      }
    }
  }

  // ---- sessions --------------------------------------------------------------------------------------------

  /** What starting a store depends on besides the card. */
  datatype Startup = Startup(root: string, model: string, version: string, directoriesMade: bool, availableBytes: int,
                             configListing: seq<string>, photosListing: seq<string>, thumbnailsListing: seq<string>,
                             listing: Option<seq<PhotoRebuild.DirItem>>)

  predicate Startable(start: Startup) {
    RootAllowed(start.root) && start.directoriesMade && !(0 <= start.availableBytes < MINIMUM_FREE_BYTES)
  }

  /** A new store on any card state of a history: every step keeps the card sound, and the store comes up with one
      of the lists, sound and without a rebuild. */
  method RestartAnywhere(files: Files, ghost lists: seq<seq<PhotoEntry>>, start: Startup) returns (store: PhotoStore)
    requires SoundIn(files, lists)
    ensures fresh(store) && fresh(store.card) && fresh(store.entries) && store.Valid()
    ensures AlwaysSound(store.card.trace, 0, lists)
    ensures store.storageState == Ready ==> store.Held() in lists && Sound(store.card.files, store.Held())
    ensures Startable(start) && store.card.faults == [] ==> store.storageState == Ready
  {
    hide Holds, DistinctNames, CrashSafe;
    ghost var i :| 0 <= i < |lists| && Sound(files, lists[i]);
    var card := new Card(files);
    store := new PhotoStore(card, start.root, start.model, start.version);
    ghost var rebuilt, base, dropped;
    rebuilt, base, dropped := store.Initialize(start.directoriesMade, start.availableBytes, start.configListing,
                                               start.photosListing, start.thumbnailsListing, start.listing);
    StartIsSound(card.trace, lists, i);
  }

  lemma StartIsSound(trace: seq<Files>, lists: seq<seq<PhotoEntry>>, i: nat)
    requires i < |lists| && |trace| > 0 && Sound(trace[0], lists[i]) && CrashSafe(trace, 1, lists[i], lists[i])
    ensures AlwaysSound(trace, 0, lists)
  {
    hide Holds, DistinctNames;
    forall k | 0 <= k < |trace| ensures SoundIn(trace[k], lists) {
      assert Sound(trace[k], lists[i]);
    }
  }

  /** One session after another: restart on what a crash left of the history so far, then serve more requests. The
      longer history is one that any card state of the new trace can be restarted from in turn. */
  method Session(files: Files, ghost lists: seq<seq<PhotoEntry>>, start: Startup, requests: seq<Request>)
    returns (store: PhotoStore, ready: bool, oks: seq<bool>, ghost further: seq<seq<PhotoEntry>>)
    requires SoundIn(files, lists) && AllUsable(requests)
    ensures fresh(store) && store.Valid()
    ensures |oks| == (if ready then |requests| else 0) && |further| == |oks| + 1
    ensures ready ==> further[0] in lists && Chain(further, requests, oks) && store.Held() == further[|requests|]
    ensures AllAllowed(further, requests) ==> AlwaysSound(store.card.trace, 0, lists + further)
    // when nothing fails, the store starts and grants every request it can serve
    ensures Startable(start) && TakesServable(requests) && store.card.faults == [] && store.card.unlinkFaults == 0 ==>
              ready && AllGranted(further, requests, oks)
  {
    hide Sound, AlwaysSound, Chain, AllAllowed, AllGranted;
    store := RestartAnywhere(files, lists, start);
    ghost var started := store.card.trace;
    ready := store.storageState == Ready;
    if !ready {
      oks, further := [], [store.Held()];
      MoreLists(started, 0, lists, lists + further, 0);
      return;
    }
    oks, further := ServeAll(store, requests);
    if AllAllowed(further, requests) {
      MoreLists(started, 0, lists, lists + further, 0);
      MoreLists(store.card.trace, |started|, further, lists + further, |lists|);
      StretchesJoin(started, store.card.trace, lists + further);
    }
  }

  lemma MoreLists(trace: seq<Files>, from: nat, lists: seq<seq<PhotoEntry>>, more: seq<seq<PhotoEntry>>, at: nat)
    requires AlwaysSound(trace, from, lists) && at + |lists| <= |more| && more[at..at + |lists|] == lists
    ensures AlwaysSound(trace, from, more)
  {
    hide SoundIn;
    forall k | from <= k < |trace| ensures SoundIn(trace[k], more) {
      SoundInMore(trace[k], lists, more, at);
    }
  }

  lemma StretchesJoin(earlier: seq<Files>, trace: seq<Files>, lists: seq<seq<PhotoEntry>>)
    requires earlier <= trace && AlwaysSound(earlier, 0, lists) && AlwaysSound(trace, |earlier|, lists)
    ensures AlwaysSound(trace, 0, lists)
  {
    hide SoundIn;
    forall k | 0 <= k < |trace| ensures SoundIn(trace[k], lists) {
      if k < |earlier| {
        assert trace[k] == earlier[k];
      }
    }
  }

  // ---- the photo thread's jobs -------------------------------------------------------------------------

  /** What a job needs apart from a working card. */
  ghost predicate Feasible(store: PhotoStore, job: Worker.Job, shot: Shot)
    requires store.Valid()
    reads store, store.entries, store.card
  {
    match job
    case Save => Servable(0, Take(shot))
    case Load(index) =>
      var list := store.Held();
      0 <= index < |list| && ThumbnailBytes(store.card.files, list[|list| - 1 - index].filename).Some?
    case Delete(index) => 0 <= index < store.entryCount
  }

  /** The job switch of photoRun(). What it does to the number of photos is an outcome the worker's state machine
      allows. */
  method Execute(store: PhotoStore, job: Worker.Job, shot: Shot) returns (ok: bool)
    requires store.Valid() && Usable(shot)
    modifies store`entryCount, store`storageState, store.entries, store.card
    ensures store.Valid() && Worker.Outcome(old(store.entryCount), job, ok, store.entryCount)
    // without a failing operation the job fails only for want of what it needs
    ensures old(store.storageState) == Ready && Faultless(store.card) ==>
              (ok <==> old(Feasible(store, job, shot)))
  {
    hide Holds, Triple, Filename, Sound, CrashSafe;
    match job {
      case Save =>
        ok := store.SavePhoto(shot.thumbnail, shot.jpeg, shot.preset, shot.intensity, shot.adjustments, shot.favorite,
                              shot.timestampMs, shot.availableBytes, shot.time);
        assert |store.Held()| == store.entryCount;
      case Load(index) =>
        var thumbnail := store.LoadThumbnail(index);
        ok := thumbnail.Some?;
      case Delete(index) =>
        ok := store.DeletePhoto(index);
        assert |store.Held()| == store.entryCount;
    }
  }
}
