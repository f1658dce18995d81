/** What the UI shows of the photo store. Outside the span from executing a job to publishing it the shown count
    is the store's, and the selected photo exists or is the first. */
module WorkerGallery {
  import opened Worker
  import opened WorkerLife

  predicate Unopened(pc: PhotoPc) {
    pc.PhotoUnborn? || pc.GateLock? || pc.GateIn? || pc.GateAsleep? || pc.Opening?
  }

  /** Executed and not yet published. */
  predicate InSpan(pc: PhotoPc) {
    pc.FinishLock? || pc.FinishIn? || pc.PublishLock? || pc.PublishIn?
  }

  predicate GalleryInv(g: Gallery, stored: nat, pc: PhotoPc) {
    && stored <= MAX_STORED
    && 0 <= g.index && (g.index == 0 || g.index < g.photoCount)
    && (Unopened(pc) ==> stored == 0)
    && (Unopened(pc) || pc.OpenedLock? || pc.OpenedIn? ==> g.photoCount == 0)
    && (InSpan(pc) ==> Outcome(g.photoCount, pc.job, pc.ok, stored))
    && (!InSpan(pc) && !pc.OpenedLock? && !pc.OpenedIn? ==> g.photoCount == stored)
  }

  lemma OpeningKeeps(s: State, ok: bool, loaded: bool, count: nat)
    requires GalleryInv(s.gallery, s.stored, s.photo) && PhotoCan(s, ok, count) && AtOpening(s.photo)
    ensures var t := OpeningNext(s, ok, loaded, count); GalleryInv(t.gallery, t.stored, t.photo)
  {
    hide Changed, Outcome;
  }

  lemma JobKeeps(s: State, ok: bool, count: nat)
    requires GalleryInv(s.gallery, s.stored, s.photo) && PhotoCan(s, ok, count) && !AtOpening(s.photo)
    ensures var t := JobNext(s, ok, count); GalleryInv(t.gallery, t.stored, t.photo)
  {
    hide TakeNext, PublishNext, GalleryInv;
    if AtPublishing(s.photo) {
      PublishKeeps(s, ok);
    } else {
      TakeKeeps(s, ok, count);
    }
  }

  lemma TakeKeeps(s: State, ok: bool, count: nat)
    requires GalleryInv(s.gallery, s.stored, s.photo) && PhotoCan(s, ok, count)
    requires !AtOpening(s.photo) && !AtPublishing(s.photo)
    ensures var t := TakeNext(s, ok, count); GalleryInv(t.gallery, t.stored, t.photo)
  {
    hide JobTaken, JobFinished;
  }

  lemma PublishKeeps(s: State, ready: bool)
    requires GalleryInv(s.gallery, s.stored, s.photo) && PhotoCan(s, ready, 0) && AtPublishing(s.photo)
    ensures var t := PublishNext(s, ready); GalleryInv(t.gallery, t.stored, t.photo)
  {
    hide Queued;
  }

  lemma CallKeeps(s: State, call: Call, pc: PhotoPc)
    requires GalleryInv(s.gallery, s.stored, pc) && (call.Move? ==> call.direction == 1 || call.direction == -1)
    ensures GalleryInv(CallBody(s, call).1, s.stored, pc)
  {
    hide Submitted, Changed, Outcome;
    if call.Move? && s.gallery.photoCount > 0 {
      MoveStaysInside(s.gallery.index, call.direction, s.gallery.photoCount);
    }
  }

  /** One photo on or back, around the ends, from a photo that exists. */
  lemma MoveStaysInside(index: int, direction: int, count: nat)
    requires count > 0 && 0 <= index && (index == 0 || index < count) && (direction == 1 || direction == -1)
    ensures 0 <= (index + direction + count) % count < count
    ensures (index + direction + count) % count == if direction == 1 then (if index + 1 < count then index + 1 else 0)
                                                   else (if index > 0 then index - 1 else count - 1)
  {}

  /** Only moves by one are ever in a call. */
  predicate PlainCall(pc: CallerPc) {
    (pc.CallLock? || pc.CallIn?) && pc.call.Move? ==> pc.call.direction == 1 || pc.call.direction == -1
  }

  ghost predicate ViewInv(s: State) {
    && GalleryInv(s.gallery, s.stored, s.photo)
    && forall id | id in s.callers :: PlainCall(s.callers[id])
  }

  lemma CallerKeeps(s: State, id: nat)
    requires ViewInv(s) && CallerCan(s, id)
    ensures ViewInv(CallerNext(s, id))
  {
    hide GalleryInv, Queued, Configured, JobOf;
    assert PlainCall(s.callers[id]);
    if s.callers[id].CallIn? {
      CallKeeps(s, s.callers[id].call, s.photo);
    }
    hide CallBody;
  }

  lemma ControlKeeps(s: State, created: bool)
    requires ViewInv(s) && LifeInv(s) && ControlCan(s)
    ensures ViewInv(ControlNext(s, created))
  {
    assert BeforePhoto(s.control) ==> s.photo.PhotoUnborn?;
    hide Lives, Cleared;
    if AtStart(s.control) {}
  }

  lemma ViewKept(s: State, a: Action)
    requires LifeInv(s) && ViewInv(s) && Enabled(s, a)
    ensures ViewInv(Next(s, a))
  {
    hide LifeInv, ProcessNext, OpeningNext, JobNext, ControlNext, CallerNext, ProcessCan, ControlCan, CallerCan,
        GalleryInv;
    match a
    case RunProcess(decoded) => ProcessTouches(s, decoded);
    case RunPhoto(ok, loaded, count) =>
      PhotoTouches(s, ok, loaded, count);
      if AtOpening(s.photo) { OpeningKeeps(s, ok, loaded, count); } else { JobKeeps(s, ok, count); }
    case RunControl(created) => ControlKeeps(s, created);
    case RunCaller(id) => CallerKeeps(s, id);
    case _ =>
  }

  lemma ViewAtStart(s: State)
    requires Init(s)
    ensures ViewInv(s)
  {}

  lemma {:induction false} ViewAlways(r: Run, i: nat)
    requires IsRun(r) && i < |r.states|
    ensures ViewInv(r.states[i])
  {
    hide Next, Enabled, Init, LifeInv, ViewInv;
    if i == 0 {
      ViewAtStart(r.states[0]);
    } else {
      ViewAlways(r, i - 1);
      LifeAlways(r, i - 1);
      assert Enabled(r.states[i - 1], r.actions[i - 1]);
      ViewKept(r.states[i - 1], r.actions[i - 1]);
    }
  }

  /** The gallery agrees with the store, and what it has selected exists. */
  lemma GalleryAgrees(r: Run, i: nat)
    requires IsRun(r) && i < |r.states|
    ensures var s := r.states[i];
            && 0 <= s.gallery.index && (s.gallery.index == 0 || s.gallery.index < s.gallery.photoCount)
            && (!InSpan(s.photo) && !s.photo.OpenedLock? && !s.photo.OpenedIn? ==> s.gallery.photoCount == s.stored)
            && (InSpan(s.photo) ==> Outcome(s.gallery.photoCount, s.photo.job, s.photo.ok, s.stored))
  {
    hide IsRun;
    ViewAlways(r, i);
  }
}
