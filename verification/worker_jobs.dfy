/** The one-deep photo-job slot. Every accepted job is taken once and in order, the photo thread never ends with
    a job pending and never sleeps through one, and once photoRunning_ is cleared at most one more job runs. */
module WorkerJobs {
  import opened Worker
  import opened WorkerLife

  // ---- the invariant -------------------------------------------------------------------------------

  /** Before the store is opened and that is published. */
  predicate Closed(pc: PhotoPc) {
    pc.PhotoUnborn? || AtOpening(pc)
  }

  predicate InJob(pc: PhotoPc) {
    pc.Executing? || pc.FinishLock? || pc.FinishIn?
  }

  predicate Queueing(pc: CallerPc) {
    pc.QueueLock? || pc.QueueIn?
  }

  predicate SlotInv(j: Jobs, pc: PhotoPc) {
    && j.accepted == j.taken + (if j.pending then [j.job] else [])
    && !(j.pending && j.inUse)
    && (j.inUse <==> InJob(pc))
    && (j.pending ==> !Closed(pc) && !pc.PhotoDone?)
  }

  predicate StopInv(j: Jobs) {
    if j.cleared then !j.running && j.takenAfterClear + One(j.pending) <= 1 else j.takenAfterClear == 0
  }

  /** The photo thread sleeps unsignalled only when there is nothing for it to do. */
  predicate WakeInv(j: Jobs, pc: PhotoPc) {
    && (pc.GateAsleep? && !j.signalled ==> j.running && !j.configured)
    && (pc.JobAsleep? && !j.signalled ==> j.running && !j.pending)
  }

  ghost predicate JobsInv(s: State) {
    && SlotInv(s.jobs, s.photo) && StopInv(s.jobs) && WakeInv(s.jobs, s.photo)
    && (s.gallery.ready ==> !Closed(s.photo))
    && (forall id | id in s.callers && Queueing(s.callers[id]) :: !Closed(s.photo))
  }

  // ---- steps of the other threads ---------------------------------------------------------------------

  lemma QueuedKeeps(j: Jobs, job: Job, pc: PhotoPc)
    requires SlotInv(j, pc) && StopInv(j) && WakeInv(j, pc) && !Closed(pc) && (pc.PhotoDone? ==> !j.running)
    ensures var k := Queued(j, job); SlotInv(k, pc) && StopInv(k) && WakeInv(k, pc)
  {}

  lemma ConfiguredKeeps(j: Jobs, status: Status, pc: PhotoPc)
    requires SlotInv(j, pc) && StopInv(j) && WakeInv(j, pc)
    ensures var k := Configured(j, status); SlotInv(k, pc) && StopInv(k) && WakeInv(k, pc)
  {}

  lemma ClearedKeeps(j: Jobs, pc: PhotoPc)
    requires SlotInv(j, pc) && StopInv(j) && WakeInv(j, pc)
    ensures var k := Cleared(j); SlotInv(k, pc) && StopInv(k) && WakeInv(k, pc)
  {}

  lemma CallerKeeps(s: State, id: nat)
    requires JobsInv(s) && LifeInv(s) && CallerCan(s, id)
    ensures JobsInv(CallerNext(s, id))
  {
    var t := CallerNext(s, id);
    assert s.photo.PhotoDone? ==> !s.jobs.running;
    hide Lives, SlotInv, StopInv, WakeInv, Submitted, Changed, Queued, Configured, Moved, JobOf;
    match s.callers[id]
    case QueueIn(call) => QueuedKeeps(s.jobs, JobOf(call, s.gallery), s.photo);
    case ConfigIn(status) => ConfiguredKeeps(s.jobs, status, s.photo);
    case CallIn(call) => ReadyStays(s, call);
    case _ =>
  }

  /** A call asks for the job slot only after it has seen the store ready. */
  lemma ReadyStays(s: State, call: Call)
    ensures CallBody(s, call).1.ready == s.gallery.ready
    ensures CallBody(s, call).2 ==> s.gallery.ready
  {
    hide Submitted, Changed;
  }

  lemma StartKeeps(s: State, created: bool)
    requires JobsInv(s) && LifeInv(s) && ControlCan(s) && AtStart(s.control)
    ensures JobsInv(StartNext(s, created))
  {
    assert s.photo.PhotoUnborn? && (s.jobs.cleared ==> s.control.ReportLock? || s.control.ReportIn?);
    hide Lives;
  }

  lemma StopKeeps(s: State)
    requires JobsInv(s) && ControlCan(s) && !AtStart(s.control)
    ensures JobsInv(StopNext(s))
  {
    hide SlotInv, StopInv, WakeInv, Cleared;
    ClearedKeeps(s.jobs, s.photo);
  }

  lemma ProcessKeeps(s: State, decoded: bool)
    requires JobsInv(s) && ProcessCan(s)
    ensures JobsInv(ProcessNext(s, decoded))
  {
    hide ProcessNext, ProcessCan, SlotInv, StopInv, WakeInv;
    ProcessTouches(s, decoded);
  }

  // ---- steps of the photo thread ------------------------------------------------------------------------

  lemma OpeningKeeps(s: State, ok: bool, loaded: bool, count: nat)
    requires JobsInv(s) && PhotoCan(s, ok, count) && AtOpening(s.photo)
    ensures JobsInv(OpeningNext(s, ok, loaded, count))
  {
    hide Changed;
  }

  lemma LoopKeeps(s: State, ok: bool, count: nat)
    requires JobsInv(s) && PhotoCan(s, ok, count) && !AtOpening(s.photo)
    ensures JobsInv(JobNext(s, ok, count))
  {
    hide TakeNext, PublishNext, JobsInv;
    if AtPublishing(s.photo) {
      PublishKeeps(s, ok);
    } else {
      TakeKeeps(s, ok, count);
    }
  }

  lemma TakeKeeps(s: State, ok: bool, count: nat)
    requires JobsInv(s) && PhotoCan(s, ok, count) && !AtOpening(s.photo) && !AtPublishing(s.photo)
    ensures JobsInv(TakeNext(s, ok, count))
  {
    hide Outcome, StopInv, JobTaken;
    match s.photo
    case JobIn => if s.jobs.pending { TakingKeeps(s.jobs, s.photo); } else { RunningKeeps(s.jobs, false); }
    case FinishIn(job, o) => RunningKeeps(s.jobs, s.jobs.signalled);
    case _ =>
  }

  lemma PublishKeeps(s: State, ready: bool)
    requires JobsInv(s) && PhotoCan(s, ready, 0) && AtPublishing(s.photo)
    ensures JobsInv(PublishNext(s, ready))
  {
    hide Published, Queued, StopInv;
    if s.photo.ReloadIn? {
      QueuedKeeps(s.jobs, Load(s.gallery.index), s.photo);
    }
  }

  /** Putting the slot down, or going to sleep, leaves the count of late jobs alone. */
  lemma RunningKeeps(j: Jobs, signalled: bool)
    requires StopInv(j)
    ensures StopInv(JobFinished(j)) && StopInv(j.(signalled := signalled))
  {}

  lemma TakingKeeps(j: Jobs, pc: PhotoPc)
    requires SlotInv(j, pc) && StopInv(j) && pc.JobIn? && j.pending
    ensures SlotInv(JobTaken(j), Executing(j.job)) && StopInv(JobTaken(j)) && WakeInv(JobTaken(j), Executing(j.job))
  {}

  // ---- every run ------------------------------------------------------------------------------------------

  lemma JobsKept(s: State, a: Action)
    requires LifeInv(s) && JobsInv(s) && Enabled(s, a)
    ensures JobsInv(Next(s, a))
  {
    hide LifeInv, ProcessNext, OpeningNext, JobNext, StartNext, StopNext, CallerNext, SlotInv, StopInv, WakeInv;
    match a
    case RunProcess(decoded) => ProcessKeeps(s, decoded);
    case RunPhoto(ok, loaded, count) =>
      if AtOpening(s.photo) { OpeningKeeps(s, ok, loaded, count); } else { LoopKeeps(s, ok, count); }
    case RunControl(created) => if AtStart(s.control) { StartKeeps(s, created); } else { StopKeeps(s); }
    case RunCaller(id) => CallerKeeps(s, id);
    case _ =>
  }

  lemma JobsAtStart(s: State)
    requires Init(s)
    ensures JobsInv(s)
  {}

  lemma {:induction false} JobsAlways(r: Run, i: nat)
    requires IsRun(r) && i < |r.states|
    ensures JobsInv(r.states[i])
  {
    hide Next, Enabled, Init, LifeInv, JobsInv;
    if i == 0 {
      JobsAtStart(r.states[0]);
    } else {
      JobsAlways(r, i - 1);
      LifeAlways(r, i - 1);
      assert Enabled(r.states[i - 1], r.actions[i - 1]);
      JobsKept(r.states[i - 1], r.actions[i - 1]);
    }
  }

  /** The jobs taken are the jobs accepted, in order, but for the pending one; when the photo thread has ended,
      by the early exit too, none is pending; after photoRunning_ is cleared at most one more is taken. */
  lemma JobsTakenOnce(r: Run, i: nat)
    requires IsRun(r) && i < |r.states|
    ensures var j := r.states[i].jobs;
            && j.accepted == j.taken + (if j.pending then [j.job] else [])
            && (r.states[i].photo.PhotoDone? ==> j.accepted == j.taken)
            && (j.cleared ==> j.takenAfterClear + One(j.pending) <= 1)
  {
    hide IsRun;
    JobsAlways(r, i);
  }

  /** When stop() has returned, every accepted job has been taken and executed. */
  lemma StopDrains(r: Run, i: nat)
    requires IsRun(r) && i < |r.states| && r.states[i].control.Stopped?
    ensures r.states[i].jobs.accepted == r.states[i].jobs.taken && !r.states[i].jobs.inUse
  {
    hide IsRun;
    JobsAlways(r, i);
    LifeAlways(r, i);
  }

  /** No wake-up is lost: asleep and not signalled means the loop condition it sleeps on still holds. */
  lemma NoLostWakeUp(r: Run, i: nat)
    requires IsRun(r) && i < |r.states| && !r.states[i].jobs.signalled
    ensures r.states[i].photo.JobAsleep? ==> r.states[i].jobs.running && !r.states[i].jobs.pending
    ensures r.states[i].photo.GateAsleep? ==> r.states[i].jobs.running && !r.states[i].jobs.configured
  {
    hide IsRun;
    JobsAlways(r, i);
  }

  // ---- save accounting ------------------------------------------------------------------------------------

  function Saves(jobs: seq<Job>): nat {
    if jobs == [] then 0 else Saves(jobs[..|jobs| - 1]) + One(jobs[|jobs| - 1].Save?)
  }

  /** The save the photo thread has taken and not yet published, also between releasing the slot and publishing. */
  predicate Unpublished(pc: PhotoPc) {
    (InJob(pc) || pc.PublishLock? || pc.PublishIn?) && pc.job.Save?
  }

  predicate SavesInv(s: State) {
    Saves(s.jobs.taken) == s.gallery.saved + s.gallery.failed + One(Unpublished(s.photo))
  }

  lemma SavesAppend(jobs: seq<Job>, job: Job)
    ensures Saves(jobs + [job]) == Saves(jobs) + One(job.Save?)
  {
    assert (jobs + [job])[..|jobs|] == jobs;
  }

  lemma PhotoCounts(s: State, ok: bool, loaded: bool, count: nat)
    requires SavesInv(s) && PhotoCan(s, ok, count)
    ensures SavesInv(PhotoNext(s, ok, loaded, count))
  {
    hide OpeningNext, TakeNext, PublishNext, SavesInv;
    if AtOpening(s.photo) {
      OpeningCounts(s, ok, loaded, count);
    } else if AtPublishing(s.photo) {
      PublishCounts(s, ok);
    } else {
      TakeCounts(s, ok, count);
    }
  }

  lemma OpeningCounts(s: State, ok: bool, loaded: bool, count: nat)
    requires SavesInv(s) && PhotoCan(s, ok, count) && AtOpening(s.photo)
    ensures SavesInv(OpeningNext(s, ok, loaded, count))
  {
    hide Saves, Changed;
  }

  lemma TakeCounts(s: State, ok: bool, count: nat)
    requires SavesInv(s) && PhotoCan(s, ok, count) && !AtOpening(s.photo) && !AtPublishing(s.photo)
    ensures SavesInv(TakeNext(s, ok, count))
  {
    hide Saves, Outcome;
    SavesAppend(s.jobs.taken, s.jobs.job);
  }

  lemma PublishCounts(s: State, ready: bool)
    requires SavesInv(s) && PhotoCan(s, ready, 0) && AtPublishing(s.photo)
    ensures SavesInv(PublishNext(s, ready))
  {
    hide Saves, Queued;
    QueueTakesNothing(s.jobs, Load(s.gallery.index));
  }

  lemma QueueTakesNothing(j: Jobs, job: Job)
    ensures Queued(j, job).taken == j.taken
  {}

  /** Nothing a save is counted by changed. */
  predicate SameCount(s: State, t: State) {
    && t.jobs.taken == s.jobs.taken && t.gallery.saved == s.gallery.saved
    && t.gallery.failed == s.gallery.failed && Unpublished(t.photo) == Unpublished(s.photo)
  }

  lemma ControlDoesNotCount(s: State, created: bool)
    requires LifeInv(s) && ControlCan(s)
    ensures SameCount(s, ControlNext(s, created))
  {
    assert BeforePhoto(s.control) ==> s.photo.PhotoUnborn?;
    hide Lives;
    if AtStart(s.control) {}
  }

  lemma CallerDoesNotCount(s: State, id: nat)
    requires CallerCan(s, id)
    ensures SameCount(s, CallerNext(s, id))
  {
    hide Submitted, Changed, JobOf;
  }

  lemma SavesKept(s: State, a: Action)
    requires LifeInv(s) && SavesInv(s) && Enabled(s, a)
    ensures SavesInv(Next(s, a))
  {
    hide LifeInv, ProcessNext, PhotoNext, ControlNext, CallerNext, ProcessCan, PhotoCan, ControlCan, CallerCan,
        MayBegin;
    hide Saves;
    match a
    case RunProcess(decoded) => ProcessTouches(s, decoded);
    case RunPhoto(ok, loaded, count) => PhotoCounts(s, ok, loaded, count);
    case RunControl(created) => ControlDoesNotCount(s, created);
    case RunCaller(id) => CallerDoesNotCount(s, id);
    case _ =>
  }

  lemma SavesAtStart(s: State)
    requires Init(s)
    ensures SavesInv(s)
  {}

  lemma {:induction false} SavesAlways(r: Run, i: nat)
    requires IsRun(r) && i < |r.states|
    ensures SavesInv(r.states[i])
  {
    hide Next, Enabled, Init, LifeInv, SavesInv;
    if i == 0 {
      SavesAtStart(r.states[0]);
    } else {
      SavesAlways(r, i - 1);
      LifeAlways(r, i - 1);
      assert Enabled(r.states[i - 1], r.actions[i - 1]);
      SavesKept(r.states[i - 1], r.actions[i - 1]);
    }
  }

  /** Accepted save requests are the saved ones, the failed ones, the pending one and the one taken and not yet
      published; at most two are unresolved. */
  lemma SavesAccounted(r: Run, i: nat)
    requires IsRun(r) && i < |r.states|
    ensures var s := r.states[i];
            Saves(s.jobs.accepted) == s.gallery.saved + s.gallery.failed
                                      + One(s.jobs.pending && s.jobs.job.Save?) + One(Unpublished(s.photo))
  {
    hide IsRun, Saves;
    JobsAlways(r, i);
    SavesAlways(r, i);
    SavesAppend(r.states[i].jobs.taken, r.states[i].jobs.job);
    assert r.states[i].jobs.taken + [] == r.states[i].jobs.taken;
  }
}
