/** What callers are told against what happened: the saved and failed counters count the executed saves of the run
    by their outcome, the frame counters the frames, every job was asked for by the call it belongs to, and the
    gallery moves photo by photo. */
module WorkerResults {
  import opened Worker
  import opened WorkerLife
  import opened WorkerGallery

  // ---- counting steps of a run -----------------------------------------------------------------------------

  /** The photo thread executes a save with this outcome. */
  predicate ExecutesSave(s: State, a: Action, ok: bool) {
    a.RunPhoto? && s.photo == Executing(Save) && a.ok == ok
  }

  /** The photo thread publishes a save of this outcome. */
  predicate PublishesSave(s: State, a: Action, ok: bool) {
    a.RunPhoto? && s.photo == PublishIn(Save, ok)
  }

  /** The number of steps before state i that execute a save with this outcome. */
  ghost function SavesExecuted(r: Run, i: nat, ok: bool): nat
    requires i <= |r.actions| <= |r.states|
  {
    if i == 0 then 0 else SavesExecuted(r, i - 1, ok) + One(ExecutesSave(r.states[i - 1], r.actions[i - 1], ok))
  }

  ghost function SavesPublished(r: Run, i: nat, ok: bool): nat
    requires i <= |r.actions| <= |r.states|
  {
    if i == 0 then 0 else SavesPublished(r, i - 1, ok) + One(PublishesSave(r.states[i - 1], r.actions[i - 1], ok))
  }

  /** A save with this outcome has been executed and not yet published. */
  predicate Reporting(pc: PhotoPc, ok: bool) {
    (pc.FinishLock? || pc.FinishIn? || pc.PublishLock? || pc.PublishIn?) && pc.job == Save && pc.ok == ok
  }

  // ---- the two counters --------------------------------------------------------------------------------------

  /** What one step does to the counters and to the save on its way to them. */
  predicate Counted(s: State, a: Action, t: State) {
    && t.gallery.saved == s.gallery.saved + One(PublishesSave(s, a, true))
    && t.gallery.failed == s.gallery.failed + One(PublishesSave(s, a, false))
    && forall ok ::
         One(Reporting(t.photo, ok)) + One(PublishesSave(s, a, ok))
         == One(Reporting(s.photo, ok)) + One(ExecutesSave(s, a, ok))
  }

  lemma OpeningCounted(s: State, ok: bool, loaded: bool, count: nat)
    requires PhotoCan(s, ok, count) && AtOpening(s.photo)
    ensures Counted(s, RunPhoto(ok, loaded, count), OpeningNext(s, ok, loaded, count))
  {
    hide Changed;
  }

  lemma TakeCounted(s: State, ok: bool, loaded: bool, count: nat)
    requires PhotoCan(s, ok, count) && !AtOpening(s.photo) && !AtPublishing(s.photo)
    ensures Counted(s, RunPhoto(ok, loaded, count), TakeNext(s, ok, count))
  {
    hide Outcome, JobTaken, JobFinished;
  }

  lemma PublishCounted(s: State, ok: bool, loaded: bool, count: nat)
    requires PhotoCan(s, ok, 0) && AtPublishing(s.photo)
    ensures Counted(s, RunPhoto(ok, loaded, count), PublishNext(s, ok))
  {
    hide Queued;
  }

  lemma OthersCounted(s: State, a: Action)
    requires LifeInv(s) && Enabled(s, a) && !a.RunPhoto?
    ensures Counted(s, a, Next(s, a))
  {
    hide LifeInv, ProcessNext, ControlNext, CallerNext, ProcessCan, ControlCan, CallerCan;
    match a
    case RunProcess(decoded) => ProcessTouches(s, decoded);
    case RunControl(created) => ControlLeavesCounters(s, created);
    case RunCaller(id) => CallerLeavesCounters(s, id);
    case _ =>
  }

  lemma ControlLeavesCounters(s: State, created: bool)
    requires LifeInv(s) && ControlCan(s)
    ensures var t := ControlNext(s, created);
            && t.gallery.saved == s.gallery.saved && t.gallery.failed == s.gallery.failed
            && forall ok :: Reporting(t.photo, ok) == Reporting(s.photo, ok)
  {
    assert BeforePhoto(s.control) ==> s.photo.PhotoUnborn?;
    hide Lives, Cleared;
    if AtStart(s.control) {}
  }

  lemma CallerLeavesCounters(s: State, id: nat)
    requires CallerCan(s, id)
    ensures var t := CallerNext(s, id);
            t.gallery.saved == s.gallery.saved && t.gallery.failed == s.gallery.failed && t.photo == s.photo
  {
    hide Submitted, Changed, Queued, Configured, JobOf;
  }

  lemma StepCounted(s: State, a: Action)
    requires LifeInv(s) && Enabled(s, a)
    ensures Counted(s, a, Next(s, a))
  {
    hide LifeInv, Counted, OpeningNext, TakeNext, PublishNext, ProcessCan, ControlCan, CallerCan;
    if a.RunPhoto? {
      if AtOpening(s.photo) {
        OpeningCounted(s, a.ok, a.loaded, a.count);
      } else if AtPublishing(s.photo) {
        PublishCounted(s, a.ok, a.loaded, a.count);
      } else {
        TakeCounted(s, a.ok, a.loaded, a.count);
      }
    } else {
      OthersCounted(s, a);
    }
  }

  /** In every state of every run the two counters are the numbers of saves published as done and as failed, and
      every executed save has been published under its own outcome or is on its way. */
  lemma {:induction false} SavesReported(r: Run, i: nat)
    requires IsRun(r) && i < |r.states|
    ensures r.states[i].gallery.saved == SavesPublished(r, i, true)
    ensures r.states[i].gallery.failed == SavesPublished(r, i, false)
    ensures forall ok ::
              SavesExecuted(r, i, ok) == SavesPublished(r, i, ok) + One(Reporting(r.states[i].photo, ok))
  {
    hide Next, Enabled, LifeInv;
    if i > 0 {
      SavesReported(r, i - 1);
      LifeAlways(r, i - 1);
      assert Enabled(r.states[i - 1], r.actions[i - 1]);
      StepCounted(r.states[i - 1], r.actions[i - 1]);
    }
  }

  // ---- who asked for a job ---------------------------------------------------------------------------------

  /** The job a step adds to the accepted ones: a photo request a save, a confirmed deletion the deletion of the photo
      shown, every other call and a finished deletion the thumbnail of the photo shown; nothing when the photo thread
      is not running or the slot is taken. */
  ghost function AskedFor(s: State, a: Action): seq<Job> {
    if !s.jobs.running || s.jobs.pending || s.jobs.inUse then []
    else if a.RunPhoto? && s.photo.ReloadIn? then [Load(s.gallery.index)]
    else if a.RunCaller? && a.caller in s.callers && s.callers[a.caller].QueueIn? then
      match s.callers[a.caller].call
      case Request => [Save]
      case Erase => [Delete(s.gallery.index)]
      case _ => [Load(s.gallery.index)]
    else []
  }

  lemma CallerAsks(s: State, id: nat)
    requires CallerCan(s, id)
    ensures CallerNext(s, id).jobs.accepted == s.jobs.accepted + AskedFor(s, RunCaller(id))
  {
    hide Submitted, Changed, Moved;
    assert s.jobs.accepted + [] == s.jobs.accepted;
  }

  lemma PhotoAsks(s: State, ok: bool, loaded: bool, count: nat)
    requires PhotoCan(s, ok, count)
    ensures PhotoNext(s, ok, loaded, count).jobs.accepted == s.jobs.accepted + AskedFor(s, RunPhoto(ok, loaded, count))
  {
    hide Outcome, Published, Changed;
    assert s.jobs.accepted + [] == s.jobs.accepted;
    if AtOpening(s.photo) {} else if AtPublishing(s.photo) {}
  }

  lemma ControlAsksNothing(s: State, created: bool)
    requires ControlCan(s)
    ensures ControlNext(s, created).jobs.accepted == s.jobs.accepted
  {
    if AtStart(s.control) {}
  }

  lemma StepAsks(s: State, a: Action)
    requires Enabled(s, a)
    ensures Next(s, a).jobs.accepted == s.jobs.accepted + AskedFor(s, a)
  {
    hide ProcessNext, PhotoNext, ControlNext, CallerNext, ProcessCan, PhotoCan, ControlCan, CallerCan;
    assert s.jobs.accepted + [] == s.jobs.accepted;
    match a
    case RunProcess(decoded) => ProcessTouches(s, decoded);
    case RunPhoto(ok, loaded, count) => PhotoAsks(s, ok, loaded, count);
    case RunControl(created) => ControlAsksNothing(s, created);
    case RunCaller(id) => CallerAsks(s, id);
    case _ =>
  }

  /** Everything asked for up to state i, in order. */
  ghost function AllAsked(r: Run, i: nat): seq<Job>
    requires i <= |r.actions| <= |r.states|
  {
    if i == 0 then [] else AllAsked(r, i - 1) + AskedFor(r.states[i - 1], r.actions[i - 1])
  }

  /** The accepted jobs of a run are exactly those its calls asked for. */
  lemma {:induction false} JobsWereAsked(r: Run, i: nat)
    requires IsRun(r) && i < |r.states|
    ensures r.states[i].jobs.accepted == AllAsked(r, i)
  {
    hide Next, Enabled, AskedFor;
    if i > 0 {
      JobsWereAsked(r, i - 1);
      assert Enabled(r.states[i - 1], r.actions[i - 1]);
      StepAsks(r.states[i - 1], r.actions[i - 1]);
    }
  }

  // ---- moving through the gallery ------------------------------------------------------------------------------

  /** In every reachable state a key press shows the next photo, after the last one the first, or the other way. */
  lemma MovesGoAround(r: Run, i: nat, id: nat)
    requires IsRun(r) && i < |r.actions| && r.actions[i] == RunCaller(id)
    requires id in r.states[i].callers && r.states[i].callers[id].CallIn? && r.states[i].callers[id].call.Move?
    requires r.states[i].gallery.photoCount > 0
    ensures var s := r.states[i];
            var here, last, next := s.gallery.index, s.gallery.photoCount - 1, r.states[i + 1].gallery.index;
            && r.states[i + 1].gallery == s.gallery.(index := next)
            && next == if s.callers[id].call.direction == 1 then (if here == last then 0 else here + 1)
                       else (if here == 0 then last else here - 1)
  {
    var s := r.states[i];
    assert Enabled(s, r.actions[i]) && r.states[i + 1] == Next(s, r.actions[i]);
    hide IsRun;
    ViewAlways(r, i);
    assert PlainCall(s.callers[id]);
    MoveStaysInside(s.gallery.index, s.callers[id].call.direction, s.gallery.photoCount);
  }

  /** A call goes on to the job slot exactly when what it needs is there, and is over otherwise: a photo request a
      filtered frame and a store, the others a store with photos. */
  lemma CallsAreChecked(r: Run, i: nat, id: nat)
    requires IsRun(r) && i < |r.actions| && r.actions[i] == RunCaller(id)
    requires id in r.states[i].callers && r.states[i].callers[id].CallIn?
    ensures id in r.states[i + 1].callers
    ensures var s := r.states[i];
            var call, stocked := s.callers[id].call, s.gallery.ready && s.gallery.photoCount > 0;
            var goesOn := match call
                          case Request => s.frames.hasPrevious && s.gallery.ready
                          case Move(_) => stocked
                          case Open(reload) => reload && stocked
                          case Erase => stocked
                          case _ => false;
            r.states[i + 1].callers[id] == if goesOn then QueueLock(call) else Idle
  {
    var s := r.states[i];
    assert Enabled(s, r.actions[i]) && r.states[i + 1] == Next(s, r.actions[i]);
    hide IsRun, Submitted, Changed, Moved;
  }

  // ---- frames and the storage gate ------------------------------------------------------------------------------

  /** A frame is submitted to a running worker whose slot is empty. */
  predicate AcceptsFrame(s: State, a: Action) {
    && a.RunCaller? && a.caller in s.callers && s.callers[a.caller] == CallIn(Submit)
    && s.frames.running && !s.frames.pending && !s.frames.inUse
  }

  predicate FinishesFrame(s: State, a: Action, decoded: bool) {
    a.RunProcess? && s.process.FrameIn? && s.process.decoded == decoded
  }

  /** A caller reports a storage status that opens the gate. */
  predicate OpensGate(s: State, a: Action) {
    && a.RunCaller? && a.caller in s.callers && s.callers[a.caller].ConfigIn?
    && s.callers[a.caller].status != Initializing
  }

  ghost function FrameCounts(r: Run, i: nat): (nat, nat, nat)
    requires i <= |r.actions| <= |r.states|
  {
    if i == 0 then (0, 0, 0) else
    var before, s, a := FrameCounts(r, i - 1), r.states[i - 1], r.actions[i - 1];
    (before.0 + One(AcceptsFrame(s, a)), before.1 + One(FinishesFrame(s, a, true)),
     before.2 + One(FinishesFrame(s, a, false)))
  }

  /** What one step does to the frame counters and to the gate. */
  predicate FrameCounted(s: State, a: Action, t: State) {
    && t.frames.accepted == s.frames.accepted + One(AcceptsFrame(s, a))
    && t.frames.processed == s.frames.processed + One(FinishesFrame(s, a, true))
    && t.frames.failures == s.frames.failures + One(FinishesFrame(s, a, false))
    && (t.jobs.configured <==> s.jobs.configured || OpensGate(s, a))
    && (s.jobs.configured ==> t.jobs.status == s.jobs.status)
    && (OpensGate(s, a) && !s.jobs.configured ==> t.jobs.status == s.callers[a.caller].status)
  }

  lemma ProcessCountsFrames(s: State, decoded: bool)
    requires ProcessCan(s)
    ensures FrameCounted(s, RunProcess(decoded), ProcessNext(s, decoded))
  {
    hide UsesHistory;
    match s.process
    case LoopIn => if !s.frames.running {} else if s.frames.pending {} else if s.frames.styleDirty && s.frames.hasRaw {}
    case FrameIn(t, d) => if d {}
    case _ =>
  }

  lemma PhotoCountsFrames(s: State, ok: bool, loaded: bool, count: nat)
    requires PhotoCan(s, ok, count)
    ensures FrameCounted(s, RunPhoto(ok, loaded, count), PhotoNext(s, ok, loaded, count))
  {
    hide FrameCounted, OpeningNext, JobNext;
    if AtOpening(s.photo) {
      OpeningCountsFrames(s, ok, loaded, count);
    } else {
      JobCountsFrames(s, ok, loaded, count);
    }
  }

  lemma OpeningCountsFrames(s: State, ok: bool, loaded: bool, count: nat)
    requires PhotoCan(s, ok, count) && AtOpening(s.photo)
    ensures FrameCounted(s, RunPhoto(ok, loaded, count), OpeningNext(s, ok, loaded, count))
  {
    hide Changed;
    SlotCounts(s.frames);
  }

  lemma JobCountsFrames(s: State, ok: bool, loaded: bool, count: nat)
    requires PhotoCan(s, ok, count) && !AtOpening(s.photo)
    ensures FrameCounted(s, RunPhoto(ok, loaded, count), JobNext(s, ok, count))
  {
    hide Outcome, Published, Queued;
    GateStays(s.jobs);
    if AtPublishing(s.photo) {}
  }

  lemma SlotCounts(f: Frames)
    ensures Changed(f).accepted == f.accepted && Submitted(f).processed == Changed(f).processed == f.processed
    ensures Submitted(f).failures == Changed(f).failures == f.failures
    ensures Submitted(f).accepted == f.accepted + One(f.running && !f.pending && !f.inUse)
  {}

  lemma GateStays(j: Jobs)
    ensures forall job :: Queued(j, job).configured == j.configured && Queued(j, job).status == j.status
    ensures forall status :: Configured(j, status).configured <==> j.configured || status != Initializing
    ensures forall status :: !j.configured ==> Configured(j, status).status == status
    ensures forall status :: j.configured ==> Configured(j, status).status == j.status
  {}

  lemma ControlCountsFrames(s: State, created: bool)
    requires ControlCan(s)
    ensures FrameCounted(s, RunControl(created), ControlNext(s, created))
  {
    if AtStart(s.control) {}
  }

  lemma CallerCountsFrames(s: State, id: nat)
    requires CallerCan(s, id)
    ensures FrameCounted(s, RunCaller(id), CallerNext(s, id))
  {
    hide Moved, JobOf, Submitted, Changed, Queued, Configured;
    SlotCounts(s.frames);
    GateStays(s.jobs);
  }

  lemma StepCountsFrames(s: State, a: Action)
    requires Enabled(s, a)
    ensures FrameCounted(s, a, Next(s, a))
  {
    hide FrameCounted, ProcessNext, PhotoNext, ControlNext, CallerNext, ProcessCan, PhotoCan, ControlCan, CallerCan;
    match a
    case RunProcess(decoded) => ProcessCountsFrames(s, decoded);
    case RunPhoto(ok, loaded, count) => PhotoCountsFrames(s, ok, loaded, count);
    case RunControl(created) => ControlCountsFrames(s, created);
    case RunCaller(id) => CallerCountsFrames(s, id);
    case Begin(_, _) => NothingCounted(s, a, Next(s, a));
    case Configure(_, _) => NothingCounted(s, a, Next(s, a));
  }

  lemma NothingCounted(s: State, a: Action, t: State)
    requires (a.Begin? || a.Configure?) && t.frames == s.frames && t.jobs == s.jobs
    ensures FrameCounted(s, a, t)
  {}

  /** In every state the three frame counters are the numbers of submissions to an empty slot, of frames decoded and
      of frames lost, and the storage gate is open exactly when it was at the start or a caller has opened it. */
  lemma {:induction false} FramesReported(r: Run, i: nat)
    requires IsRun(r) && i < |r.states|
    ensures var f := r.states[i].frames; (f.accepted, f.processed, f.failures) == FrameCounts(r, i)
    ensures r.states[i].jobs.configured <==>
              r.states[0].jobs.configured || exists k | 0 <= k < i :: OpensGate(r.states[k], r.actions[k])
  {
    hide Next, Enabled, AcceptsFrame, FinishesFrame, OpensGate;
    if i > 0 {
      FramesReported(r, i - 1);
      assert Enabled(r.states[i - 1], r.actions[i - 1]);
      StepCountsFrames(r.states[i - 1], r.actions[i - 1]);
      assert OpensGate(r.states[i - 1], r.actions[i - 1]) || !OpensGate(r.states[i - 1], r.actions[i - 1]);
    }
  }

  // ---- the store behind the gallery -------------------------------------------------------------------------------

  /** A caller has reported that the storage is ready. */
  predicate Served(j: Jobs) {
    j.configured && j.status == Ready
  }

  /** Between taking a job and having published it. */
  predicate Working(pc: PhotoPc) {
    || pc.Executing? || pc.FinishLock? || pc.FinishIn? || pc.PublishLock? || pc.PublishIn? || pc.ReloadLock?
    || pc.ReloadIn? || pc.PublishEnd?
  }

  predicate Waiting(pc: CallerPc) {
    pc.QueueLock? || pc.QueueIn?
  }

  ghost predicate ServedInv(s: State) {
    && (s.photo.Opening? ==> s.jobs.configured && s.photo.status == s.jobs.status)
    && ((s.photo.OpenedLock? || s.photo.OpenedIn?) && s.photo.ok ==> Served(s.jobs))
    && (s.gallery.ready || s.jobs.pending || Working(s.photo) ==> Served(s.jobs))
    && (forall id | id in s.callers && Waiting(s.callers[id]) :: Served(s.jobs))
  }

  lemma PhotoServes(s: State, ok: bool, loaded: bool, count: nat)
    requires ServedInv(s) && PhotoCan(s, ok, count)
    ensures ServedInv(PhotoNext(s, ok, loaded, count))
  {
    hide Outcome, Changed;
    if AtOpening(s.photo) {} else if AtPublishing(s.photo) {}
  }

  lemma ControlServes(s: State, created: bool)
    requires ServedInv(s) && LifeInv(s) && ControlCan(s)
    ensures ServedInv(ControlNext(s, created))
  {
    hide LifeInv, ServedInv, StartNext, StopNext;
    if AtStart(s.control) {
      StartServes(s, created);
    } else {
      StopServes(s);
    }
  }

  lemma StartServes(s: State, created: bool)
    requires ServedInv(s) && LifeInv(s) && ControlCan(s) && AtStart(s.control)
    ensures ServedInv(StartNext(s, created))
  {
    assert BeforePhoto(s.control) ==> s.photo.PhotoUnborn?;
    hide Lives;
  }

  lemma StopServes(s: State)
    requires ServedInv(s) && ControlCan(s) && !AtStart(s.control)
    ensures ServedInv(StopNext(s))
  {}

  lemma CallerServes(s: State, id: nat)
    requires ServedInv(s) && CallerCan(s, id)
    ensures ServedInv(CallerNext(s, id))
  {
    hide Submitted, Changed, JobOf, CallBody;
    if s.callers[id].CallIn? {
      StaysServed(s, s.callers[id].call);
    }
    ServesNoLess(s.jobs);
    hide Queued, Configured;
  }

  /** A call leaves the gallery as ready as it was, and asks for the slot only when it is. */
  lemma StaysServed(s: State, call: Call)
    ensures CallBody(s, call).1.ready == s.gallery.ready && (CallBody(s, call).2 ==> s.gallery.ready)
  {
    hide Submitted, Changed;
  }

  lemma ServesNoLess(j: Jobs)
    ensures forall job ::
              var q := Queued(j, job);
              q.configured == j.configured && q.status == j.status && (q.pending ==> j.pending || CanQueue(j))
    ensures forall status ::
              var q := Configured(j, status);
              q.pending == j.pending && (j.configured ==> q.configured && q.status == j.status)
  {}

  lemma StepServes(s: State, a: Action)
    requires LifeInv(s) && ServedInv(s) && Enabled(s, a)
    ensures ServedInv(Next(s, a))
  {
    hide LifeInv, ProcessNext, PhotoNext, ControlNext, CallerNext, ProcessCan, PhotoCan, ControlCan, CallerCan;
    match a
    case RunProcess(decoded) => ProcessTouches(s, decoded);
    case RunPhoto(ok, loaded, count) => PhotoServes(s, ok, loaded, count);
    case RunControl(created) => ControlServes(s, created);
    case RunCaller(id) => CallerServes(s, id);
    case _ =>
  }

  lemma {:induction false} ServedAlways(r: Run, i: nat)
    requires IsRun(r) && i < |r.states|
    ensures ServedInv(r.states[i])
  {
    hide Next, Enabled, LifeInv, ServedInv;
    if i == 0 {
      assert ServedInv(r.states[0]) by { NobodyServed(r.states[0]); }
    } else {
      ServedAlways(r, i - 1);
      LifeAlways(r, i - 1);
      assert Enabled(r.states[i - 1], r.actions[i - 1]);
      StepServes(r.states[i - 1], r.actions[i - 1]);
    }
  }

  lemma NobodyServed(s: State)
    requires Init(s)
    ensures ServedInv(s)
  {}

  /** No photo job is accepted or executed, and the gallery never shows a store, unless the first status reported was
      that the storage is ready. */
  lemma NothingBeforeTheStore(r: Run, i: nat)
    requires IsRun(r) && i < |r.states|
    ensures var s := r.states[i];
            s.gallery.ready || s.jobs.pending || s.photo.Executing? ==> s.jobs.configured && s.jobs.status == Ready
  {
    hide IsRun;
    ServedAlways(r, i);
  }
}
