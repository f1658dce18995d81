/** Every schedule ends. While no new call arrives each step uses up work that is there from the beginning, vain
    wake-ups apart, and the threads come to rest only when start() has failed or stop() has returned. */
module WorkerShutdown {
  import opened Worker
  import opened WorkerLife
  import opened WorkerLocks
  import opened WorkerWindow
  import opened WorkerRelease

  // ---- schedules -----------------------------------------------------------------------------------------

  /** The process thread has something to do. */
  predicate FrameDue(f: Frames) {
    !f.running || f.pending || (f.styleDirty && f.hasRaw)
  }

  /** The condition the photo thread waits on at the storage gate, or for a job, no longer holds. */
  predicate GateDue(j: Jobs) {
    !j.running || j.configured
  }

  predicate JobDue(j: Jobs) {
    !j.running || j.pending
  }

  /** A step of a thread, or of a call under way, that wakes nobody in vain. */
  predicate Due(s: State, a: Action) {
    match a
    case RunProcess(_) => s.process.Asleep? ==> FrameDue(s.frames)
    case RunPhoto(_, _, _) => (s.photo.GateAsleep? ==> GateDue(s.jobs)) && (s.photo.JobAsleep? ==> JobDue(s.jobs))
    case RunControl(_) => true
    case RunCaller(_) => true
    case _ => false
  }

  // ---- the work left ---------------------------------------------------------------------------------------

  /** Steps of the process thread: what it has begun, and what lies in the frame slot. */
  function ProcessPart(f: Frames, pc: ProcessPc): nat {
    10 * One(f.pending) + 10 * One(f.styleDirty) +
    match pc
    case ProcessUnborn | ProcessDone => 0
    case Asleep => 3 * One(FrameDue(f))
    case LoopIn => 1
    case LoopLock => 2
    case FrameIn(_, _) | RefilterIn(_) => 4
    case FrameLock(_, _) | RefilterLock(_) => 5
    case Decoding(_) | Refiltering(_) => 6
  }

  /** A delete may ask for one more job, a thumbnail to show. */
  function JobPart(job: Job): nat {
    if job.Delete? then 40 else 20
  }

  function PhotoPosition(j: Jobs, pc: PhotoPc): nat {
    match pc
    case PhotoUnborn | PhotoDone => 0
    case GateAsleep => 21 * One(GateDue(j))
    case GateLock => 20
    case GateIn => 19
    case Opening(_) => 18
    case OpenedLock(_, _) => 17
    case OpenedIn(_, _) => 16
    case JobAsleep => 3 * One(JobDue(j))
    case JobIn => 1
    case JobLock => 2
    case Executing(job) => Publishing(job) + 4
    case FinishLock(job, _) => Publishing(job) + 3
    case FinishIn(job, _) => Publishing(job) + 2
    case PublishLock(job, _) => Publishing(job) + 1
    case PublishIn(job, _) => Publishing(job)
    case ReloadLock => 25
    case ReloadIn => 24
    case PublishEnd => 3
  }

  function Publishing(job: Job): nat {
    if job.Delete? then 26 else 3
  }

  function PhotoPart(j: Jobs, pc: PhotoPc): nat {
    (if j.pending then JobPart(j.job) else 0) + PhotoPosition(j, pc)
  }

  /** A call under way, with what it may still put into the two slots. */
  function CallerPart(pc: CallerPc): nat {
    match pc
    case Idle => 0
    case CallEnd => 1
    case AttemptsIn => 1
    case AttemptsLock => 2
    case ConfigIn(_) => 30
    case ConfigLock(_) => 31
    case QueueIn(_) => 50
    case QueueLock(_) => 51
    case CallIn(_) => 70
    case CallLock(_) => 71
  }

  /** The calls under way of the callers with numbers below n. */
  function CallersPart(callers: map<nat, CallerPc>, n: nat): nat {
    if n == 0 then 0
    else CallersPart(callers, n - 1) + (if n - 1 in callers then CallerPart(callers[n - 1]) else 0)
  }

  function ControlSteps(pc: ControlPc): nat {
    match pc
    case Unstarted => 19
    case StartLock => 18
    case StartIn => 17
    case CreateProcess => 16
    case FailLock => 2
    case FailIn => 1
    case NeverStarted => 0
    case PhotoOnLock => 15
    case PhotoOnIn => 14
    case CreatePhoto => 13
    case PhotoOffLock => 12
    case PhotoOffIn => 11
    case ReportLock => 10
    case ReportIn => 9
    case Up => 8
    case StopLock => 7
    case StopIn => 6
    case JoinProcess => 5
    case StopPhotoLock => 4
    case StopPhotoIn => 3
    case JoinPhoto => 2
    case Stopped => 0
  }

  function Work(s: State, n: nat): nat {
    30 * ControlSteps(s.control) + ProcessPart(s.frames, s.process) + PhotoPart(s.jobs, s.photo)
    + CallersPart(s.callers, n)
  }

  // ---- each step uses up work ----------------------------------------------------------------------------

  lemma {:induction false} CallersPartUpdated(callers: map<nat, CallerPc>, n: nat, id: nat, pc: CallerPc)
    requires id < n && id in callers
    ensures CallersPart(callers[id := pc], n) == CallersPart(callers, n) - CallerPart(callers[id]) + CallerPart(pc)
  {
    hide CallerPart;
    if id == n - 1 {
      CallersPartOutside(callers, n - 1, id, pc);
    } else {
      CallersPartUpdated(callers, n - 1, id, pc);
    }
  }

  lemma {:induction false} CallersPartOutside(callers: map<nat, CallerPc>, n: nat, id: nat, pc: CallerPc)
    requires n <= id
    ensures CallersPart(callers[id := pc], n) == CallersPart(callers, n)
  {
    hide CallerPart;
    if n > 0 {
      CallersPartOutside(callers, n - 1, id, pc);
    }
  }

  /** What the other threads do to the frame slot adds at most 13. */
  lemma SlotGrows(f: Frames, pc: ProcessPc)
    ensures ProcessPart(Submitted(f), pc) <= ProcessPart(f, pc) + 13
    ensures ProcessPart(Changed(f), pc) <= ProcessPart(f, pc) + 13
    ensures ProcessPart(f.(running := true), pc) <= ProcessPart(f, pc) + 3
    ensures ProcessPart(f.(running := false), pc) <= ProcessPart(f, pc) + 3
  {
    hide ProcessPart;
    SlotParts(f, Submitted(f), pc);
    SlotParts(f, Changed(f), pc);
    SlotParts(f, f.(running := true), pc);
    SlotParts(f, f.(running := false), pc);
  }

  lemma SlotParts(f: Frames, g: Frames, pc: ProcessPc)
    ensures ProcessPart(g, pc) <= ProcessPart(f, pc) + 3 + 10 * One(g.pending && !f.pending)
                                  + 10 * One(g.styleDirty && !f.styleDirty)
  {}

  /** What the other threads do to the job slot adds at most one job and a wake-up. */
  lemma JobsGrow(j: Jobs, pc: PhotoPc)
    ensures forall job ::
              PhotoPart(Queued(j, job), pc) <= PhotoPart(j, pc) + JobPart(job) + (if pc.JobAsleep? then 3 else 0)
    ensures forall status :: PhotoPart(Configured(j, status), pc) <= PhotoPart(j, pc) + 21
    ensures PhotoPart(Cleared(j), pc) <= PhotoPart(j, pc) + 21
  {}

  lemma ProcessWorks(s: State, decoded: bool)
    requires ProcessCan(s) && Due(s, RunProcess(decoded))
    ensures var t := ProcessNext(s, decoded); ProcessPart(t.frames, t.process) < ProcessPart(s.frames, s.process)
  {
    match s.process
    case LoopIn => if !s.frames.running {} else if s.frames.pending {} else if s.frames.styleDirty && s.frames.hasRaw {}
    case FrameIn(t, d) => if d {}
    case _ =>
  }

  /** The parts of the process and the photo thread. */
  function ThreadsPart(s: State): nat {
    ProcessPart(s.frames, s.process) + PhotoPart(s.jobs, s.photo)
  }

  lemma OpeningWorks(s: State, ok: bool, loaded: bool, count: nat)
    requires PhotoCan(s, ok, count) && AtOpening(s.photo) && Due(s, RunPhoto(ok, loaded, count))
    ensures ThreadsPart(OpeningNext(s, ok, loaded, count)) < ThreadsPart(s)
  {
    hide Changed, ProcessPart, JobPart;
    SlotGrows(s.frames, s.process);
  }

  lemma TakeWorks(s: State, ok: bool, loaded: bool, count: nat)
    requires PhotoCan(s, ok, count) && !AtOpening(s.photo) && !AtPublishing(s.photo)
    requires Due(s, RunPhoto(ok, loaded, count))
    ensures ThreadsPart(TakeNext(s, ok, count)) < ThreadsPart(s)
  {
    hide ProcessPart, Outcome, JobTaken, JobPart;
    if s.photo.JobIn? && s.jobs.pending {
      TakingWorks(s.jobs);
    }
  }

  lemma TakingWorks(j: Jobs)
    requires j.pending
    ensures PhotoPart(JobTaken(j), Executing(j.job)) < PhotoPart(j, JobIn)
  {}

  lemma PublishWorks(s: State, ready: bool)
    requires PhotoCan(s, ready, 0) && AtPublishing(s.photo)
    ensures ThreadsPart(PublishNext(s, ready)) < ThreadsPart(s)
  {
    hide ProcessPart, Queued, Published;
    if s.photo.ReloadIn? {
      JobsGrow(s.jobs, PublishEnd);
    }
  }

  lemma PhotoWorks(s: State, ok: bool, loaded: bool, count: nat)
    requires PhotoCan(s, ok, count) && Due(s, RunPhoto(ok, loaded, count))
    ensures ThreadsPart(PhotoNext(s, ok, loaded, count)) < ThreadsPart(s)
  {
    hide OpeningNext, TakeNext, PublishNext, ThreadsPart;
    if AtOpening(s.photo) {
      OpeningWorks(s, ok, loaded, count);
    } else if AtPublishing(s.photo) {
      PublishWorks(s, ok);
    } else {
      TakeWorks(s, ok, loaded, count);
    }
  }

  lemma StartWorks(s: State, created: bool)
    requires LifeInv(s) && ControlCan(s) && AtStart(s.control)
    ensures var t := StartNext(s, created);
            30 * ControlSteps(t.control) + ThreadsPart(t) < 30 * ControlSteps(s.control) + ThreadsPart(s)
  {
    assert BeforeProcess(s.control) ==> s.process.ProcessUnborn?;
    assert BeforePhoto(s.control) ==> s.photo.PhotoUnborn?;
    hide Lives, ProcessPart;
    SlotGrows(s.frames, s.process);
    Newborn(s.frames);
  }

  lemma Newborn(f: Frames)
    ensures ProcessPart(f, LoopLock) <= ProcessPart(f, ProcessUnborn) + 2
  {}

  lemma StopWorks(s: State)
    requires ControlCan(s) && !AtStart(s.control)
    ensures var t := StopNext(s);
            30 * ControlSteps(t.control) + ThreadsPart(t) < 30 * ControlSteps(s.control) + ThreadsPart(s)
  {
    hide ProcessPart, PhotoPart, Cleared;
    SlotGrows(s.frames, s.process);
    JobsGrow(s.jobs, s.photo);
  }

  lemma CallerWorks(s: State, id: nat)
    requires CallerCan(s, id)
    ensures var t := CallerNext(s, id);
            id in t.callers && CallerPart(t.callers[id]) + ThreadsPart(t) < CallerPart(s.callers[id]) + ThreadsPart(s)
  {
    hide ProcessPart, PhotoPart, Submitted, Changed, Queued, Configured, Moved, JobOf;
    SlotGrows(s.frames, s.process);
    JobsGrow(s.jobs, s.photo);
  }

  ghost predicate Below(s: State, n: nat) {
    forall id <- s.callers :: id < n
  }

  lemma StepWorks(s: State, a: Action, n: nat)
    requires LifeInv(s) && Enabled(s, a) && Due(s, a) && Below(s, n)
    ensures Below(Next(s, a), n) && Work(Next(s, a), n) < Work(s, n)
  {
    hide ProcessNext, PhotoNext, StartNext, StopNext, CallerNext, ProcessCan, PhotoCan, CallerCan, ControlCan;
    hide ProcessPart, PhotoPart, CallerPart, CallersPart, ControlSteps, LifeInv;
    match a
    case RunProcess(decoded) =>
      ProcessWorks(s, decoded);
      ProcessTouches(s, decoded);
    case RunPhoto(ok, loaded, count) =>
      PhotoWorks(s, ok, loaded, count);
      PhotoTouches(s, ok, loaded, count);
    case RunControl(created) =>
      if AtStart(s.control) { StartWorks(s, created); } else { StopWorks(s); }
      ControlLeavesCallers(s, created);
    case RunCaller(id) =>
      CallerWorks(s, id);
      CallerMoves(s, id);
      CallersPartUpdated(s.callers, n, id, CallerNext(s, id).callers[id]);
  }

  lemma ControlLeavesCallers(s: State, created: bool)
    requires ControlCan(s)
    ensures ControlNext(s, created).callers == s.callers
  {
    hide Cleared;
    if AtStart(s.control) {}
  }

  /** A call under way moves its own caller only, and neither thread nor controller. */
  lemma CallerMoves(s: State, id: nat)
    requires CallerCan(s, id)
    ensures var t := CallerNext(s, id);
            && id in s.callers && id in t.callers && t.callers == s.callers[id := t.callers[id]]
            && t.control == s.control && t.process == s.process && t.photo == s.photo
  {
    hide Submitted, Changed, Queued, Configured, Moved, JobOf;
  }

  /** A sleeper woken in vain goes once through its loop. */
  lemma VainWakeWorks(s: State, a: Action, n: nat)
    requires Enabled(s, a) && !a.Begin? && !a.Configure? && !Due(s, a)
    ensures Next(s, a).callers == s.callers && Work(Next(s, a), n) <= Work(s, n) + 20
  {
    hide CallersPart, ControlSteps, Outcome;
  }

  ghost predicate NoCalls(r: Run, i: nat) {
    forall k | i <= k < |r.actions| :: !r.actions[k].Begin? && !r.actions[k].Configure?
  }

  /** How often from state i on somebody is woken in vain, by a timer or without a reason. */
  function VainWakes(r: Run, i: nat): nat
    requires |r.states| == |r.actions| + 1
    decreases |r.actions| - i
  {
    if i >= |r.actions| then 0 else One(!Due(r.states[i], r.actions[i])) + VainWakes(r, i + 1)
  }

  /** Every schedule ends: without new calls it has no more steps than there is work at its beginning, but for
      sleepers woken in vain. */
  lemma {:induction false} EveryScheduleEnds(r: Run, i: nat, n: nat)
    requires IsRun(r) && i < |r.states| && NoCalls(r, i) && Below(r.states[i], n)
    ensures |r.actions| - i <= Work(r.states[i], n) + 21 * VainWakes(r, i)
    decreases |r.states| - i
  {
    hide Init, Next, Enabled, Due, LifeInv, Work;
    if i < |r.actions| {
      var s, a := r.states[i], r.actions[i];
      assert Enabled(s, a) && !a.Begin? && !a.Configure?;
      if Due(s, a) {
        LifeAlways(r, i);
        StepWorks(s, a, n);
      } else {
        VainWakeWorks(s, a, n);
      }
      EveryScheduleEnds(r, i + 1, n);
    }
  }

  /** Once stop() has cleared both flags, nobody is woken in vain. */
  lemma AllDue(s: State, a: Action)
    requires LifeInv(s) && PhotoTold(s.control) && Enabled(s, a) && !a.Begin? && !a.Configure?
    ensures Due(s, a)
  {
    hide Outcome;
  }

  lemma {:induction false} NoVainWakes(r: Run, i: nat)
    requires IsRun(r) && i < |r.states| && PhotoTold(r.states[i].control) && NoCalls(r, i)
    ensures VainWakes(r, i) == 0
    decreases |r.states| - i
  {
    hide Init, Next, Enabled, Due, LifeInv;
    if i < |r.actions| {
      var s, a := r.states[i], r.actions[i];
      LifeAlways(r, i);
      assert Enabled(s, a) && !a.Begin? && !a.Configure?;
      AllDue(s, a);
      ControlStays(s, a);
      NoVainWakes(r, i + 1);
    }
  }

  /** From then on the work alone bounds every schedule without new calls, timer and spurious wake-ups included. */
  lemma LastStretchEnds(r: Run, i: nat, n: nat)
    requires IsRun(r) && i < |r.states| && PhotoTold(r.states[i].control) && NoCalls(r, i) && Below(r.states[i], n)
    ensures |r.actions| - i <= Work(r.states[i], n)
  {
    hide IsRun, Work, VainWakes, Below;
    NoVainWakes(r, i);
    EveryScheduleEnds(r, i, n);
  }

  lemma ControlStays(s: State, a: Action)
    requires Enabled(s, a) && Due(s, a)
    ensures !a.RunControl? ==> Next(s, a).control == s.control
    ensures !AtStart(s.control) ==> !AtStart(Next(s, a).control)
    ensures PhotoTold(s.control) ==> PhotoTold(Next(s, a).control)
  {
    hide ProcessNext, PhotoNext, CallerNext, ProcessCan, PhotoCan, CallerCan, Cleared;
    match a
    case RunProcess(decoded) => ProcessTouches(s, decoded);
    case RunPhoto(ok, loaded, count) => PhotoTouches(s, ok, loaded, count);
    case RunControl(created) =>
    case RunCaller(id) => CallerMoves(s, id);
  }

  // ---- where schedules end -------------------------------------------------------------------------------

  predicate Ended(c: ControlPc) {
    c.NeverStarted? || c.Stopped?
  }

  /** The controller has finished, no thread is left, and no call is under way. */
  ghost predicate Rested(s: State) {
    && Ended(s.control)
    && (s.process.ProcessUnborn? || s.process.ProcessDone?) && (s.photo.PhotoUnborn? || s.photo.PhotoDone?)
    && forall id <- s.callers :: s.callers[id] == Idle
  }

  /** A thread that is not asleep and waits for no lock and no other thread can go on. */
  predicate CanGo(s: State, t: Thread) {
    match t
    case Process => Enabled(s, RunProcess(true)) && Due(s, RunProcess(true))
    case Photo => Due(s, RunPhoto(false, false, 0)) && (Enabled(s, RunPhoto(false, false, 0))
                                                       || Enabled(s, RunPhoto(false, false, s.stored)))
    case Control => Enabled(s, RunControl(true))
    case Caller(id) => Enabled(s, RunCaller(id))
  }

  lemma PhotoHolderReady(s: State, t: Thread)
    requires LocksInv(s) && s.photoMutex == Held(t)
    ensures CanGo(s, t)
  {
    Owners(s, t);
    hide LocksInv;
  }

  lemma HolderReady(s: State, t: Thread)
    requires LocksInv(s) && s.mutex == Held(t) && s.photoMutex == Free
    ensures CanGo(s, t)
  {
    Owners(s, t);
    hide LocksInv;
  }

  /** With both locks free, some thread goes on until all are at rest. */
  lemma FreeMeansReady(s: State) returns (t: Thread)
    requires LifeInv(s) && s.mutex == Free && s.photoMutex == Free && !Rested(s)
    ensures CanGo(s, t)
  {
    if CanGo(s, Control) {
      t := Control;
    } else if CanGo(s, Process) {
      t := Process;
    } else if CanGo(s, Photo) {
      t := Photo;
    } else {
      assert Ended(s.control);
      var id :| id in s.callers && s.callers[id] != Idle;
      t := Caller(id);
    }
  }

  lemma SomeoneReady(s: State) returns (t: Thread)
    requires LifeInv(s) && LocksInv(s) && !Rested(s)
    ensures CanGo(s, t)
  {
    hide LifeInv, LocksInv, CanGo, Rested;
    if s.photoMutex.Held? {
      t := s.photoMutex.thread;
      PhotoHolderReady(s, t);
    } else if s.mutex.Held? {
      t := s.mutex.thread;
      HolderReady(s, t);
    } else {
      t := FreeMeansReady(s);
    }
  }

  lemma StepOf(s: State, t: Thread) returns (a: Action)
    requires CanGo(s, t)
    ensures Enabled(s, a) && Due(s, a)
  {
    hide Outcome;
    match t
    case Process => a := RunProcess(true);
    case Photo =>
      a := RunPhoto(false, false, if Enabled(s, RunPhoto(false, false, 0)) then 0 else s.stored);
    case Control => a := RunControl(true);
    case Caller(id) => a := RunCaller(id);
  }

  lemma RestedIsIdle(s: State, a: Action)
    requires Rested(s) && Enabled(s, a)
    ensures !Due(s, a)
  {
    hide Outcome;
  }

  /** No step is due exactly where everything is finished; a deadlock would be another such place. That the photo
      thread is signalled when its step is due is WorkerJobs.NoLostWakeUp; the process thread has a timer. */
  lemma RestExactly(r: Run, i: nat)
    requires IsRun(r) && i < |r.states|
    ensures (forall a: Action | Enabled(r.states[i], a) :: !Due(r.states[i], a)) <==> Rested(r.states[i])
  {
    hide IsRun, LifeInv, LocksInv, CanGo, Rested, Due, Enabled;
    var s := r.states[i];
    LifeAlways(r, i);
    LocksAlways(r, i);
    if Rested(s) {
      forall a: Action | Enabled(s, a) ensures !Due(s, a) {
        RestedIsIdle(s, a);
      }
    } else {
      var t := SomeoneReady(s);
      var a := StepOf(s, t);
    }
  }

  // ---- stop() returns ------------------------------------------------------------------------------------

  /** From state i on no call arrives and nobody is woken in vain. */
  ghost predicate Settling(r: Run, i: nat)
    requires |r.states| == |r.actions| + 1
  {
    forall k | i <= k < |r.actions| :: Due(r.states[k], r.actions[k])
  }

  /** q goes on from r, without a new call and without a vain wake-up. */
  ghost predicate GoesOn(r: Run, q: Run) {
    && IsRun(r) && IsRun(q) && r.states <= q.states && r.actions <= q.actions && Settling(q, |r.actions|)
  }

  lemma OneMore(r: Run, a: Action) returns (q: Run)
    requires IsRun(r) && Enabled(Last(r), a) && Due(Last(r), a)
    ensures GoesOn(r, q) && Last(q) == Next(Last(r), a)
  {
    hide Init, Enabled, Next, Due;
    q := Goes(r, a);
  }

  lemma GoesFurther(r: Run, m: Run, q: Run)
    requires GoesOn(r, m) && GoesOn(m, q)
    ensures GoesOn(r, q)
  {
    hide Init, Enabled, Next, Due;
    forall k | |r.actions| <= k < |q.actions| ensures Due(q.states[k], q.actions[k]) {
      if k < |m.actions| {
        assert Due(m.states[k], m.actions[k]) && m.states[k] == q.states[k] && m.actions[k] == q.actions[k];
      }
    }
  }

  lemma {:induction false} RunsToRest(r: Run, n: nat) returns (q: Run)
    requires IsRun(r) && Below(Last(r), n)
    ensures GoesOn(r, q) && Rested(Last(q))
    ensures !AtStart(Last(r).control) ==> !AtStart(Last(q).control)
    decreases Work(Last(r), n)
  {
    hide Enabled, Next, Due, LifeInv, LocksInv, CanGo, Rested, Work, Below, AtStart, Init;
    if Rested(Last(r)) {
      q := r;
    } else {
      LifeAlways(r, |r.states| - 1);
      LocksAlways(r, |r.states| - 1);
      var t := SomeoneReady(Last(r));
      var a := StepOf(Last(r), t);
      var m := OneMore(r, a);
      StepWorks(Last(r), a, n);
      ControlStays(Last(r), a);
      q := RunsToRest(m, n);
      GoesFurther(r, m, q);
    }
  }

  /** Every run can be brought to rest without a further call; once stop() has begun it then has returned. */
  lemma StopReturns(r: Run) returns (q: Run)
    requires IsRun(r)
    ensures GoesOn(r, q) && Rested(Last(q))
    ensures !AtStart(Last(r).control) ==> Last(q).control == Stopped
  {
    hide IsRun;
    assert |r.states| > 0 by { NotEmpty(r); }
    var n := NewCaller(Last(r).callers.Keys);
    assert Below(Last(r), n);
    q := RunsToRest(r, n);
  }
}
