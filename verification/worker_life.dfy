/** The lifetime of the two threads: how the controller's progress through start() and stop() determines which
    threads exist and what the two running flags say. */
module WorkerLife {
  import opened Worker

  predicate BeforeProcess(c: ControlPc) {
    c.Unstarted? || c.StartLock? || c.StartIn? || c.CreateProcess? || c.FailLock? || c.FailIn? || c.NeverStarted?
  }

  predicate BeforePhoto(c: ControlPc) {
    || BeforeProcess(c) || c.PhotoOnLock? || c.PhotoOnIn? || c.CreatePhoto?
    || c.PhotoOffLock? || c.PhotoOffIn? || c.ReportLock? || c.ReportIn?
  }

  predicate ProcessTold(c: ControlPc) {
    c.JoinProcess? || c.StopPhotoLock? || c.StopPhotoIn? || c.JoinPhoto? || c.Stopped?
  }

  predicate PhotoTold(c: ControlPc) {
    c.JoinPhoto? || c.Stopped?
  }

  /** Between the two creations and the two stops. */
  predicate ProcessOn(c: ControlPc) {
    !c.Unstarted? && !c.StartLock? && !c.StartIn? && !c.NeverStarted? && !ProcessTold(c)
  }

  predicate PhotoOn(c: ControlPc, photo: PhotoPc) {
    if BeforePhoto(c) then c.CreatePhoto? || c.PhotoOffLock? || c.PhotoOffIn?
    else !photo.PhotoUnborn? && !PhotoTold(c)
  }

  ghost predicate Lives(c: ControlPc, process: ProcessPc, photo: PhotoPc, running: bool, photoRunning: bool,
          cleared: bool)
  {
    && (process.ProcessUnborn? <==> BeforeProcess(c))
    && (BeforePhoto(c) ==> photo.PhotoUnborn?)
    && (running <==> ProcessOn(c))
    && (photoRunning <==> PhotoOn(c, photo))
    && (cleared <==> if BeforePhoto(c) then c.ReportLock? || c.ReportIn? else photo.PhotoUnborn? || PhotoTold(c))
    && (process.ProcessDone? ==> ProcessTold(c))
    && (photo.PhotoDone? ==> PhotoTold(c))
    && (c.StopPhotoLock? || c.StopPhotoIn? || PhotoTold(c) ==> process.ProcessDone?)
    && (c.Stopped? ==> photo.PhotoUnborn? || photo.PhotoDone?)
  }

  ghost predicate LifeInv(s: State) {
    Lives(s.control, s.process, s.photo, s.frames.running, s.jobs.running, s.jobs.cleared)
  }

  lemma LifeAtStart(s: State)
    requires Init(s)
    ensures LifeInv(s)
  {}

  lemma ProcessLives(s: State, decoded: bool)
    requires LifeInv(s) && ProcessCan(s)
    ensures LifeInv(ProcessNext(s, decoded))
  {
    hide ProcessNext, Lives;
    ProcessTouches(s, decoded);
    ProcessMoves(s.control, s.process, ProcessNext(s, decoded).process, s.photo, s.frames.running, s.jobs.running,
                 s.jobs.cleared);
  }

  /** The process thread leaves the other threads and the running flags alone, and ends only when told to. */
  lemma ProcessTouches(s: State, decoded: bool)
    requires ProcessCan(s)
    ensures var t := ProcessNext(s, decoded);
            && t.control == s.control && t.photo == s.photo && t.jobs == s.jobs && t.gallery == s.gallery
            && t.frames.running == s.frames.running && t.callers == s.callers && t.stored == s.stored
            && !s.process.ProcessUnborn? && !s.process.ProcessDone? && !t.process.ProcessUnborn?
            && (t.process.ProcessDone? ==> !s.frames.running)
  {
    hide UsesHistory, FrameTaken, Filtered, FrameFinished, RefilterStarted, RefilterFinished;
    FramesKeepRunning(s.frames, s.process, decoded);
    match s.process
    case LoopIn => if !s.frames.running {} else if s.frames.pending {}
    case _ =>
  }

  lemma FramesKeepRunning(f: Frames, pc: ProcessPc, decoded: bool)
    ensures FrameTaken(f).running == f.running && RefilterStarted(f).running == f.running
    ensures pc.Decoding? ==> Filtered(f, pc.taken, decoded).running == f.running
    ensures pc.FrameIn? ==> FrameFinished(f, pc.taken, pc.decoded).running == f.running
    ensures pc.RefilterIn? ==> RefilterFinished(f, pc.generation).running == f.running
  {}

  lemma ProcessMoves(c: ControlPc, p: ProcessPc, q: ProcessPc, photo: PhotoPc, running: bool, on: bool, cleared: bool)
    requires Lives(c, p, photo, running, on, cleared)
    requires !p.ProcessUnborn? && !p.ProcessDone? && !q.ProcessUnborn? && (q.ProcessDone? ==> !running)
    ensures Lives(c, q, photo, running, on, cleared)
  {}

  lemma PhotoLives(s: State, ok: bool, loaded: bool, count: nat)
    requires LifeInv(s) && PhotoCan(s, ok, count)
    ensures LifeInv(PhotoNext(s, ok, loaded, count))
  {
    hide PhotoNext, Lives;
    PhotoTouches(s, ok, loaded, count);
    PhotoMoves(s.control, s.process, s.photo, PhotoNext(s, ok, loaded, count).photo, s.frames.running, s.jobs.running,
               s.jobs.cleared);
  }

  /** What every step of the photo thread leaves alone; it ends only when told to. */
  ghost predicate PhotoFrame(s: State, t: State) {
    && t.control == s.control && t.process == s.process && t.callers == s.callers
    && t.frames.running == s.frames.running && t.jobs.running == s.jobs.running
    && t.jobs.cleared == s.jobs.cleared
    && !s.photo.PhotoUnborn? && !s.photo.PhotoDone? && !t.photo.PhotoUnborn?
    && (t.photo.PhotoDone? ==> !s.jobs.running)
  }

  lemma PhotoTouches(s: State, ok: bool, loaded: bool, count: nat)
    requires PhotoCan(s, ok, count)
    ensures PhotoFrame(s, PhotoNext(s, ok, loaded, count))
  {
    hide OpeningNext, JobNext, PhotoFrame;
    if AtOpening(s.photo) {
      OpeningTouches(s, ok, loaded, count);
    } else {
      JobTouches(s, ok, count);
    }
  }

  lemma OpeningTouches(s: State, ok: bool, loaded: bool, count: nat)
    requires PhotoCan(s, ok, count) && AtOpening(s.photo)
    ensures PhotoFrame(s, OpeningNext(s, ok, loaded, count))
  {
    hide Outcome, Changed;
    CallsKeepRunning(s);
  }

  lemma JobTouches(s: State, ok: bool, count: nat)
    requires PhotoCan(s, ok, count) && !AtOpening(s.photo)
    ensures PhotoFrame(s, JobNext(s, ok, count))
  {
    hide TakeNext, PublishNext, PhotoFrame;
    if AtPublishing(s.photo) {
      PublishTouches(s, ok);
    } else {
      TakeTouches(s, ok, count);
    }
  }

  lemma TakeTouches(s: State, ok: bool, count: nat)
    requires PhotoCan(s, ok, count) && !AtOpening(s.photo) && !AtPublishing(s.photo)
    ensures PhotoFrame(s, TakeNext(s, ok, count))
  {
    hide Outcome, JobTaken, JobFinished;
    JobsKeepRunning(s.jobs);
  }

  lemma PublishTouches(s: State, ready: bool)
    requires PhotoCan(s, ready, 0) && AtPublishing(s.photo)
    ensures PhotoFrame(s, PublishNext(s, ready))
  {
    hide Published, Queued;
    CallsKeepRunning(s);
  }

  lemma JobsKeepRunning(j: Jobs)
    ensures JobTaken(j).running == JobFinished(j).running == j.running
    ensures JobTaken(j).cleared == JobFinished(j).cleared == j.cleared
  {}

  lemma PhotoMoves(c: ControlPc, p: ProcessPc, photo: PhotoPc, next: PhotoPc, running: bool, on: bool, cleared: bool)
    requires Lives(c, p, photo, running, on, cleared)
    requires !photo.PhotoUnborn? && !photo.PhotoDone? && !next.PhotoUnborn? && (next.PhotoDone? ==> !on)
    ensures Lives(c, p, next, running, on, cleared)
  {}

  lemma ControlLives(s: State, created: bool)
    requires LifeInv(s) && ControlCan(s)
    ensures LifeInv(ControlNext(s, created))
  {
    hide StartNext, StopNext, LifeInv;
    if AtStart(s.control) {
      StartLives(s, created);
    } else {
      StopLives(s);
    }
  }

  lemma StartLives(s: State, created: bool)
    requires LifeInv(s) && ControlCan(s) && AtStart(s.control)
    ensures LifeInv(StartNext(s, created))
  {}

  lemma StopLives(s: State)
    requires LifeInv(s) && ControlCan(s) && !AtStart(s.control)
    ensures LifeInv(StopNext(s))
  {}

  lemma CallerLives(s: State, id: nat)
    requires LifeInv(s) && CallerCan(s, id)
    ensures LifeInv(CallerNext(s, id))
  {
    hide Moved, JobOf, Lives, Submitted, Changed, Queued, Configured;
    CallsKeepRunning(s);
  }

  lemma CallsKeepRunning(s: State)
    ensures Submitted(s.frames).running == Changed(s.frames).running == s.frames.running
    ensures forall job :: var j := Queued(s.jobs, job); j.running == s.jobs.running && j.cleared == s.jobs.cleared
    ensures forall status ::
              var j := Configured(s.jobs, status);
              j.running == s.jobs.running && j.cleared == s.jobs.cleared
  {}

  lemma LifeKept(s: State, a: Action)
    requires LifeInv(s) && Enabled(s, a)
    ensures LifeInv(Next(s, a))
  {
    hide ProcessNext, PhotoNext, ControlNext, CallerNext, ProcessCan, PhotoCan, ControlCan, CallerCan, MayBegin;
    match a
    case RunProcess(decoded) => ProcessLives(s, decoded);
    case RunPhoto(ok, loaded, count) => PhotoLives(s, ok, loaded, count);
    case RunControl(created) => ControlLives(s, created);
    case RunCaller(id) => CallerLives(s, id);
    case _ =>
  }

  lemma {:induction false} LifeAlways(r: Run, i: nat)
    requires IsRun(r) && i < |r.states|
    ensures LifeInv(r.states[i])
  {
    hide LifeInv, Next, Enabled, Init;
    if i == 0 {
      LifeAtStart(r.states[0]);
    } else {
      LifeAlways(r, i - 1);
      assert Enabled(r.states[i - 1], r.actions[i - 1]);
      LifeKept(r.states[i - 1], r.actions[i - 1]);
    }
  }
}
