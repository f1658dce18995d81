/** DisplayProbeWorker as a state machine: a process thread, a photo thread, one controller that starts and
    stops them once, and any number of callers. A step takes a lock, or runs a critical section up to the next
    lock operation, or runs the unlocked work between two of them. */
module Worker {

  // ---- shared data -------------------------------------------------------------------------------

  datatype Thread = Process | Photo | Control | Caller(id: nat)
  datatype Owner = Free | Held(thread: Thread)

  /** The frame slot and the filter history, guarded by mutex_. History variables: `jpeg` numbers the frame in
      the input buffer; `generation` counts changes of style, adjustment or intensity; `previousGeneration` is
      the one the history buffer was made under; `missed`, `exposed` and `stale` follow the one change that is
      not noticed (see WorkerFrames). */
  datatype Frames = Frames(running: bool, pending: bool, inUse: bool, hasPrevious: bool, hasRaw: bool,
                           styleDirty: bool, accepted: nat, processed: nat, failures: nat,
                           jpeg: nat, generation: nat, previousGeneration: nat,
                           missed: bool, exposed: bool, stale: bool)

  datatype Job = Save | Load(index: int) | Delete(index: int)
  datatype Status = Initializing | Ready | Failed

  /** The photo-job slot, guarded by photoMutex_. History variables: the jobs accepted and taken so far, whether
      photoRunning_ has been cleared, how many jobs were taken since, and whether photoCondition_ was signalled
      since the photo thread last went to sleep. */
  datatype Jobs = Jobs(running: bool, configured: bool, status: Status, pending: bool, inUse: bool, job: Job,
                       accepted: seq<Job>, taken: seq<Job>, cleared: bool, takenAfterClear: nat, signalled: bool)

  /** What the UI shows of the store, guarded by mutex_. */
  datatype Gallery = Gallery(ready: bool, initialised: bool, photoCount: nat, index: int, saved: nat, failed: nat)

  // ---- program counters ----------------------------------------------------------------------------

  /** A frame taken from the slot: its number, whether it is filtered with the history, and under which style. */
  datatype Taken = Taken(number: nat, history: bool, generation: nat, missed: bool)

  datatype ProcessPc =
    | ProcessUnborn | LoopLock | LoopIn | Asleep
    | Decoding(taken: Taken) | FrameLock(taken: Taken, decoded: bool) | FrameIn(taken: Taken, decoded: bool)
    | Refiltering(generation: nat) | RefilterLock(generation: nat) | RefilterIn(generation: nat)
    | ProcessDone

  datatype PhotoPc =
    | PhotoUnborn | GateLock | GateIn | GateAsleep
    | Opening(status: Status) | OpenedLock(ok: bool, loaded: bool) | OpenedIn(ok: bool, loaded: bool)
    | JobLock | JobIn | JobAsleep
    | Executing(job: Job) | FinishLock(job: Job, ok: bool) | FinishIn(job: Job, ok: bool)
    | PublishLock(job: Job, ok: bool) | PublishIn(job: Job, ok: bool)
    | ReloadLock | ReloadIn | PublishEnd
    | PhotoDone

  datatype ControlPc =
    | Unstarted | StartLock | StartIn | CreateProcess | FailLock | FailIn | NeverStarted
    | PhotoOnLock | PhotoOnIn | CreatePhoto | PhotoOffLock | PhotoOffIn | ReportLock | ReportIn
    | Up | StopLock | StopIn | JoinProcess | StopPhotoLock | StopPhotoIn | JoinPhoto | Stopped

  /** The calls of the interface, as far as they touch the shared data above. */
  datatype Call = Submit | Change | Request | Move(direction: int) | Open(reload: bool) | Erase | Other

  datatype CallerPc =
    | Idle | CallLock(call: Call) | CallIn(call: Call) | QueueLock(call: Call) | QueueIn(call: Call) | CallEnd
    | ConfigLock(status: Status) | ConfigIn(status: Status) | AttemptsLock | AttemptsIn

  datatype State = State(mutex: Owner, photoMutex: Owner, frames: Frames, jobs: Jobs, gallery: Gallery, stored: nat,
                         process: ProcessPc, photo: PhotoPc, control: ControlPc, callers: map<nat, CallerPc>)

  const MAX_STORED: nat := 48

  function One(b: bool): nat {
    if b then 1 else 0
  }

  ghost predicate Init(s: State) {
    && s.mutex == Free && s.photoMutex == Free
    && s.frames == Frames(false, false, false, false, false, false, 0, 0, 0, 0, 0, 0, false, false, false)
    && s.jobs == Jobs(false, s.jobs.status != Initializing, s.jobs.status, false, false, Save, [], [], false, 0, false)
    && s.gallery == Gallery(false, false, 0, 0, 0, 0) && s.stored == 0
    && s.process == ProcessUnborn && s.photo == PhotoUnborn && s.control == Unstarted && s.callers == map[]
  }

  // ---- critical sections on the frame slot -----------------------------------------------------------

  function Submitted(f: Frames): Frames {
    if !f.running || f.pending || f.inUse then f
    else f.(pending := true, accepted := f.accepted + 1, jpeg := f.jpeg + 1)
  }

  /** A change of style, adjustment or intensity: styleDirty_ = hasRaw_. */
  function Changed(f: Frames): Frames {
    f.(styleDirty := f.hasRaw, generation := f.generation + 1,
       missed := f.inUse && !f.hasRaw, exposed := f.exposed || (f.inUse && !f.hasRaw))
  }

  predicate UsesHistory(f: Frames) {
    f.hasPrevious && !f.styleDirty
  }

  function FrameTaken(f: Frames): Frames {
    f.(pending := false, inUse := true, hasPrevious := f.hasPrevious && !f.styleDirty, styleDirty := false)
  }

  /** Decoding ends; a decoded frame has been filtered, with the history if it was taken so. */
  function Filtered(f: Frames, t: Taken, decoded: bool): Frames {
    f.(stale := f.stale || (decoded && t.history && f.previousGeneration != t.generation))
  }

  function FrameFinished(f: Frames, t: Taken, decoded: bool): Frames {
    if decoded then
      f.(inUse := false, hasPrevious := true, hasRaw := true, processed := f.processed + 1,
         previousGeneration := t.generation, missed := f.missed && !f.hasRaw)
    else
      f.(inUse := false, failures := f.failures + 1, missed := f.missed && f.hasRaw)
  }

  function RefilterStarted(f: Frames): Frames {
    f.(styleDirty := false, hasPrevious := false)
  }

  function RefilterFinished(f: Frames, generation: nat): Frames {
    f.(hasPrevious := true, previousGeneration := generation, missed := false)
  }

  // ---- critical sections on the job slot ---------------------------------------------------------------

  predicate CanQueue(j: Jobs) {
    j.running && !j.pending && !j.inUse
  }

  /** The slot takes a job when it may; otherwise the request is refused and nothing changes. */
  function Queued(j: Jobs, job: Job): Jobs {
    if CanQueue(j) then j.(pending := true, job := job, accepted := j.accepted + [job], signalled := true) else j
  }

  function JobTaken(j: Jobs): Jobs {
    j.(pending := false, inUse := true, taken := j.taken + [j.job],
       takenAfterClear := if j.cleared then j.takenAfterClear + 1 else j.takenAfterClear)
  }

  function JobFinished(j: Jobs): Jobs {
    j.(inUse := false, signalled := true)
  }

  function Cleared(j: Jobs): Jobs {
    j.(running := false, cleared := true, signalled := true)
  }

  function Configured(j: Jobs, status: Status): Jobs {
    if j.configured then j else j.(status := status, configured := status != Initializing, signalled := true)
  }

  // ---- the store and the gallery -------------------------------------------------------------------------

  /** What executing a job can do to the number of stored photos. A save appends or fails; a delete of a photo
      that exists removes it, and may yet report failure when the file would not go; nothing else changes it. */
  predicate Outcome(stored: nat, job: Job, ok: bool, after: nat) {
    match job
    case Save => after == if ok && stored < MAX_STORED then stored + 1 else stored
    case Load(index) => after == stored && (ok ==> 0 <= index < stored)
    case Delete(index) => (0 <= index < stored && after == stored - 1) || (!ok && after == stored)
  }

  function Published(g: Gallery, job: Job, ok: bool, stored: nat, ready: bool): Gallery {
    match job
    case Save =>
      if ok then g.(ready := ready, saved := g.saved + 1, photoCount := stored, index := 0)
      else g.(ready := ready, failed := g.failed + 1)
    case Load(_) => g
    case Delete(_) =>
      g.(photoCount := stored,
         index := if g.index >= stored then (if stored > 0 then stored - 1 else 0) else g.index)
  }

  function Moved(g: Gallery, direction: int): Gallery
    requires g.photoCount > 0
  {
    g.(index := (g.index + direction + g.photoCount) % g.photoCount)
  }

  // ---- steps -------------------------------------------------------------------------------------------

  datatype Action =
    | RunProcess(decoded: bool)
    | RunPhoto(ok: bool, loaded: bool, count: nat)
    | RunControl(created: bool)
    | Begin(caller: nat, call: Call)
    | Configure(caller: nat, status: Status)
    | RunCaller(caller: nat)

  predicate ProcessCan(s: State) {
    match s.process
    case ProcessUnborn | ProcessDone => false
    case LoopLock | FrameLock(_, _) | RefilterLock(_) => s.mutex == Free
    case _ => true
  }

  predicate PhotoCan(s: State, ok: bool, count: nat) {
    match s.photo
    case PhotoUnborn | PhotoDone => false
    case GateLock | JobLock | FinishLock(_, _) | ReloadLock => s.photoMutex == Free
    case OpenedLock(_, _) | PublishLock(_, _) => s.mutex == Free
    case Opening(_) => count <= MAX_STORED
    case Executing(job) => Outcome(s.stored, job, ok, count)
    case _ => true
  }

  predicate ControlCan(s: State) {
    match s.control
    case StartLock | FailLock | ReportLock | StopLock => s.mutex == Free
    case PhotoOnLock | PhotoOffLock | StopPhotoLock => s.photoMutex == Free
    case JoinProcess => s.process == ProcessDone
    case JoinPhoto => s.photo == PhotoUnborn || s.photo == PhotoDone
    case NeverStarted | Stopped => false
    case _ => true
  }

  predicate CallerCan(s: State, id: nat) {
    id in s.callers &&
    match s.callers[id]
    case Idle => false
    case CallLock(_) | AttemptsLock => s.mutex == Free
    case QueueLock(_) | ConfigLock(_) => s.photoMutex == Free
    case _ => true
  }

  predicate MayBegin(s: State, id: nat) {
    id in s.callers ==> s.callers[id] == Idle
  }

  predicate Enabled(s: State, a: Action) {
    match a
    case RunProcess(_) => ProcessCan(s)
    case RunPhoto(ok, _, count) => PhotoCan(s, ok, count)
    case RunControl(_) => ControlCan(s)
    case Begin(id, call) => MayBegin(s, id) && (call.Move? ==> call.direction == 1 || call.direction == -1)
    case Configure(id, _) => MayBegin(s, id)
    case RunCaller(id) => CallerCan(s, id)
  }

  /** run() */
  function ProcessNext(s: State, decoded: bool): State
    requires ProcessCan(s)
  {
    var f := s.frames;
    match s.process
    case LoopLock => s.(mutex := Held(Process), process := LoopIn)
    case LoopIn =>
      if !f.running then s.(mutex := Free, process := ProcessDone)
      else if f.pending then
        s.(mutex := Free, frames := FrameTaken(f),
           process := Decoding(Taken(f.jpeg, UsesHistory(f), f.generation, f.missed)))
      else if f.styleDirty && f.hasRaw then
        s.(mutex := Free, frames := RefilterStarted(f), process := Refiltering(f.generation))
      else s.(mutex := Free, process := Asleep)
    case Asleep => s.(process := LoopLock)
    case Decoding(t) => s.(frames := Filtered(f, t, decoded), process := FrameLock(t, decoded))
    case FrameLock(t, d) => s.(mutex := Held(Process), process := FrameIn(t, d))
    case FrameIn(t, d) => s.(mutex := Free, frames := FrameFinished(f, t, d), process := Asleep)
    case Refiltering(g) => s.(process := RefilterLock(g))
    case RefilterLock(g) => s.(mutex := Held(Process), process := RefilterIn(g))
    case RefilterIn(g) => s.(mutex := Free, frames := RefilterFinished(f, g), process := Asleep)
  }

  predicate AtOpening(pc: PhotoPc) {
    pc.GateLock? || pc.GateIn? || pc.GateAsleep? || pc.Opening? || pc.OpenedLock? || pc.OpenedIn?
  }

  /** photoRun() up to its loop: the storage gate, initialize and loadSettings, and their publication. */
  function OpeningNext(s: State, ok: bool, loaded: bool, count: nat): State
    requires PhotoCan(s, ok, count) && AtOpening(s.photo)
  {
    var j, g := s.jobs, s.gallery;
    match s.photo
    case GateLock => s.(photoMutex := Held(Photo), photo := GateIn)
    case GateIn =>
      if j.running && !j.configured then s.(photoMutex := Free, jobs := j.(signalled := false), photo := GateAsleep)
      else if !j.running then s.(photoMutex := Free, photo := PhotoDone)
      else s.(photoMutex := Free, photo := Opening(j.status))
    case GateAsleep => s.(photo := GateLock)
    case Opening(status) =>
      if status == Ready then s.(stored := count, photo := OpenedLock(ok, ok && loaded))
      else s.(photo := OpenedLock(false, false))
    case OpenedLock(o, l) => s.(mutex := Held(Photo), photo := OpenedIn(o, l))
    case OpenedIn(o, l) =>
      s.(mutex := Free, gallery := g.(ready := o, initialised := true, photoCount := s.stored),
         frames := if l then Changed(s.frames) else s.frames, photo := JobLock)
  }

  predicate AtPublishing(pc: PhotoPc) {
    pc.PublishLock? || pc.PublishIn? || pc.ReloadLock? || pc.ReloadIn? || pc.PublishEnd?
  }

  /** The loop of photoRun(), first half: take a job, execute it, release the slot. */
  function TakeNext(s: State, ok: bool, count: nat): State
    requires PhotoCan(s, ok, count) && !AtOpening(s.photo) && !AtPublishing(s.photo)
  {
    var j := s.jobs;
    match s.photo
    case JobLock => s.(photoMutex := Held(Photo), photo := JobIn)
    case JobIn =>
      if j.running && !j.pending then s.(photoMutex := Free, jobs := j.(signalled := false), photo := JobAsleep)
      else if !j.pending then s.(photoMutex := Free, photo := PhotoDone)
      else s.(photoMutex := Free, jobs := JobTaken(j), photo := Executing(j.job))
    case JobAsleep => s.(photo := JobLock)
    case Executing(job) => s.(stored := count, photo := FinishLock(job, ok))
    case FinishLock(job, o) => s.(photoMutex := Held(Photo), photo := FinishIn(job, o))
    case FinishIn(job, o) => s.(photoMutex := Free, jobs := JobFinished(j), photo := PublishLock(job, o))
  }

  /** The second half: publish the result, and after a delete ask for the thumbnail to show next. */
  function PublishNext(s: State, ready: bool): State
    requires PhotoCan(s, ready, 0) && AtPublishing(s.photo)
  {
    var g := s.gallery;
    match s.photo
    case PublishLock(job, o) => s.(mutex := Held(Photo), photo := PublishIn(job, o))
    case PublishIn(job, o) =>
      var h := Published(g, job, o, s.stored, ready);
      if job.Delete? && h.photoCount > 0 && h.ready then s.(gallery := h, photo := ReloadLock)
      else s.(mutex := Free, gallery := h, photo := JobLock)
    case ReloadLock => s.(photoMutex := Held(Photo), photo := ReloadIn)
    case ReloadIn => s.(photoMutex := Free, jobs := Queued(s.jobs, Load(g.index)), photo := PublishEnd)
    case PublishEnd => s.(mutex := Free, photo := JobLock)
  }

  function JobNext(s: State, ok: bool, count: nat): State
    requires PhotoCan(s, ok, count) && !AtOpening(s.photo)
  {
    if AtPublishing(s.photo) then PublishNext(s, ok) else TakeNext(s, ok, count)
  }

  function PhotoNext(s: State, ok: bool, loaded: bool, count: nat): State
    requires PhotoCan(s, ok, count)
  {
    if AtOpening(s.photo) then OpeningNext(s, ok, loaded, count) else JobNext(s, ok, count)
  }

  predicate AtStart(pc: ControlPc) {
    !(pc.Up? || pc.StopLock? || pc.StopIn? || pc.JoinProcess? || pc.StopPhotoLock? || pc.StopPhotoIn? || pc.JoinPhoto?
      || pc.Stopped?)
  }

  /** start() */
  function StartNext(s: State, created: bool): State
    requires ControlCan(s) && AtStart(s.control)
  {
    var f, j, g := s.frames, s.jobs, s.gallery;
    match s.control
    case Unstarted => s.(control := StartLock)
    case StartLock => s.(mutex := Held(Control), control := StartIn)
    case StartIn => s.(mutex := Free, frames := f.(running := true), control := CreateProcess)
    case CreateProcess => if created then s.(process := LoopLock, control := PhotoOnLock) else s.(control := FailLock)
    case FailLock => s.(mutex := Held(Control), control := FailIn)
    case FailIn => s.(mutex := Free, frames := f.(running := false), control := NeverStarted)
    case PhotoOnLock => s.(photoMutex := Held(Control), control := PhotoOnIn)
    case PhotoOnIn => s.(photoMutex := Free, jobs := j.(running := true), control := CreatePhoto)
    case CreatePhoto => if created then s.(photo := GateLock, control := Up) else s.(control := PhotoOffLock)
    case PhotoOffLock => s.(photoMutex := Held(Control), control := PhotoOffIn)
    case PhotoOffIn => s.(photoMutex := Free, jobs := j.(running := false, cleared := true), control := ReportLock)
    case ReportLock => s.(mutex := Held(Control), control := ReportIn)
    case ReportIn => s.(mutex := Free, gallery := g.(initialised := true, ready := false), control := Up)
  }

  /** stop() */
  function StopNext(s: State): State
    requires ControlCan(s) && !AtStart(s.control)
  {
    match s.control
    case Up => s.(control := StopLock)
    case StopLock => s.(mutex := Held(Control), control := StopIn)
    case StopIn => s.(mutex := Free, frames := s.frames.(running := false), control := JoinProcess)
    case JoinProcess => s.(control := StopPhotoLock)
    case StopPhotoLock => s.(photoMutex := Held(Control), control := StopPhotoIn)
    case StopPhotoIn => s.(photoMutex := Free, jobs := Cleared(s.jobs), control := JoinPhoto)
    case JoinPhoto => s.(control := Stopped)
  }

  function ControlNext(s: State, created: bool): State
    requires ControlCan(s)
  {
    if AtStart(s.control) then StartNext(s, created) else StopNext(s)
  }

  /** The call's section under mutex_, up to the request for photoMutex_ if it makes one. */
  function CallBody(s: State, call: Call): (r: (Frames, Gallery, bool))
  {
    var f, g := s.frames, s.gallery;
    match call
    case Submit => (Submitted(f), g, false)
    case Change => (Changed(f), g, false)
    case Request => (f, g, f.hasPrevious && g.ready)
    case Move(direction) => if g.photoCount > 0 then (f, Moved(g, direction), g.ready) else (f, g, false)
    case Open(reload) => (f, g.(index := 0), reload && g.ready && g.photoCount > 0)
    case Erase => (f, g, g.ready && g.photoCount > 0)
    case Other => (f, g, false)
  }

  function JobOf(call: Call, g: Gallery): Job {
    match call
    case Request => Save
    case Erase => Delete(g.index)
    case _ => Load(g.index)
  }

  function CallerNext(s: State, id: nat): State
    requires CallerCan(s, id)
  {
    var me := Held(Caller(id));
    match s.callers[id]
    case CallLock(call) => s.(mutex := me, callers := s.callers[id := CallIn(call)])
    case CallIn(call) =>
      var (f, g, queue) := CallBody(s, call);
      if queue then s.(frames := f, gallery := g, callers := s.callers[id := QueueLock(call)])
      else s.(mutex := Free, frames := f, gallery := g, callers := s.callers[id := Idle])
    case QueueLock(call) => s.(photoMutex := me, callers := s.callers[id := QueueIn(call)])
    case QueueIn(call) =>
      s.(photoMutex := Free, jobs := Queued(s.jobs, JobOf(call, s.gallery)), callers := s.callers[id := CallEnd])
    case CallEnd => s.(mutex := Free, callers := s.callers[id := Idle])
    case ConfigLock(status) => s.(photoMutex := me, callers := s.callers[id := ConfigIn(status)])
    case ConfigIn(status) =>
      s.(photoMutex := Free, jobs := Configured(s.jobs, status), callers := s.callers[id := AttemptsLock])
    case AttemptsLock => s.(mutex := me, callers := s.callers[id := AttemptsIn])
    case AttemptsIn => s.(mutex := Free, callers := s.callers[id := Idle])
  }

  function Next(s: State, a: Action): State
    requires Enabled(s, a)
  {
    match a
    case RunProcess(decoded) => ProcessNext(s, decoded)
    case RunPhoto(ok, loaded, count) => PhotoNext(s, ok, loaded, count)
    case RunControl(created) => ControlNext(s, created)
    case Begin(id, call) => s.(callers := s.callers[id := CallLock(call)])
    case Configure(id, status) => s.(callers := s.callers[id := ConfigLock(status)])
    case RunCaller(id) => CallerNext(s, id)
  }

  // ---- runs --------------------------------------------------------------------------------------------

  /** A run: the states it goes through and the actions between them. */
  datatype Run = Run(states: seq<State>, actions: seq<Action>)

  ghost predicate IsRun(r: Run) {
    && |r.states| == |r.actions| + 1 && Init(r.states[0])
    && forall i | 0 <= i < |r.actions| :: Enabled(r.states[i], r.actions[i])
                                          && r.states[i + 1] == Next(r.states[i], r.actions[i])
  }
}
