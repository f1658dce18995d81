/** When a change on the first frame can go stale: from a run whose first frame can still be processed some
    continuation does, exactly unless stop() has cleared running_ or is about to under mutex_. */
module WorkerRelease {
  import opened Worker
  import opened WorkerLife
  import opened WorkerLocks
  import opened WorkerFrames
  import opened WorkerWindow

  /** The first frame can still be processed, and stop() has not closed the loop. */
  predicate Open(s: State) {
    Decodable(s.process) && !s.frames.hasRaw && s.frames.running && s.control != StopIn
  }

  lemma LastInvariants(r: Run)
    requires IsRun(r)
    ensures |r.states| > 0 && LocksInv(Last(r)) && LifeInv(Last(r)) && FramesInv(Last(r).frames, Last(r).process)
  {
    hide IsRun, LocksInv, LifeInv, FramesInv;
    assert |r.states| > 0 by { NotEmpty(r); }
    LocksAlways(r, |r.states| - 1);
    LifeAlways(r, |r.states| - 1);
    FramesAlways(r, |r.states| - 1);
  }

  lemma NotEmpty(r: Run)
    requires IsRun(r)
    ensures |r.states| > 0
  {}

  // ---- whoever holds a lock can put it down ---------------------------------------------------------------

  /** The thread stands where it stood. */
  predicate Stands(s: State, t: State, u: Thread) {
    match u
    case Process => t.process == s.process
    case Photo => t.photo == s.photo
    case Control => t.control == s.control
    case Caller(id) => id in s.callers && id in t.callers && t.callers[id] == s.callers[id]
  }

  /** What letting go of photoMutex_ leaves: the lock is free, the window open, the holder of mutex_ in its place. */
  ghost predicate PutDown(s: State, t: State) {
    && Open(t) && t.photoMutex == Free && t.mutex == s.mutex
    && (s.mutex.Held? ==> Stands(s, t, s.mutex.thread))
  }

  lemma PhotoPutsDown(s: State)
    requires LocksInv(s) && Open(s) && s.photoMutex == Held(Photo) && s.mutex != Held(Photo)
    ensures PhotoCan(s, false, 0) && PutDown(s, PhotoNext(s, false, false, 0))
  {
    Owners(s, Photo);
    assert s.photo.GateIn? || s.photo.JobIn? || s.photo.FinishIn?;
    hide LocksInv, Outcome, Changed, Queued, Published, JobTaken, JobFinished, HoldsMutex, HoldsPhotoMutex;
    match s.photo
    case GateIn => if s.jobs.running && !s.jobs.configured {} else if !s.jobs.running {}
    case JobIn => if s.jobs.running && !s.jobs.pending {} else if !s.jobs.pending {}
    case FinishIn(job, o) =>
  }

  lemma ControlPutsDown(s: State)
    requires LocksInv(s) && Open(s) && s.photoMutex == Held(Control) && s.mutex != Held(Control)
    ensures ControlCan(s) && PutDown(s, ControlNext(s, true))
  {
    Owners(s, Control);
    if s.mutex.Held? {
      Owners(s, s.mutex.thread);
    }
    hide LocksInv;
  }

  lemma CallerPutsDown(s: State, id: nat)
    requires LocksInv(s) && Open(s) && s.photoMutex == Held(Caller(id)) && s.mutex != Held(Caller(id))
    ensures CallerCan(s, id) && PutDown(s, CallerNext(s, id))
  {
    Owners(s, Caller(id));
    if s.mutex.Held? {
      Owners(s, s.mutex.thread);
    }
    hide LocksInv;
  }

  /** A thread that holds photoMutex_ and not mutex_ puts it down in one step. */
  lemma PhotoMutexFrees(r: Run, t: Thread) returns (q: Run)
    requires IsRun(r) && Open(Last(r)) && Last(r).photoMutex == Held(t) && Last(r).mutex != Held(t)
    ensures IsRun(q) && r.states <= q.states && PutDown(Last(r), Last(q))
  {
    LastInvariants(r);
    Owners(Last(r), t);
    hide IsRun, LocksInv, LifeInv, FramesInv, PutDown, PhotoNext, ControlNext, CallerNext;
    match t {
      case Process => q := r;
      case Photo =>
        PhotoPutsDown(Last(r));
        q := Goes(r, RunPhoto(false, false, 0));
      case Control =>
        ControlPutsDown(Last(r));
        q := Goes(r, RunControl(true));
      case Caller(id) =>
        CallerPutsDown(Last(r), id);
        q := Goes(r, RunCaller(id));
    }
  }

  /** Nobody holds photoMutex_, or a thread that also holds mutex_ does. */
  lemma PhotoMutexAvailable(r: Run) returns (q: Run)
    requires IsRun(r) && Open(Last(r)) && Last(r).mutex.Held?
    ensures IsRun(q) && r.states <= q.states && Open(Last(q)) && Last(q).mutex == Last(r).mutex
    ensures Last(q).photoMutex == Free || Last(q).photoMutex == Last(q).mutex
    ensures Stands(Last(r), Last(q), Last(r).mutex.thread)
  {
    LastInvariants(r);
    Owners(Last(r), Last(r).mutex.thread);
    hide IsRun, LocksInv, LifeInv, FramesInv;
    q := r;
    if Last(r).photoMutex.Held? && Last(r).photoMutex != Last(r).mutex {
      q := PhotoMutexFrees(r, Last(r).photoMutex.thread);
    }
  }

  /** A caller past its check takes photoMutex_, queues, and leaves both locks. */
  lemma QueueingCallerFrees(r: Run, id: nat) returns (q: Run)
    requires IsRun(r) && Open(Last(r)) && Last(r).mutex == Held(Caller(id)) && Last(r).photoMutex == Free
    requires id in Last(r).callers && Last(r).callers[id].QueueLock?
    ensures IsRun(q) && r.states <= q.states && Open(Last(q)) && Last(q).mutex == Free
  {
    hide IsRun;
    q := Goes(r, RunCaller(id));
    q := Goes(q, RunCaller(id));
    q := Goes(q, RunCaller(id));
  }

  lemma CallerFrees(r: Run, id: nat) returns (q: Run)
    requires IsRun(r) && Open(Last(r)) && Last(r).mutex == Held(Caller(id))
    requires Last(r).photoMutex == Free || Last(r).photoMutex == Held(Caller(id))
    ensures IsRun(q) && r.states <= q.states && Open(Last(q)) && Last(q).mutex == Free
  {
    LastInvariants(r);
    Owners(Last(r), Caller(id));
    hide IsRun, LocksInv, LifeInv, FramesInv;
    var pc := Last(r).callers[id];
    if pc.QueueLock? {
      q := QueueingCallerFrees(r, id);
    } else {
      q := Goes(r, RunCaller(id));
      if pc.QueueIn? {
        q := Goes(q, RunCaller(id));
      } else if pc.CallIn? && Last(q).mutex != Free {
        q := QueueingCallerFrees(q, id);
      }
    }
  }

  lemma ReloadFrees(r: Run) returns (q: Run)
    requires IsRun(r) && Open(Last(r)) && Last(r).mutex == Held(Photo) && Last(r).photoMutex == Free
    requires Last(r).photo.ReloadLock?
    ensures IsRun(q) && r.states <= q.states && Open(Last(q)) && Last(q).mutex == Free
  {
    hide IsRun;
    q := Goes(r, RunPhoto(false, false, 0));
    q := Goes(q, RunPhoto(false, false, 0));
    q := Goes(q, RunPhoto(false, false, 0));
  }

  lemma PhotoFrees(r: Run) returns (q: Run)
    requires IsRun(r) && Open(Last(r)) && Last(r).mutex == Held(Photo)
    requires Last(r).photoMutex == Free || Last(r).photoMutex == Held(Photo)
    ensures IsRun(q) && r.states <= q.states && Open(Last(q)) && Last(q).mutex == Free
  {
    LastInvariants(r);
    Owners(Last(r), Photo);
    hide IsRun, LocksInv, LifeInv, FramesInv;
    var pc := Last(r).photo;
    if pc.ReloadLock? {
      q := ReloadFrees(r);
    } else {
      q := Goes(r, RunPhoto(false, false, 0));
      if pc.ReloadIn? {
        q := Goes(q, RunPhoto(false, false, 0));
      } else if pc.PublishIn? && Last(q).mutex != Free {
        q := ReloadFrees(q);
      }
    }
  }

  lemma ControlFrees(r: Run) returns (q: Run)
    requires IsRun(r) && Open(Last(r)) && Last(r).mutex == Held(Control)
    ensures IsRun(q) && r.states <= q.states && Open(Last(q)) && Last(q).mutex == Free
  {
    LastInvariants(r);
    Owners(Last(r), Control);
    assert Last(r).control.ReportIn?;
    hide IsRun, LocksInv, LifeInv, FramesInv;
    q := Goes(r, RunControl(true));
  }

  /** From every open state the holder of mutex_ can be let go on until the lock is free. */
  lemma MutexFrees(r: Run) returns (q: Run)
    requires IsRun(r) && Open(Last(r))
    ensures IsRun(q) && r.states <= q.states && Open(Last(q)) && Last(q).mutex == Free
  {
    LastInvariants(r);
    if Last(r).mutex.Held? {
      Owners(Last(r), Last(r).mutex.thread);
    }
    hide IsRun, LocksInv, LifeInv, FramesInv;
    q := r;
    if Last(r).mutex.Held? {
      q := PhotoMutexAvailable(r);
      match Last(r).mutex.thread {
        case Process =>
        case Photo => q := PhotoFrees(q);
        case Control => q := ControlFrees(q);
        case Caller(id) => q := CallerFrees(q, id);
      }
    }
  }

  lemma {:induction false} NewCaller(taken: set<nat>) returns (id: nat)
    ensures id !in taken && forall k <- taken :: k < id
    decreases |taken|
  {
    if taken == {} {
      id := 0;
    } else {
      var k :| k in taken;
      id := NewCaller(taken - {k});
      if id <= k {
        id := k + 1;
      }
      assert forall j <- taken :: j == k || j in taken - {k};
    }
  }

  /** From every open state some continuation filters a frame with a stale buffer. */
  lemma OpenGoesStale(r: Run) returns (q: Run)
    requires IsRun(r) && Open(Last(r))
    ensures IsRun(q) && r.states <= q.states && Last(q).frames.stale
  {
    hide IsRun;
    var free := MutexFrees(r);
    assert |free.states| > 0 by { NotEmpty(free); }
    var id := NewCaller(Last(free).callers.Keys);
    q := ChangeInWindowGoesStale(free, id);
  }

  // ---- a closed window stays closed ---------------------------------------------------------------------

  /** stop() has the process thread where it wants it: a frame in flight is the last one, and uses no history. */
  predicate Ending(s: State) {
    && (s.control == StopIn || ProcessTold(s.control)) && !s.frames.stale
    && (InFlight(s.process) ==> !s.process.taken.history)
    && !InRefilter(s.process)
    && (s.process.LoopIn? ==> ProcessTold(s.control))
  }

  lemma ControlEnds(s: State, created: bool)
    requires Ending(s) && ControlCan(s)
    ensures Ending(ControlNext(s, created))
  {
    if AtStart(s.control) {}
  }

  lemma ProcessEnds(s: State, decoded: bool)
    requires Ending(s) && LocksInv(s) && LifeInv(s) && ProcessCan(s)
    ensures Ending(ProcessNext(s, decoded))
  {
    Owners(s, Control);
    hide LocksInv;
    match s.process
    case LoopLock =>
    case LoopIn =>
    case Decoding(t) =>
    case FrameIn(t, d) =>
    case _ =>
  }

  lemma EndingKept(s: State, a: Action)
    requires Ending(s) && LocksInv(s) && LifeInv(s) && Enabled(s, a)
    ensures Ending(Next(s, a))
  {
    if a.RunProcess? {
      hide LocksInv, LifeInv, ProcessNext, Ending;
      ProcessEnds(s, a.decoded);
    } else if a.RunControl? {
      hide LocksInv, LifeInv, ControlNext, Ending;
      ControlEnds(s, a.created);
    } else {
      hide LocksInv;
      OutsideSteps(s, a);
      OthersKeepControl(s, a);
      assert !s.process.ProcessUnborn?;
      hide LifeInv, Next, Enabled;
      assert Next(s, a).frames.stale == s.frames.stale;
    }
  }

  lemma OthersKeepControl(s: State, a: Action)
    requires Enabled(s, a) && !a.RunControl? && !a.RunProcess?
    ensures Next(s, a).control == s.control
  {
    hide Submitted, Changed, Queued, Configured, Published, JobTaken, JobFinished, Outcome, Moved, JobOf;
    match a
    case RunPhoto(ok, loaded, count) => PhotoTouches(s, ok, loaded, count);
    case RunCaller(id) =>
    case Begin(id, call) =>
    case Configure(id, status) =>
  }

  lemma {:induction false} EndingStays(r: Run, i: nat, j: nat)
    requires IsRun(r) && i <= j < |r.states| && Ending(r.states[i])
    ensures Ending(r.states[j])
    decreases j
  {
    hide Next, Enabled, Init, LocksInv, LifeInv, Ending;
    if i < j {
      EndingStays(r, i, j - 1);
      LocksAlways(r, j - 1);
      LifeAlways(r, j - 1);
      assert Enabled(r.states[j - 1], r.actions[j - 1]);
      EndingKept(r.states[j - 1], r.actions[j - 1]);
    }
  }

  /** While the first frame can still be processed: some continuation goes stale if and only if stop() has neither
      cleared running_ nor taken mutex_ to clear it. */
  lemma WindowExactly(r: Run)
    requires IsRun(r) && Decodable(Last(r).process) && !Last(r).frames.hasRaw
    ensures (exists q: Run :: IsRun(q) && r.states <= q.states && Last(q).frames.stale)
            <==> Last(r).frames.running && Last(r).control != StopIn
  {
    LastInvariants(r);
    var n := |r.states|;
    if Last(r).frames.running && Last(r).control != StopIn {
      hide IsRun;
      var q := OpenGoesStale(r);
    } else {
      assert Ending(Last(r)) by { hide LocksInv; }
      forall q: Run | IsRun(q) && r.states <= q.states ensures !Last(q).frames.stale {
        assert q.states[n - 1] == r.states[n - 1];
        hide IsRun, LocksInv, LifeInv, FramesInv, Decodable;
        EndingStays(q, n - 1, |q.states| - 1);
      }
    }
  }
}
