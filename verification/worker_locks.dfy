/** Lock ownership and freedom from deadlock. photoMutex_ may be taken under mutex_, but whoever holds
    photoMutex_ waits for nothing, and stop() joins while holding neither lock. */
module WorkerLocks {
  import opened Worker
  import opened WorkerLife

  // ---- what a program counter holds and waits for ------------------------------------------------------

  predicate ProcessHolds(pc: ProcessPc) {
    pc.LoopIn? || pc.FrameIn? || pc.RefilterIn?
  }

  predicate PhotoHolds(pc: PhotoPc) {
    pc.OpenedIn? || pc.PublishIn? || pc.ReloadLock? || pc.ReloadIn? || pc.PublishEnd?
  }

  predicate PhotoHoldsPhoto(pc: PhotoPc) {
    pc.GateIn? || pc.JobIn? || pc.FinishIn? || pc.ReloadIn?
  }

  predicate ControlHolds(pc: ControlPc) {
    pc.StartIn? || pc.FailIn? || pc.ReportIn? || pc.StopIn?
  }

  predicate ControlHoldsPhoto(pc: ControlPc) {
    pc.PhotoOnIn? || pc.PhotoOffIn? || pc.StopPhotoIn?
  }

  predicate CallerHolds(pc: CallerPc) {
    pc.CallIn? || pc.QueueLock? || pc.QueueIn? || pc.CallEnd? || pc.AttemptsIn?
  }

  predicate CallerHoldsPhoto(pc: CallerPc) {
    pc.QueueIn? || pc.ConfigIn?
  }

  predicate HoldsMutex(s: State, t: Thread) {
    match t
    case Process => ProcessHolds(s.process)
    case Photo => PhotoHolds(s.photo)
    case Control => ControlHolds(s.control)
    case Caller(id) => id in s.callers && CallerHolds(s.callers[id])
  }

  predicate HoldsPhotoMutex(s: State, t: Thread) {
    match t
    case Process => false
    case Photo => PhotoHoldsPhoto(s.photo)
    case Control => ControlHoldsPhoto(s.control)
    case Caller(id) => id in s.callers && CallerHoldsPhoto(s.callers[id])
  }

  predicate WantsMutex(s: State, t: Thread) {
    match t
    case Process => s.process.LoopLock? || s.process.FrameLock? || s.process.RefilterLock?
    case Photo => s.photo.OpenedLock? || s.photo.PublishLock?
    case Control => s.control.StartLock? || s.control.FailLock? || s.control.ReportLock? || s.control.StopLock?
    case Caller(id) => id in s.callers && (s.callers[id].CallLock? || s.callers[id].AttemptsLock?)
  }

  predicate WantsPhotoMutex(s: State, t: Thread) {
    match t
    case Process => false
    case Photo => s.photo.GateLock? || s.photo.JobLock? || s.photo.FinishLock? || s.photo.ReloadLock?
    case Control => s.control.PhotoOnLock? || s.control.PhotoOffLock? || s.control.StopPhotoLock?
    case Caller(id) => id in s.callers && (s.callers[id].QueueLock? || s.callers[id].ConfigLock?)
  }

  /** t cannot go on before u has: u holds the lock t asks for, or t joins u and u is still running. */
  predicate WaitsFor(s: State, t: Thread, u: Thread) {
    || (WantsMutex(s, t) && s.mutex == Held(u))
    || (WantsPhotoMutex(s, t) && s.photoMutex == Held(u))
    || (t == Control && s.control == JoinProcess && u == Process && s.process != ProcessDone)
    || (t == Control && s.control == JoinPhoto && u == Photo && s.photo != PhotoDone && s.photo != PhotoUnborn)
  }

  // ---- ownership ---------------------------------------------------------------------------------------

  /** The recorded owner of each lock is exactly the thread inside a section it guards. */
  ghost predicate LocksInv(s: State) {
    && (forall t: Thread :: s.mutex == Held(t) <==> HoldsMutex(s, t))
    && (forall t: Thread :: s.photoMutex == Held(t) <==> HoldsPhotoMutex(s, t))
  }

  /** The other threads hold what they held. */
  ghost predicate OnlyMoves(s: State, t: State, mover: Thread) {
    forall u: Thread | u != mover ::
      HoldsMutex(t, u) == HoldsMutex(s, u) && HoldsPhotoMutex(t, u) == HoldsPhotoMutex(s, u)
  }

  /** A lock changes hands only between the mover and nobody, and it follows what the mover holds. */
  ghost predicate Follows(before: Owner, after: Owner, mover: Thread, held: bool, holds: bool) {
    if holds then after == Held(mover) && (before == Free || before == Held(mover))
    else if held then after == Free
    else after == before
  }

  lemma OwnershipFollows(s: State, t: State, mover: Thread)
    requires LocksInv(s) && OnlyMoves(s, t, mover)
    requires Follows(s.mutex, t.mutex, mover, HoldsMutex(s, mover), HoldsMutex(t, mover))
    requires Follows(s.photoMutex, t.photoMutex, mover, HoldsPhotoMutex(s, mover), HoldsPhotoMutex(t, mover))
    ensures LocksInv(t)
  {
    forall u: Thread ensures (t.mutex == Held(u) <==> HoldsMutex(t, u))
                             && (t.photoMutex == Held(u) <==> HoldsPhotoMutex(t, u)) {
      assert s.mutex == Held(mover) <==> HoldsMutex(s, mover);
      assert s.photoMutex == Held(mover) <==> HoldsPhotoMutex(s, mover);
      if u != mover {
        assert HoldsMutex(t, u) == HoldsMutex(s, u);
        assert HoldsPhotoMutex(t, u) == HoldsPhotoMutex(s, u);
      }
    }
  }

  function Mover(a: Action): Thread {
    match a
    case RunProcess(_) => Process
    case RunPhoto(_, _, _) => Photo
    case RunControl(_) => Control
    case Begin(id, _) => Caller(id)
    case Configure(id, _) => Caller(id)
    case RunCaller(id) => Caller(id)
  }

  ghost predicate StepsAs(s: State, t: State, m: Thread) {
    && OnlyMoves(s, t, m)
    && Follows(s.mutex, t.mutex, m, HoldsMutex(s, m), HoldsMutex(t, m))
    && Follows(s.photoMutex, t.photoMutex, m, HoldsPhotoMutex(s, m), HoldsPhotoMutex(t, m))
  }

  lemma ProcessFollows(s: State, decoded: bool)
    requires LocksInv(s) && ProcessCan(s)
    ensures StepsAs(s, ProcessNext(s, decoded), Process)
  {
    hide Submitted, Changed, FrameTaken, Filtered, FrameFinished, RefilterStarted, RefilterFinished, Queued, JobTaken;
    hide JobFinished, Cleared, Configured, Outcome, Published, Moved, CallBody, JobOf, UsesHistory, LocksInv;
    Owners(s, Process);
  }

  lemma PhotoFollows(s: State, ok: bool, loaded: bool, count: nat)
    requires LocksInv(s) && PhotoCan(s, ok, count)
    ensures StepsAs(s, PhotoNext(s, ok, loaded, count), Photo)
  {
    hide LocksInv, StepsAs, OpeningNext, JobNext;
    if AtOpening(s.photo) {
      OpeningFollows(s, ok, loaded, count);
    } else {
      JobFollows(s, ok, count);
    }
  }

  lemma OpeningFollows(s: State, ok: bool, loaded: bool, count: nat)
    requires LocksInv(s) && PhotoCan(s, ok, count) && AtOpening(s.photo)
    ensures StepsAs(s, OpeningNext(s, ok, loaded, count), Photo)
  {
    hide Submitted, Changed, Queued, JobTaken, JobFinished, Configured, Outcome, Published, LocksInv;
    Owners(s, Photo);
  }

  lemma JobFollows(s: State, ok: bool, count: nat)
    requires LocksInv(s) && PhotoCan(s, ok, count) && !AtOpening(s.photo)
    ensures StepsAs(s, JobNext(s, ok, count), Photo)
  {
    hide LocksInv, StepsAs, TakeNext, PublishNext;
    if AtPublishing(s.photo) {
      PublishFollows(s, ok);
    } else {
      TakeFollows(s, ok, count);
    }
  }

  lemma TakeFollows(s: State, ok: bool, count: nat)
    requires LocksInv(s) && PhotoCan(s, ok, count) && !AtOpening(s.photo) && !AtPublishing(s.photo)
    ensures StepsAs(s, TakeNext(s, ok, count), Photo)
  {
    hide JobTaken, JobFinished, Outcome, LocksInv;
    Owners(s, Photo);
  }

  lemma PublishFollows(s: State, ready: bool)
    requires LocksInv(s) && PhotoCan(s, ready, 0) && AtPublishing(s.photo)
    ensures StepsAs(s, PublishNext(s, ready), Photo)
  {
    hide Queued, Published, LocksInv;
    Owners(s, Photo);
  }

  lemma ControlFollows(s: State, created: bool)
    requires LocksInv(s) && LifeInv(s) && ControlCan(s)
    ensures StepsAs(s, ControlNext(s, created), Control)
  {
    hide LocksInv, LifeInv, StepsAs, StartNext, StopNext;
    if AtStart(s.control) {
      StartFollows(s, created);
    } else {
      StopFollows(s);
    }
  }

  lemma StartFollows(s: State, created: bool)
    requires LocksInv(s) && LifeInv(s) && ControlCan(s) && AtStart(s.control)
    ensures StepsAs(s, StartNext(s, created), Control)
  {
    assert BeforeProcess(s.control) ==> s.process.ProcessUnborn?;
    assert BeforePhoto(s.control) ==> s.photo.PhotoUnborn?;
    hide Lives, LocksInv;
    Owners(s, Control);
  }

  lemma StopFollows(s: State)
    requires LocksInv(s) && ControlCan(s) && !AtStart(s.control)
    ensures StepsAs(s, StopNext(s), Control)
  {
    hide Cleared, LocksInv;
    Owners(s, Control);
  }

  lemma CallerFollows(s: State, id: nat)
    requires LocksInv(s) && CallerCan(s, id)
    ensures StepsAs(s, CallerNext(s, id), Caller(id))
  {
    hide Submitted, Changed, FrameTaken, Filtered, FrameFinished, RefilterStarted, RefilterFinished, Queued, JobTaken;
    hide JobFinished, Cleared, Configured, Outcome, Published, Moved, CallBody, JobOf, UsesHistory, LocksInv;
    Owners(s, Caller(id));
  }

  lemma StepFollows(s: State, a: Action)
    requires LocksInv(s) && LifeInv(s) && Enabled(s, a)
    ensures StepsAs(s, Next(s, a), Mover(a))
  {
    hide LocksInv, LifeInv, StepsAs, ProcessNext, PhotoNext, ControlNext, CallerNext;
    hide ProcessCan, PhotoCan, ControlCan, CallerCan;
    match a
    case RunProcess(decoded) => ProcessFollows(s, decoded);
    case RunPhoto(ok, loaded, count) => PhotoFollows(s, ok, loaded, count);
    case RunControl(created) => ControlFollows(s, created);
    case RunCaller(id) => CallerFollows(s, id);
    case Begin(id, call) => BeginFollows(s, a, id);
    case Configure(id, status) => BeginFollows(s, a, id);
  }

  lemma BeginFollows(s: State, a: Action, id: nat)
    requires LocksInv(s) && Enabled(s, a) && (a.Begin? || a.Configure?) && a.caller == id
    ensures StepsAs(s, Next(s, a), Caller(id))
  {
    Owners(s, Caller(id));
  }

  lemma Owners(s: State, t: Thread)
    requires LocksInv(s)
    ensures s.mutex == Held(t) <==> HoldsMutex(s, t)
    ensures s.photoMutex == Held(t) <==> HoldsPhotoMutex(s, t)
  {}

  lemma LocksKept(s: State, a: Action)
    requires LocksInv(s) && LifeInv(s) && Enabled(s, a)
    ensures LocksInv(Next(s, a))
  {
    hide LocksInv, LifeInv, Next, OnlyMoves, Follows, HoldsMutex, HoldsPhotoMutex;
    StepFollows(s, a);
    OwnershipFollows(s, Next(s, a), Mover(a));
  }

  lemma LocksAtStart(s: State)
    requires Init(s)
    ensures LocksInv(s)
  {}

  lemma {:induction false} LocksAlways(r: Run, i: nat)
    requires IsRun(r) && i < |r.states|
    ensures LocksInv(r.states[i])
  {
    hide LocksInv, LifeInv, Next, Enabled, Init;
    if i == 0 {
      LocksAtStart(r.states[0]);
    } else {
      LocksAlways(r, i - 1);
      LifeAlways(r, i - 1);
      assert Enabled(r.states[i - 1], r.actions[i - 1]);
      LocksKept(r.states[i - 1], r.actions[i - 1]);
    }
  }

  // ---- no circular wait --------------------------------------------------------------------------------

  /** Waiting strictly descends: a joiner waits for a thread, a thread for mutex_, its holder for photoMutex_,
      and the holder of that for nothing. */
  function Rank(s: State, t: Thread): nat {
    if WantsPhotoMutex(s, t) then 1
    else if WantsMutex(s, t) then 2
    else if t == Control && (s.control == JoinProcess || s.control == JoinPhoto) then 3
    else 0
  }

  lemma WaitingDescends(s: State, t: Thread, u: Thread)
    requires LocksInv(s) && WaitsFor(s, t, u)
    ensures Rank(s, u) < Rank(s, t)
  {
    Owners(s, u);
  }

  /** In no reachable state is there a set of threads each waiting for another of the set. */
  lemma NoCircularWait(r: Run, i: nat, threads: set<Thread>)
    requires IsRun(r) && i < |r.states| && threads != {}
    ensures exists t | t in threads :: forall u | u in threads :: !WaitsFor(r.states[i], t, u)
  {
    hide IsRun, LocksInv, WaitsFor, Rank;
    var s := r.states[i];
    LocksAlways(r, i);
    var t := Lowest(s, threads);
    forall u | u in threads ensures !WaitsFor(s, t, u) {
      if WaitsFor(s, t, u) {
        WaitingDescends(s, t, u);
      }
    }
  }

  lemma {:induction false} Lowest(s: State, threads: set<Thread>) returns (t: Thread)
    requires threads != {}
    ensures t in threads && forall u | u in threads :: Rank(s, t) <= Rank(s, u)
    decreases |threads|
  {
    hide Rank;
    t :| t in threads;
    var rest := threads - {t};
    if rest != {} {
      var v := Lowest(s, rest);
      if Rank(s, v) < Rank(s, t) {
        t := v;
      }
      forall u | u in threads ensures Rank(s, t) <= Rank(s, u) {
        assert u in rest || u !in rest;
      }
    }
  }

  // ---- something can always move -----------------------------------------------------------------------

  /** Some action of t is enabled. */
  ghost predicate CanMove(s: State, t: Thread) {
    exists a: Action :: Mover(a) == t && Enabled(s, a)
  }

  predicate Finished(s: State, t: Thread) {
    match t
    case Process => s.process == ProcessUnborn || s.process == ProcessDone
    case Photo => s.photo == PhotoUnborn || s.photo == PhotoDone
    case Control => s.control == NeverStarted || s.control == Stopped
    case Caller(_) => false
  }

  /** A thread that cannot move has finished, or waits for another thread by name. */
  lemma StuckMeansWaiting(s: State, t: Thread)
    requires LocksInv(s) && !Finished(s, t) && !CanMove(s, t)
    ensures exists u: Thread :: WaitsFor(s, t, u)
  {
    hide LocksInv;
    match t {
      case Process =>
        assert !Enabled(s, RunProcess(true));
        assert s.mutex.Held? && WaitsFor(s, t, s.mutex.thread);
      case Photo =>
        assert !Enabled(s, RunPhoto(false, false, 0)) && !Enabled(s, RunPhoto(false, false, s.stored));
        if WantsMutex(s, t) {
          assert WaitsFor(s, t, s.mutex.thread);
        } else {
          assert WaitsFor(s, t, s.photoMutex.thread);
        }
      case Control =>
        assert !Enabled(s, RunControl(true));
        if WantsMutex(s, t) {
          assert WaitsFor(s, t, s.mutex.thread);
        } else if WantsPhotoMutex(s, t) {
          assert WaitsFor(s, t, s.photoMutex.thread);
        } else if s.control == JoinProcess {
          assert WaitsFor(s, t, Process);
        } else {
          assert WaitsFor(s, t, Photo);
        }
      case Caller(id) =>
        assert !Enabled(s, RunCaller(id));
        assert Mover(Begin(id, Other)) == t;
        assert !Enabled(s, Begin(id, Other));
        if WantsMutex(s, t) {
          assert WaitsFor(s, t, s.mutex.thread);
        } else {
          assert WaitsFor(s, t, s.photoMutex.thread);
        }
    }
  }

  /** Whoever holds photoMutex_ can move, and whoever holds mutex_ can move or waits for a thread that can. */
  lemma HoldersMove(s: State, t: Thread)
    requires LocksInv(s) && (s.mutex == Held(t) || s.photoMutex == Held(t))
    ensures CanMove(s, t) || (WantsPhotoMutex(s, t) && s.photoMutex.Held? && CanMove(s, s.photoMutex.thread))
  {
    hide LocksInv, CanMove, WaitsFor;
    Owners(s, t);
    if !CanMove(s, t) {
      StuckMeansWaiting(s, t);
      var u: Thread :| WaitsFor(s, t, u);
      WaitingDescends(s, t, u);
      HolderWaits(s, t, u);
      if !CanMove(s, u) {
        Owners(s, u);
        StuckMeansWaiting(s, u);
        var v: Thread :| WaitsFor(s, u, v);
        WaitingDescends(s, u, v);
        RankOfHolder(s, u);
      }
    }
  }

  lemma HolderWaits(s: State, t: Thread, u: Thread)
    requires (HoldsMutex(s, t) || HoldsPhotoMutex(s, t)) && WaitsFor(s, t, u)
    ensures WantsPhotoMutex(s, t) && s.photoMutex == Held(u) && Rank(s, t) == 1
  {}

  lemma RankOfHolder(s: State, u: Thread)
    requires HoldsPhotoMutex(s, u)
    ensures Rank(s, u) == 0 && !Finished(s, u)
  {}
}
