/** The exception to the history rule is real: a run goes stale, and so can every run whose first frame is still to
    be processed, by a change of style. A change on a first frame that is already lost does no harm. */
module WorkerWindow {
  import opened Worker
  import opened WorkerFrames
  import opened WorkerLife

  function Last(r: Run): State
    requires |r.states| > 0
  {
    r.states[|r.states| - 1]
  }

  lemma Goes(r: Run, a: Action) returns (q: Run)
    requires IsRun(r) && Enabled(Last(r), a)
    ensures IsRun(q) && |q.states| == |r.states| + 1 && r.states <= q.states && Last(q) == Next(Last(r), a)
    ensures q.actions == r.actions + [a]
  {
    hide Init, Enabled, Next;
    q := Run(r.states + [Next(Last(r), a)], r.actions + [a]);
    forall i | 0 <= i < |q.actions| ensures Enabled(q.states[i], q.actions[i])
                                            && q.states[i + 1] == Next(q.states[i], q.actions[i]) {
      if i < |r.actions| {
        assert Enabled(r.states[i], r.actions[i]) && r.states[i + 1] == Next(r.states[i], r.actions[i]);
      }
    }
  }

  /** A free caller changes the style or submits a frame while nobody else moves. */
  lemma Calls(r: Run, id: nat, call: Call) returns (q: Run)
    requires IsRun(r) && Last(r).mutex == Free && MayBegin(Last(r), id) && (call.Submit? || call.Change?)
    ensures IsRun(q) && |q.states| == |r.states| + 3 && r.states <= q.states && Last(q).mutex == Free
    ensures MayBegin(Last(q), id) && Last(q).process == Last(r).process
    ensures Last(q).frames == if call.Submit? then Submitted(Last(r).frames) else Changed(Last(r).frames)
    ensures q.states[|r.states|].frames == q.states[|r.states| + 1].frames == Last(r).frames
  {
    hide Submitted, Changed, IsRun;
    q := Goes(r, Begin(id, call));
    q := Goes(q, RunCaller(id));
    q := Goes(q, RunCaller(id));
  }

  /** Asleep after a frame, with a history buffer that looks usable and is of another generation. */
  predicate Poisoned(s: State, id: nat) {
    && s.mutex == Free && s.process.Asleep? && MayBegin(s, id)
    && s.frames.running && !s.frames.pending && !s.frames.inUse
    && UsesHistory(s.frames) && s.frames.previousGeneration != s.frames.generation
  }

  /** A frame in flight that will be processed: it is being decoded, or its decoding has succeeded. */
  predicate Decodable(pc: ProcessPc) {
    pc.Decoding? || (pc.FrameLock? && pc.decoded)
  }

  /** A frame of an old generation is in flight, nobody holds mutex_, and a caller is free. */
  predicate Outdated(s: State, id: nat) {
    && s.mutex == Free && MayBegin(s, id) && Decodable(s.process)
    && s.frames.running && !s.frames.pending && !s.frames.styleDirty
    && s.process.taken.generation != s.frames.generation
  }

  lemma DecodeFirstFrame(r: Run, id: nat) returns (q: Run)
    requires IsRun(r) && |r.states| > 0 && Outdated(Last(r), id) && Last(r).process.Decoding?
    ensures IsRun(q) && r.states <= q.states && Outdated(Last(q), id) && Last(q).process.FrameLock?
  {
    hide IsRun;
    q := Goes(r, RunProcess(true));
  }

  lemma FinishFirstFrame(r: Run, id: nat) returns (q: Run)
    requires IsRun(r) && |r.states| > 0 && Outdated(Last(r), id) && Last(r).process.FrameLock?
    ensures IsRun(q) && r.states <= q.states && Poisoned(Last(q), id)
  {
    hide IsRun;
    q := Goes(r, RunProcess(true));
    q := Goes(q, RunProcess(true));
  }

  lemma FilterOneMore(r: Run, id: nat) returns (q: Run)
    requires IsRun(r) && Poisoned(Last(r), id)
    ensures IsRun(q) && r.states <= q.states && Last(q).frames.stale
  {
    hide IsRun;
    q := Calls(r, id, Submit);
    q := Goes(q, RunProcess(true));
    q := Goes(q, RunProcess(true));
    q := Goes(q, RunProcess(true));
    q := Goes(q, RunProcess(true));
  }

  lemma FlightFacts(f: Frames, pc: ProcessPc)
    requires FramesInv(f, pc) && Decodable(pc) && !f.hasRaw
    ensures f.inUse && !f.pending && pc.taken.generation <= f.generation
  {}

  lemma LandChange(r: Run, id: nat) returns (c: Run)
    requires IsRun(r) && Decodable(Last(r).process) && !Last(r).frames.hasRaw
    requires Last(r).mutex == Free && MayBegin(Last(r), id)
    ensures IsRun(c) && r.states <= c.states && |c.states| == |r.states| + 3 && LandsOnFirstFrame(c, |r.states| + 1)
    ensures Last(r).frames.running ==> Outdated(Last(c), id)
  {
    assert |r.states| > 0;
    hide IsRun, MayBegin, FramesInv;
    FramesAlways(r, |r.states| - 1);
    FlightFacts(Last(r).frames, Last(r).process);
    c := Calls(r, id, Change);
  }

  /** A change of style made while the first frame can still be processed, and mutex_ is free, can go stale. */
  lemma ChangeInWindowGoesStale(r: Run, id: nat) returns (q: Run)
    requires IsRun(r) && Decodable(Last(r).process) && !Last(r).frames.hasRaw && Last(r).frames.running
    requires Last(r).mutex == Free && MayBegin(Last(r), id)
    ensures IsRun(q) && r.states <= q.states && Last(q).frames.stale
    ensures exists k: nat | |r.states| <= k + 1 < |q.states| :: LandsOnFirstFrame(q, k)
  {
    assert |r.states| > 0;
    assert Decodable(Last(r).process);
    hide IsRun, MayBegin;
    var n := |r.states|;
    var c := LandChange(r, id);
    var d := c;
    if c.states[n + 2].process.Decoding? {
      d := DecodeFirstFrame(c, id);
    }
    d := FinishFirstFrame(d, id);
    q := FilterOneMore(d, id);
    assert q.states[n + 1] == d.states[n + 1] == c.states[n + 1];
    assert q.states[n + 2] == d.states[n + 2] == c.states[n + 2];
    assert LandsOnFirstFrame(q, n + 1);
  }

  // ---- a run that goes stale ---------------------------------------------------------------------------

  function NoFrames(running: bool): Frames {
    Frames(running, false, false, false, false, false, 0, 0, 0, 0, 0, 0, false, false, false)
  }

  lemma EmptyRun() returns (r: Run)
    ensures IsRun(r) && Last(r).mutex == Free && Last(r).process.ProcessUnborn? && Last(r).control.Unstarted?
    ensures Last(r).callers == map[] && Last(r).frames == NoFrames(false)
  {
    var j := Jobs(false, true, Ready, false, false, Save, [], [], false, 0, false);
    var g := Gallery(false, false, 0, 0, 0, 0);
    r := Run([State(Free, Free, NoFrames(false), j, g, 0, ProcessUnborn, PhotoUnborn, Unstarted, map[])], []);
  }

  /** start() up to the creation of the process thread. */
  lemma StartedRun() returns (r: Run)
    ensures IsRun(r) && Last(r).mutex == Free && Last(r).process.LoopLock? && Last(r).callers == map[]
    ensures Last(r).frames == NoFrames(true)
  {
    r := EmptyRun();
    hide IsRun;
    r := Goes(r, RunControl(true));
    r := Goes(r, RunControl(true));
    r := Goes(r, RunControl(true));
    r := Goes(r, RunControl(true));
  }

  /** One caller submits a frame and the process thread takes it. */
  lemma FirstFrameRun() returns (r: Run)
    ensures IsRun(r) && Last(r).process.Decoding? && !Last(r).frames.hasRaw && Last(r).frames.running
    ensures Last(r).mutex == Free && MayBegin(Last(r), 0)
  {
    hide IsRun;
    r := StartedRun();
    r := Calls(r, 0, Submit);
    r := Goes(r, RunProcess(true));
    r := Goes(r, RunProcess(true));
  }

  /** The history does not always reset on a style change: some run filters a frame with a stale buffer. */
  lemma SomeRunGoesStale() returns (r: Run)
    ensures IsRun(r) && Last(r).frames.stale
    ensures exists k: nat | k + 1 < |r.states| :: LandsOnFirstFrame(r, k)
  {
    hide IsRun, LandsOnFirstFrame, MayBegin;
    var first := FirstFrameRun();
    r := ChangeInWindowGoesStale(first, 0);
  }

  // ---- a change that lands too late to matter -------------------------------------------------------------

  predicate Undecodable(pc: ProcessPc) {
    (pc.FrameLock? || pc.FrameIn?) && !pc.decoded
  }

  /** A first frame that could not be decoded is lost: it stays in its place until the slot is empty again. */
  lemma {:induction false} LostFrame(r: Run, k: nat, i: nat)
    requires IsRun(r) && k <= i < |r.states| && Undecodable(r.states[k].process) && !r.states[k].frames.hasRaw
    ensures (Undecodable(r.states[i].process) && !r.states[i].frames.hasRaw)
            || exists m | k <= m <= i :: !Alive(r.states[m].frames)
    decreases i
  {
    hide Next, Enabled, LifeInv, FramesInv, Alive;
    if k < i {
      LostFrame(r, k, i - 1);
      LifeAlways(r, i - 1);
      FramesAlways(r, i - 1);
      assert Enabled(r.states[i - 1], r.actions[i - 1]);
      LostStep(r.states[i - 1], r.actions[i - 1]);
      assert Alive(r.states[i].frames) || !Alive(r.states[i].frames);
    }
  }

  lemma LostStep(s: State, a: Action)
    requires LifeInv(s) && FramesInv(s.frames, s.process) && Enabled(s, a)
    ensures Undecodable(s.process) && !s.frames.hasRaw ==>
              var t := Next(s, a);
              (Undecodable(t.process) && !t.frames.hasRaw) || !Alive(t.frames)
  {
    hide LifeInv;
    if a.RunProcess? {
    } else {
      hide FramesInv, Next, Enabled;
      OutsideSteps(s, a);
    }
  }

  /** A change that lands on a first frame already found undecodable makes no later frame stale. */
  lemma LateChangeIsHarmless(r: Run, k: nat, i: nat)
    requires IsRun(r) && k < i < |r.states| && Undecodable(r.states[k].process) && r.states[i].process.LoopIn?
    ensures !Unnoticed(r, k, i)
  {
    hide IsRun;
    if !r.states[k].frames.hasRaw {
      LostFrame(r, k, i);
    }
  }
}
