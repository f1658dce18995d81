/** The one-deep frame slot and the temporal history. Frames are conserved and the decoder owns its input; the
    history buffer handed to the filter is one of the current generation, with one exception that is followed
    exactly: a change that lands while the first frame is still being processed. */
module WorkerFrames {
  import opened Worker
  import opened WorkerLife

  // ---- the invariant -------------------------------------------------------------------------------

  predicate InFlight(pc: ProcessPc) {
    pc.Decoding? || pc.FrameLock? || pc.FrameIn?
  }

  predicate InRefilter(pc: ProcessPc) {
    pc.Refiltering? || pc.RefilterLock? || pc.RefilterIn?
  }

  predicate SlotInv(f: Frames, pc: ProcessPc) {
    && f.accepted == f.processed + f.failures + One(f.pending) + One(f.inUse)
    && !(f.pending && f.inUse)
    && (f.inUse <==> InFlight(pc))
    && f.jpeg == f.accepted
    && (InFlight(pc) ==> pc.taken.number == f.jpeg)
  }

  /** What `missed` says of the history buffer, of the frame in flight, and of a picture being filtered again. */
  predicate HistoryInv(f: Frames, pc: ProcessPc) {
    && (f.hasPrevious ==> f.hasRaw)
    && (f.styleDirty ==> f.hasRaw)
    && (!f.hasRaw && !f.inUse ==> !f.missed)
    && (UsesHistory(f) ==> (f.previousGeneration != f.generation <==> f.missed))
    && (InFlight(pc) ==> FlightInv(f, pc.taken))
    && (InRefilter(pc) ==> f.hasRaw && !f.hasPrevious && (f.styleDirty || pc.generation == f.generation))
    && (f.missed || f.stale ==> f.exposed)
    && (f.hasRaw <==> f.processed > 0)
    && (f.stale ==> f.hasRaw)
    && (f.styleDirty || InRefilter(pc) ==> !f.missed)
    && (f.missed ==> f.processed <= 1)
  }

  predicate FlightInv(f: Frames, t: Taken) {
    && t.generation <= f.generation
    && (f.hasRaw && !f.styleDirty ==> t.generation == f.generation)
    && (!f.hasRaw ==> !t.history && (t.generation != f.generation <==> f.missed))
    && (t.history ==> (f.previousGeneration != t.generation <==> t.missed))
    && (t.missed ==> f.exposed)
  }

  predicate FramesInv(f: Frames, pc: ProcessPc) {
    SlotInv(f, pc) && HistoryInv(f, pc)
  }

  // ---- steps of the other threads ---------------------------------------------------------------------

  /** What callers, the photo thread and the controller do to the frame slot. */
  predicate Outside(f: Frames, g: Frames) {
    g == f || g == Submitted(f) || g == Changed(f) || g == f.(running := true) || g == f.(running := false)
  }

  lemma OutsideKeeps(f: Frames, g: Frames, pc: ProcessPc)
    requires FramesInv(f, pc) && Outside(f, g)
    ensures FramesInv(g, pc)
  {
    hide FramesInv, Submitted, Changed;
    if g == f {
    } else if g == Submitted(f) {
      SubmittedKeeps(f, pc);
    } else if g == Changed(f) {
      ChangedKeeps(f, pc);
    } else {
      RunningKeeps(f, g.running, pc);
    }
  }

  lemma SubmittedKeeps(f: Frames, pc: ProcessPc)
    requires FramesInv(f, pc)
    ensures FramesInv(Submitted(f), pc)
  {}

  lemma ChangedKeeps(f: Frames, pc: ProcessPc)
    requires FramesInv(f, pc)
    ensures FramesInv(Changed(f), pc)
  {}

  lemma RunningKeeps(f: Frames, running: bool, pc: ProcessPc)
    requires FramesInv(f, pc)
    ensures FramesInv(f.(running := running), pc)
  {}

  predicate OutsideStep(s: State, t: State) {
    && Outside(s.frames, t.frames)
    && (t.process == s.process || (s.process == ProcessUnborn && t.process == LoopLock))
  }

  lemma OutsideSteps(s: State, a: Action)
    requires LifeInv(s) && Enabled(s, a) && !a.RunProcess?
    ensures OutsideStep(s, Next(s, a))
  {
    hide LifeInv, OpeningNext, JobNext, StartNext, StopNext, CallerNext, OutsideStep;
    match a
    case RunPhoto(ok, loaded, count) => PhotoOutside(s, ok, loaded, count);
    case RunControl(created) => ControlOutside(s, created);
    case RunCaller(id) => CallerOutside(s, id);
    case Begin(id, call) => SameFramesOutside(s, Next(s, a));
    case Configure(id, status) => SameFramesOutside(s, Next(s, a));
  }

  lemma SameFramesOutside(s: State, t: State)
    requires t.frames == s.frames && t.process == s.process
    ensures OutsideStep(s, t)
  {}

  lemma PhotoOutside(s: State, ok: bool, loaded: bool, count: nat)
    requires PhotoCan(s, ok, count)
    ensures OutsideStep(s, PhotoNext(s, ok, loaded, count))
  {
    hide Changed, Submitted, JobTaken, JobFinished, Queued, Published, Outcome;
    if AtOpening(s.photo) {} else if AtPublishing(s.photo) {}
  }

  lemma ControlOutside(s: State, created: bool)
    requires LifeInv(s) && ControlCan(s)
    ensures OutsideStep(s, ControlNext(s, created))
  {
    assert BeforeProcess(s.control) ==> s.process.ProcessUnborn?;
    hide Lives, Changed, Submitted, Cleared;
    if AtStart(s.control) {}
  }

  lemma CallerOutside(s: State, id: nat)
    requires CallerCan(s, id)
    ensures OutsideStep(s, CallerNext(s, id))
  {
    hide Changed, Submitted, Moved, JobOf, Queued, Configured;
  }

  // ---- steps of the process thread ---------------------------------------------------------------------

  lemma ProcessKeepsSlot(s: State, decoded: bool)
    requires SlotInv(s.frames, s.process) && ProcessCan(s)
    ensures SlotInv(ProcessNext(s, decoded).frames, ProcessNext(s, decoded).process)
  {
    hide UsesHistory;
    match s.process
    case LoopIn => if !s.frames.running {} else if s.frames.pending {} else if s.frames.styleDirty {}
    case Decoding(t) =>
    case FrameIn(t, d) => if d {}
    case RefilterIn(g) =>
    case FrameLock(t, d) =>
    case _ =>
  }

  lemma ProcessKeepsHistory(s: State, decoded: bool)
    requires FramesInv(s.frames, s.process) && ProcessCan(s)
    ensures HistoryInv(ProcessNext(s, decoded).frames, ProcessNext(s, decoded).process)
  {
    var f := s.frames;
    match s.process
    case LoopIn => if f.pending { TakingKeeps(f, s.process); }
    case Decoding(t) =>
    case FrameIn(t, d) => FinishingKeeps(f, t, d);
    case RefilterIn(g) =>
    case _ =>
  }

  lemma TakingKeeps(f: Frames, pc: ProcessPc)
    requires FramesInv(f, pc) && pc.LoopIn? && f.pending
    ensures HistoryInv(FrameTaken(f), Decoding(Taken(f.jpeg, UsesHistory(f), f.generation, f.missed)))
  {}

  lemma FinishingKeeps(f: Frames, t: Taken, d: bool)
    requires FramesInv(f, FrameIn(t, d))
    ensures HistoryInv(FrameFinished(f, t, d), Asleep)
  {}

  // ---- every run ------------------------------------------------------------------------------------------

  lemma FramesKept(s: State, a: Action)
    requires LifeInv(s) && FramesInv(s.frames, s.process) && Enabled(s, a)
    ensures FramesInv(Next(s, a).frames, Next(s, a).process)
  {
    hide SlotInv, HistoryInv, LifeInv, ProcessNext, Outside;
    if a.RunProcess? {
      ProcessKeepsSlot(s, a.decoded);
      ProcessKeepsHistory(s, a.decoded);
    } else {
      OutsideSteps(s, a);
      OutsideKeeps(s.frames, Next(s, a).frames, s.process);
      if s.process == ProcessUnborn {
        BirthKeeps(Next(s, a).frames);
      }
    }
  }

  lemma BirthKeeps(f: Frames)
    requires FramesInv(f, ProcessUnborn)
    ensures FramesInv(f, LoopLock)
  {}

  lemma {:induction false} FramesAlways(r: Run, i: nat)
    requires IsRun(r) && i < |r.states|
    ensures FramesInv(r.states[i].frames, r.states[i].process)
  {
    hide Next, Enabled, Init, LifeInv, FramesInv;
    if i == 0 {
      FramesAtStart(r.states[0]);
    } else {
      FramesAlways(r, i - 1);
      LifeAlways(r, i - 1);
      assert Enabled(r.states[i - 1], r.actions[i - 1]);
      FramesKept(r.states[i - 1], r.actions[i - 1]);
    }
  }

  lemma FramesAtStart(s: State)
    requires Init(s)
    ensures FramesInv(s.frames, s.process)
  {
    hide FramesInv;
    EmptySlot(s.frames);
  }

  lemma EmptySlot(f: Frames)
    requires !f.pending && !f.inUse && !f.hasPrevious && !f.hasRaw && !f.styleDirty && !f.missed && !f.stale
    requires f.accepted == f.processed == f.failures == f.jpeg == 0
    ensures FramesInv(f, ProcessUnborn)
  {}

  /** Every accepted frame is processed, undecodable, pending or in use, and no frame is both of the last two. */
  lemma FramesConserved(r: Run, i: nat)
    requires IsRun(r) && i < |r.states|
    ensures var f := r.states[i].frames;
            && f.accepted == f.processed + f.failures + One(f.pending) + One(f.inUse)
            && !(f.pending && f.inUse)
  {
    hide IsRun;
    FramesAlways(r, i);
  }

  /** While the decoder reads the input buffer, no step writes it: it holds the frame that was taken. */
  lemma DecoderOwnsInput(r: Run, i: nat)
    requires IsRun(r) && i < |r.actions| && r.states[i].process.Decoding?
    ensures r.states[i].frames.jpeg == r.states[i].process.taken.number
    ensures r.states[i + 1].frames.jpeg == r.states[i].frames.jpeg
  {
    FramesAlways(r, i);
    var s, a := r.states[i], r.actions[i];
    assert Enabled(s, a) && r.states[i + 1] == Next(s, a);
    if !a.RunProcess? {
      hide IsRun, Next, Enabled, LifeInv;
      LifeAlways(r, i);
      OutsideSteps(s, a);
    }
  }

  // ---- no stale history --------------------------------------------------------------------------------------

  /** Action i changes style, adjustment or intensity while the first frame is still being processed. */
  ghost predicate LandsOnFirstFrame(r: Run, i: nat)
    requires i < |r.states| - 1
  {
    var f := r.states[i].frames;
    r.states[i + 1].frames.generation != f.generation && f.inUse && !f.hasRaw
  }

  lemma ExposureStep(s: State, a: Action)
    requires LifeInv(s) && Enabled(s, a)
    ensures var f, g := s.frames, Next(s, a).frames;
            g.exposed <==> f.exposed || (g.generation != f.generation && f.inUse && !f.hasRaw)
  {
    hide LifeInv;
    if a.RunProcess? {
      hide UsesHistory;
      match s.process
      case LoopIn => if !s.frames.running {} else if s.frames.pending {} else if s.frames.styleDirty {}
      case _ =>
    } else {
      hide Next, Enabled;
      OutsideSteps(s, a);
    }
  }

  lemma {:induction false} ExposedExactly(r: Run, i: nat)
    requires IsRun(r) && i < |r.states|
    ensures r.states[i].frames.exposed <==> exists k: nat | k < i :: LandsOnFirstFrame(r, k)
  {
    hide Next, Enabled, LifeInv;
    if i > 0 {
      ExposedExactly(r, i - 1);
      LifeAlways(r, i - 1);
      assert Enabled(r.states[i - 1], r.actions[i - 1]);
      ExposureStep(r.states[i - 1], r.actions[i - 1]);
      assert LandsOnFirstFrame(r, i - 1) || !LandsOnFirstFrame(r, i - 1);
    }
  }

  /** Unless a change lands while the first frame is being processed, every history buffer the filter is given
      was made under the generation of the frame being filtered. */
  lemma NoStaleHistory(r: Run, i: nat)
    requires IsRun(r) && i < |r.states|
    requires forall k: nat | k < i :: !LandsOnFirstFrame(r, k)
    ensures !r.states[i].frames.stale
    ensures var s := r.states[i];
            s.process.Decoding? && s.process.taken.history ==>
              s.frames.previousGeneration == s.process.taken.generation
  {
    hide IsRun, LandsOnFirstFrame;
    ExposedExactly(r, i);
    FramesAlways(r, i);
  }

  // ---- exactly which frames are filtered with a stale history ---------------------------------------------------

  /** Whether a frame slot holds a picture, or a frame that may become one. */
  predicate Alive(f: Frames) {
    f.hasRaw || f.inUse
  }

  /** The change at action k landed on the first frame, nothing has changed since, and that frame was not lost to
      the decoder. */
  ghost predicate Unnoticed(r: Run, k: nat, i: nat)
    requires i < |r.states|
  {
    && k < i && LandsOnFirstFrame(r, k)
    && r.states[k + 1].frames.generation == r.states[i].frames.generation
    && forall m | k <= m <= i :: Alive(r.states[m].frames)
  }

  /** Some change was never noticed up to state i. */
  ghost predicate Overlooked(r: Run, i: nat)
    requires i < |r.states|
  {
    exists k: nat | k < i :: Unnoticed(r, k, i)
  }

  /** What one step does to `missed`: a change sets it anew, anything else can only clear it, and clears it when the
      first frame is lost or a second one is processed. */
  predicate MissedChange(f: Frames, g: Frames) {
    if g.generation != f.generation then
      && g.generation == f.generation + 1
      && g.missed == (f.inUse && !f.hasRaw) && Alive(g) == Alive(f)
      && (g.missed ==> g.processed <= 1)
    else
      && g.processed >= f.processed
      && (g.missed <==> f.missed && Alive(g) && g.processed <= 1)
  }

  lemma MissedStep(s: State, a: Action)
    requires LifeInv(s) && FramesInv(s.frames, s.process) && Enabled(s, a)
    ensures MissedChange(s.frames, Next(s, a).frames)
  {
    hide LifeInv, FramesInv, ProcessNext, MissedChange;
    if a.RunProcess? {
      ProcessMissed(s, a.decoded);
    } else {
      OutsideSteps(s, a);
      OutsideMissed(s.frames, Next(s, a).frames, s.process);
    }
  }

  lemma OutsideMissed(f: Frames, g: Frames, pc: ProcessPc)
    requires FramesInv(f, pc) && Outside(f, g)
    ensures MissedChange(f, g)
  {
    hide FramesInv, MissedChange, Submitted, Changed;
    if g == f {
      SettledMissed(f, pc, f.running);
      assert f == f.(running := f.running);
    } else if g == Submitted(f) {
      SettledMissed(f, pc, f.running);
    } else if g == Changed(f) {
      SettledMissed(f, pc, f.running);
    } else {
      SettledMissed(f, pc, g.running);
    }
  }

  lemma SettledMissed(f: Frames, pc: ProcessPc, running: bool)
    requires FramesInv(f, pc)
    ensures MissedChange(f, Submitted(f)) && MissedChange(f, Changed(f)) && MissedChange(f, f.(running := running))
  {}

  lemma ProcessMissed(s: State, decoded: bool)
    requires FramesInv(s.frames, s.process) && ProcessCan(s)
    ensures MissedChange(s.frames, ProcessNext(s, decoded).frames)
  {
    hide UsesHistory;
    match s.process
    case LoopIn => if !s.frames.running {} else if s.frames.pending {} else if s.frames.styleDirty {}
    case FrameIn(t, d) => if d {}
    case _ =>
  }

  lemma {:induction false} GenerationGrows(r: Run, i: nat, j: nat)
    requires IsRun(r) && i <= j < |r.states|
    ensures r.states[i].frames.generation <= r.states[j].frames.generation
    decreases j
  {
    hide Next, Enabled, LifeInv, FramesInv;
    if i < j {
      GenerationGrows(r, i, j - 1);
      LifeAlways(r, j - 1);
      FramesAlways(r, j - 1);
      assert Enabled(r.states[j - 1], r.actions[j - 1]);
      MissedStep(r.states[j - 1], r.actions[j - 1]);
    }
  }

  /** `missed` is a matter of what happened in the run. */
  lemma {:induction false} MissedExactly(r: Run, i: nat)
    requires IsRun(r) && i < |r.states|
    ensures r.states[i].frames.missed <==>
              r.states[i].frames.processed <= 1 && Overlooked(r, i)
  {
    hide Next, Enabled, LifeInv, FramesInv, Overlooked;
    if i == 0 {
      assert !Overlooked(r, 0) by { NothingBefore(r); }
    } else {
      MissedExactly(r, i - 1);
      LifeAlways(r, i - 1);
      FramesAlways(r, i - 1);
      assert Enabled(r.states[i - 1], r.actions[i - 1]);
      MissedStep(r.states[i - 1], r.actions[i - 1]);
      if r.states[i].frames.generation != r.states[i - 1].frames.generation {
        JustLanded(r, i);
      } else {
        NothingLanded(r, i);
      }
    }
  }

  lemma NothingBefore(r: Run)
    requires |r.states| > 0
    ensures !Overlooked(r, 0)
  {}

  lemma JustLanded(r: Run, i: nat)
    requires IsRun(r) && 0 < i < |r.states|
    requires r.states[i].frames.generation > r.states[i - 1].frames.generation
    requires Alive(r.states[i].frames) == Alive(r.states[i - 1].frames)
    ensures Overlooked(r, i) <==> LandsOnFirstFrame(r, i - 1)
  {
    hide IsRun;
    forall k: nat | k < i ensures Unnoticed(r, k, i) <==> k == i - 1 && LandsOnFirstFrame(r, i - 1) {
      if k < i - 1 {
        GenerationGrows(r, k + 1, i - 1);
      }
    }
    assert Unnoticed(r, i - 1, i) <==> LandsOnFirstFrame(r, i - 1);
  }

  lemma NothingLanded(r: Run, i: nat)
    requires 0 < i < |r.states| && r.states[i].frames.generation == r.states[i - 1].frames.generation
    ensures Overlooked(r, i) <==> Overlooked(r, i - 1) && Alive(r.states[i].frames)
  {
    forall k: nat | k < i - 1 ensures Unnoticed(r, k, i) <==> Unnoticed(r, k, i - 1) && Alive(r.states[i].frames) {
    }
    if Overlooked(r, i) {
      var k: nat :| k < i && Unnoticed(r, k, i);
      assert k < i - 1 && Unnoticed(r, k, i - 1);
    }
    if Overlooked(r, i - 1) && Alive(r.states[i].frames) {
      var k: nat :| k < i - 1 && Unnoticed(r, k, i - 1);
      assert Unnoticed(r, k, i);
    }
  }

  /** A frame about to be filtered with the history gets a stale buffer exactly when it is the second one, and the
      last change before it landed while the first one, which did get processed, was in use. */
  lemma StaleExactly(r: Run, i: nat)
    requires IsRun(r) && i < |r.states| && r.states[i].process.LoopIn?
    ensures var f := r.states[i].frames;
            UsesHistory(f) ==>
              (f.previousGeneration != f.generation <==>
                 f.processed <= 1 && exists k: nat | k < i :: Unnoticed(r, k, i))
  {
    hide IsRun, Unnoticed;
    FramesAlways(r, i);
    MissedExactly(r, i);
  }
}
