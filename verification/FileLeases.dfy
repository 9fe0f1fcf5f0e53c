/**
 The kernel-backed lease registry: independent processes stepping through acquire, release and
 probe over shared lock files, and crashing anywhere. Steps interleave freely.
 */
module FileLeases {
  import opened Options

  /** An open file handle; the lock of a file belongs to a handle, not to a process. */
  datatype Handle = Handle(process: nat, n: nat)

  /** A lock file: who holds its lock, and the holder its metadata names, if it can be read. */
  datatype File = File(lock: Option<Handle>, text: Option<string>)

  /** Where a process is inside a registry call. */
  datatype Phase =
    | Idle
    | Opened(target: string, handle: Handle, holder: string)      // acquire: file open, lock not tried yet
    | Locked(target: string, handle: Handle, holder: string)      // lock taken, old metadata still there
    | Truncated(target: string, handle: Handle, holder: string)   // metadata cut off
    | Written(target: string, handle: Handle, holder: string)     // metadata written, entry not recorded yet
    | Refusing(target: string)                                    // lock refused, handle closed, holder not read yet
    | Unlocked(target: string, handle: Handle)                    // release: lock dropped, entry not deleted yet
    | Probing(target: string, handle: Handle)                     // holder_of: file open, lock not tried yet
    | ProbeLocked(target: string, handle: Handle)                 // holder_of: it took the lock itself

  datatype Entry = Entry(handle: Handle, holder: string)

  datatype Process = Process(phase: Phase, held: map<string, Entry>, handles: nat)

  type Processes = map<nat, Process>
  type Files = map<string, File>

  datatype System = System(processes: Processes, files: Files)

  const START := Process(Idle, map[], 0)
  const NO_FILE := File(None, None)

  function ProcessOf(s: System, p: nat): Process {
    if p in s.processes then s.processes[p] else START
  }

  function FileOf(s: System, t: string): File {
    if t in s.files then s.files[t] else NO_FILE
  }

  datatype Label =
    | BeginAcquire(p: nat, target: string, holder: string)
    | BeginRelease(p: nat, target: string)
    | BeginProbe(p: nat, target: string)
    | Continue(p: nat)
    | Crash(p: nat)

  /** What a call that ends with this step answers its caller. */
  datatype Answer = Pending | Granted | HeldBy(name: string) | Free | Released | NotHeld | Gone

  const UNKNOWN := "another process"

  function Named(f: File): string {
    match f.text
    case None => UNKNOWN
    case Some(name) => name
  }

  datatype Effect = Effect(process: Process, file: File, answer: Answer)

  /** The file a step works on. */
  function TargetOf(q: Process, l: Label): string {
    match l
    case BeginAcquire(_, t, _) => t
    case BeginRelease(_, t) => t
    case BeginProbe(_, t) => t
    case Continue(_) => if q.phase.Idle? then "" else q.phase.target
    case Crash(_) => ""
  }

  function Open(q: Process, phase: Phase): Process {
    q.(phase := phase, handles := q.handles + 1)
  }

  /** What a process does to itself and to the file it works on; `None` when the step is not enabled. */
  function Act(q: Process, l: Label, f: File, exists': bool): Option<Effect>
    requires !l.Crash?
  {
    match l
    case BeginAcquire(p, t, holder) =>
      if q.phase != Idle || holder == "" then None
      else if t in q.held then Some(Effect(q, f, HeldBy(q.held[t].holder)))
      else Some(Effect(Open(q, Opened(t, Handle(p, q.handles), holder)), f, Pending))
    case BeginRelease(p, t) =>
      if q.phase != Idle then None
      else if t !in q.held then Some(Effect(q, f, NotHeld))
      else
        var h := q.held[t].handle;
        Some(Effect(q.(phase := Unlocked(t, h)), if f.lock == Some(h) then f.(lock := None) else f, Pending))
    case BeginProbe(p, t) =>
      if q.phase != Idle then None
      else if t in q.held then Some(Effect(q, f, HeldBy(q.held[t].holder)))
      else if !exists' then Some(Effect(q, f, Free))
      else Some(Effect(Open(q, Probing(t, Handle(p, q.handles))), f, Pending))
    case Continue(_) => if q.phase == Idle then None else Some(Proceed(q, f))
  }

  /** The next step of the call a process is in. */
  function Proceed(q: Process, f: File): Effect
    requires q.phase != Idle
  {
    match q.phase
    case Opened(t, h, holder) =>
      if f.lock == None then Effect(q.(phase := Locked(t, h, holder)), f.(lock := Some(h)), Pending)
      else Effect(q.(phase := Refusing(t)), f, Pending)
    case Locked(t, h, holder) => Effect(q.(phase := Truncated(t, h, holder)), f.(text := None), Pending)
    case Truncated(t, h, holder) => Effect(q.(phase := Written(t, h, holder)), f.(text := Some(holder)), Pending)
    case Written(t, h, holder) => Effect(q.(phase := Idle, held := q.held[t := Entry(h, holder)]), f, Granted)
    case Refusing(t) => Effect(q.(phase := Idle), f, HeldBy(Named(f)))
    case Unlocked(t, h) => Effect(q.(phase := Idle, held := q.held - {t}), f, Released)
    case Probing(t, h) =>
      if f.lock == None then Effect(q.(phase := ProbeLocked(t, h)), f.(lock := Some(h)), Pending)
      else Effect(q.(phase := Refusing(t)), f, Pending)
    case ProbeLocked(t, h) => Effect(q.(phase := Idle), f.(lock := None), Free)
  }

  /** Process death closes every handle, and closing a handle drops its lock. */
  function Dropped(f: File, p: nat): File {
    if f.lock.Some? && f.lock.get.process == p then f.(lock := None) else f
  }

  /** A step a process may take now, and its answer; `None` when the label is not enabled. */
  function Step(s: System, l: Label): Option<(System, Answer)> {
    var q := ProcessOf(s, l.p);
    if l.Crash? then
      Some((System(s.processes[l.p := START.(handles := q.handles)], map t | t in s.files :: Dropped(s.files[t], l.p)), Gone))
    else
      var t := TargetOf(q, l);
      var e := Act(q, l, FileOf(s, t), t in s.files);
      if e.None? then None
      else if e.get.process == q then Some((s, e.get.answer))   // answered without opening anything
      else Some((System(s.processes[l.p := e.get.process], s.files[t := e.get.file]), e.get.answer))
  }

  const INIT := System(map[], map[])

  /** The state after a run, and the answer to its last step; `None` if some step was not enabled. */
  function Run(s: System, ls: seq<Label>): Option<(System, Answer)>
    decreases ls
  {
    if ls == [] then Some((s, Pending))
    else
      var r := Step(s, ls[0]);
      if r.None? then None
      else if |ls| == 1 then r
      else Run(r.get.0, ls[1..])
  }

  // ----- exclusive ownership -----

  /** A live lease: recorded, and not in the middle of being released. */
  predicate LiveIn(q: Process, t: string) {
    t in q.held && !(q.phase.Unlocked? && q.phase.target == t)
  }

  predicate LiveEntry(s: System, p: nat, t: string) {
    LiveIn(ProcessOf(s, p), t)
  }

  /** The call a process is in owns the lock of `t` through handle `h`. */
  predicate InCall(q: Process, t: string, h: Handle) {
    (q.phase.Locked? || q.phase.Truncated? || q.phase.Written? || q.phase.ProbeLocked?)
    && q.phase.target == t && q.phase.handle == h
  }

  predicate HasHandle(phase: Phase) {
    !phase.Idle? && !phase.Refusing?
  }

  /** What every step keeps, for a process `p` in state `q` and the file `f` of a target `t`. */
  ghost predicate SoundAt(q: Process, p: nat, f: File, t: string) {
    (HasHandle(q.phase) ==> q.phase.handle.process == p)
    && (HasHandle(q.phase) && !q.phase.Unlocked? && q.phase.target == t ==> t !in q.held)
    && (t in q.held ==> q.held[t].handle.process == p)
    // a live lease owns the lock and its metadata names the holder
    && (LiveIn(q, t) ==> f.lock == Some(q.held[t].handle) && f.text == Some(q.held[t].holder))
    && (forall h :: InCall(q, t, h) ==> f.lock == Some(h))
    && (q.phase.Truncated? && q.phase.target == t ==> f.text == None)
    && (q.phase.Written? && q.phase.target == t ==> f.text == Some(q.phase.holder))
    // no lock is orphaned: its owner is a live lease, or a call, of the process that opened the handle
    && (f.lock.Some? && f.lock.get.process == p ==>
      (LiveIn(q, t) && q.held[t].handle == f.lock.get) || InCall(q, t, f.lock.get))
  }

  ghost predicate Sound(s: System, p: nat, t: string) {
    SoundAt(ProcessOf(s, p), p, FileOf(s, t), t)
  }

  ghost predicate Invariant(s: System) {
    forall p, t :: Sound(s, p, t)
  }

  /** The acting process keeps its own soundness, on the file it works on and on every other. */
  lemma ActKeepsOwn(q: Process, l: Label, f: File, exists': bool, t: string, g: File)
    requires !l.Crash? && Act(q, l, f, exists').Some?
    requires SoundAt(q, l.p, f, TargetOf(q, l)) && SoundAt(q, l.p, g, t) && (t == TargetOf(q, l) ==> g == f)
    ensures var e := Act(q, l, f, exists').get; SoundAt(e.process, l.p, if t == TargetOf(q, l) then e.file else g, t)
  {
    if l.Continue? && q.phase.Locked? { assert InCall(q, q.phase.target, q.phase.handle); }
    if l.Continue? && q.phase.Truncated? { assert InCall(q, q.phase.target, q.phase.handle); }
    if l.Continue? && q.phase.Written? { assert InCall(q, q.phase.target, q.phase.handle); }
    if l.Continue? && q.phase.ProbeLocked? { assert InCall(q, q.phase.target, q.phase.handle); }
  }

  /** It keeps everybody else's: it only takes a free lock, drops its own, and writes where it owns the lock. */
  lemma ActKeepsOthers(q: Process, l: Label, f: File, exists': bool, other: Process, p: nat)
    requires !l.Crash? && Act(q, l, f, exists').Some? && p != l.p
    requires SoundAt(q, l.p, f, TargetOf(q, l)) && SoundAt(other, p, f, TargetOf(q, l))
    ensures SoundAt(other, p, Act(q, l, f, exists').get.file, TargetOf(q, l))
  {
    if l.Continue? && HasHandle(q.phase) {
      assert InCall(q, q.phase.target, q.phase.handle) ==> f.lock == Some(q.phase.handle);
    }
    if HasHandle(other.phase) {
      assert InCall(other, TargetOf(q, l), other.phase.handle) ==> f.lock == Some(other.phase.handle);
    }
  }

  lemma StepKeepsSound(s: System, l: Label, p: nat, t: string)
    requires Invariant(s) && Step(s, l).Some?
    ensures Sound(Step(s, l).get.0, p, t)
  {
    assert Sound(s, p, t) && Sound(s, l.p, t);
    if !l.Crash? {
      var q := ProcessOf(s, l.p);
      var u := TargetOf(q, l);
      var f := FileOf(s, u);
      assert Sound(s, l.p, u) && Sound(s, p, u);
      if p == l.p {
        ActKeepsOwn(q, l, f, u in s.files, t, FileOf(s, t));
      } else if t == u {
        ActKeepsOthers(q, l, f, u in s.files, ProcessOf(s, p), p);
      }
      hide Act, SoundAt;
    }
  }

  lemma StepKeepsInvariant(s: System, l: Label)
    requires Invariant(s) && Step(s, l).Some?
    ensures Invariant(Step(s, l).get.0)
  {
    forall p, t ensures Sound(Step(s, l).get.0, p, t) {
      StepKeepsSound(s, l, p, t);
    }
  }

  lemma {:induction false} RunKeepsInvariant(s: System, ls: seq<Label>)
    requires Invariant(s) && Run(s, ls).Some?
    ensures Invariant(Run(s, ls).get.0)
    decreases ls
  {
    hide Invariant, Step;
    if ls != [] {
      StepKeepsInvariant(s, ls[0]);
      if |ls| > 1 {
        RunKeepsInvariant(Step(s, ls[0]).get.0, ls[1..]);
      }
    }
  }

  lemma InitInvariant()
    ensures Invariant(INIT)
  {
  }

  /** Over every interleaving, with crashes and probes, a target has at most one live lease, and it owns the kernel lock. */
  lemma ExclusiveOwnership(ls: seq<Label>, p: nat, q: nat, t: string)
    requires Run(INIT, ls).Some?
    ensures
      var s := Run(INIT, ls).get.0;
      (LiveEntry(s, p, t) && LiveEntry(s, q, t) ==> p == q)
      && (LiveEntry(s, p, t) ==> FileOf(s, t).lock == Some(ProcessOf(s, p).held[t].handle))
  {
    InitInvariant();
    RunKeepsInvariant(INIT, ls);
    var s := Run(INIT, ls).get.0;
    assert Sound(s, p, t) && Sound(s, q, t);
    hide Run;
  }

  /** While a target is leased, every other acquire or probe is refused once its lock attempt comes, and told the holder. */
  lemma LeaseRefusesOthers(ls: seq<Label>, p: nat, q: nat, t: string)
    requires Run(INIT, ls).Some?
    requires var s := Run(INIT, ls).get.0; LiveEntry(s, p, t) && p != q
    ensures
      var s := Run(INIT, ls).get.0;
      ((ProcessOf(s, q).phase.Opened? || ProcessOf(s, q).phase.Probing?) && ProcessOf(s, q).phase.target == t ==>
        ProcessOf(Step(s, Continue(q)).get.0, q).phase == Refusing(t))
      && (ProcessOf(s, q).phase == Refusing(t) ==>
        Step(s, Continue(q)).get.1 == HeldBy(ProcessOf(s, p).held[t].holder))
  {
    InitInvariant();
    RunKeepsInvariant(INIT, ls);
    var s := Run(INIT, ls).get.0;
    assert Sound(s, p, t);
    hide Run;
  }

  /** A crash, wherever it strikes, leaves the target free for the next acquirer's lock attempt. */
  lemma CrashFreesLock(ls: seq<Label>, p: nat, t: string)
    requires Run(INIT, ls).Some?
    requires var s := Run(INIT, ls).get.0; LiveEntry(s, p, t) || (exists h :: InCall(ProcessOf(s, p), t, h))
    ensures FileOf(Step(Run(INIT, ls).get.0, Crash(p)).get.0, t).lock == None
  {
    InitInvariant();
    RunKeepsInvariant(INIT, ls);
    var s := Run(INIT, ls).get.0;
    assert Sound(s, p, t);
    hide Run;
  }

  // ----- what an answer means -----

  /** A granted acquire leaves a live lease under the holder's name, a release none, and a probe that says free held the lock. */
  lemma AnswersMean(ls: seq<Label>, l: Label, t: string)
    requires Run(INIT, ls).Some? && Step(Run(INIT, ls).get.0, l).Some? && !l.Crash?
    requires TargetOf(ProcessOf(Run(INIT, ls).get.0, l.p), l) == t
    ensures
      var s := Run(INIT, ls).get.0;
      var (n, answer) := Step(s, l).get;
      var q := ProcessOf(s, l.p);
      && (answer == Granted ==>
        q.phase.Written? && LiveEntry(n, l.p, t) && ProcessOf(n, l.p).held[t].holder == q.phase.holder
        && FileOf(n, t).text == Some(ProcessOf(n, l.p).held[t].holder))
      && (answer == Released ==> t !in ProcessOf(n, l.p).held && q.phase.Unlocked?)
      && (answer == Free ==> (l.BeginProbe? && t !in s.files) || q.phase.ProbeLocked?)
      && (answer == NotHeld ==> l.BeginRelease? && t !in q.held && n == s)
      && (answer.HeldBy? ==> q.phase == Refusing(t) || (t in q.held && answer.name == q.held[t].holder))
  {
    InitInvariant();
    RunKeepsInvariant(INIT, ls);
    var s := Run(INIT, ls).get.0;
    assert Sound(s, l.p, t);
    hide Run, Invariant;
  }

  // ----- what a refusal means -----

  /** A call in progress holds the lock: an acquire that has not recorded its lease yet, or a probe. */
  predicate CallHolds(s: System, p: nat, t: string) {
    var phase := ProcessOf(s, p).phase;
    (phase.Locked? || phase.Truncated? || phase.Written? || phase.ProbeLocked?) && phase.target == t
  }

  /**
   A lock attempt, by an acquire or a probe, is refused exactly when some process leases the target or is in a call that
   holds its lock; there is one such process, and it is one of the two.
   */
  lemma RefusedExactly(ls: seq<Label>, q: nat, t: string)
    requires Run(INIT, ls).Some?
    requires var phase := ProcessOf(Run(INIT, ls).get.0, q).phase; (phase.Opened? || phase.Probing?) && phase.target == t
    ensures
      var s := Run(INIT, ls).get.0;
      && (ProcessOf(Step(s, Continue(q)).get.0, q).phase == Refusing(t) <==> exists p :: LiveEntry(s, p, t) || CallHolds(s, p, t))
      && (forall p, r :: (LiveEntry(s, p, t) || CallHolds(s, p, t)) && (LiveEntry(s, r, t) || CallHolds(s, r, t)) ==> p == r)
      && (forall p :: !(LiveEntry(s, p, t) && CallHolds(s, p, t)))
  {
    InitInvariant();
    RunKeepsInvariant(INIT, ls);
    var s := Run(INIT, ls).get.0;
    hide Run;
    forall p ensures (LiveEntry(s, p, t) || CallHolds(s, p, t)) ==> FileOf(s, t).lock.Some? && FileOf(s, t).lock.get.process == p
      ensures !(LiveEntry(s, p, t) && CallHolds(s, p, t))
      ensures FileOf(s, t).lock.Some? && FileOf(s, t).lock.get.process == p ==> LiveEntry(s, p, t) || CallHolds(s, p, t)
    {
      OwnerHasLock(s, p, t);
    }
    assert ProcessOf(Step(s, Continue(q)).get.0, q).phase == Refusing(t) <==> FileOf(s, t).lock != None by { hide Invariant; }
    hide Step, Invariant, LiveEntry, CallHolds;
    if FileOf(s, t).lock != None {
      var owner := FileOf(s, t).lock.get.process;
      assert LiveEntry(s, owner, t) || CallHolds(s, owner, t);
    }
  }

  lemma OwnerHasLock(s: System, p: nat, t: string)
    requires Invariant(s)
    ensures (LiveEntry(s, p, t) || CallHolds(s, p, t)) <==> FileOf(s, t).lock.Some? && FileOf(s, t).lock.get.process == p
    ensures !(LiveEntry(s, p, t) && CallHolds(s, p, t))
  {
    assert Sound(s, p, t);
    var q := ProcessOf(s, p);
    if CallHolds(s, p, t) {
      assert InCall(q, t, q.phase.handle);
    }
  }

  /** So a refusal is spurious, the target being leased by nobody, exactly when a probe or an unfinished acquire holds the lock. */
  lemma SpuriousExactly(ls: seq<Label>, q: nat, t: string)
    requires Run(INIT, ls).Some?
    requires var phase := ProcessOf(Run(INIT, ls).get.0, q).phase; (phase.Opened? || phase.Probing?) && phase.target == t
    ensures
      var s := Run(INIT, ls).get.0;
      ProcessOf(Step(s, Continue(q)).get.0, q).phase == Refusing(t) && (forall p :: !LiveEntry(s, p, t))
      <==> exists p :: CallHolds(s, p, t)
  {
    RefusedExactly(ls, q, t);
    hide Run, Step, CallHolds, LiveEntry;
  }

  /** Who has the lock for good, or is about to. */
  predicate Owns(s: System, p: nat, t: string) {
    LiveEntry(s, p, t) || (CallHolds(s, p, t) && !ProcessOf(s, p).phase.ProbeLocked?)
  }

  function OwnerName(s: System, p: nat, t: string): string
    requires Owns(s, p, t)
  {
    if LiveEntry(s, p, t) then ProcessOf(s, p).held[t].holder else ProcessOf(s, p).phase.holder
  }

  /**
   The refusal names the owner of the moment exactly when that owner has written its name: as long as it has only locked the
   file the old name is still there, and between truncating and writing there is none.
   */
  lemma RefusalNames(ls: seq<Label>, p: nat, q: nat, t: string)
    requires Run(INIT, ls).Some?
    requires var s := Run(INIT, ls).get.0; ProcessOf(s, q).phase == Refusing(t) && Owns(s, p, t)
    ensures
      var s := Run(INIT, ls).get.0;
      var phase := ProcessOf(s, p).phase;
      Step(s, Continue(q)).get.1 == HeldBy(OwnerName(s, p, t)) <==>
        LiveEntry(s, p, t) || phase.Written? || OwnerName(s, p, t) == (if phase.Locked? then Named(FileOf(s, t)) else "another process")
  {
    InitInvariant();
    RunKeepsInvariant(INIT, ls);
    var s := Run(INIT, ls).get.0;
    hide Run;
    assert Sound(s, p, t);
    hide Invariant;
  }


  predicate NobodyHolds(s: System, t: string) {
    forall p :: p in s.processes ==> t !in s.processes[p].held
  }

  function Labels(t: string, a: string, b: string): seq<Label> {
    [BeginAcquire(0, t, a), Continue(0), Continue(0), Continue(0), Continue(0), Crash(0),
     BeginProbe(1, t), Continue(1), BeginAcquire(2, t, b), Continue(2), Continue(2)]
  }

  function Stage(t: string, a: string, b: string, k: nat): System {
    var h, idle := Handle(0, 0), Process(Idle, map[], 1);
    match k
    case 0 => INIT
    case 1 => System(map[0 := Process(Opened(t, h, a), map[], 1)], map[t := File(None, None)])
    case 2 => System(map[0 := Process(Locked(t, h, a), map[], 1)], map[t := File(Some(h), None)])
    case 3 => System(map[0 := Process(Truncated(t, h, a), map[], 1)], map[t := File(Some(h), None)])
    case 4 => System(map[0 := Process(Written(t, h, a), map[], 1)], map[t := File(Some(h), Some(a))])
    case 5 => System(map[0 := Process(Idle, map[t := Entry(h, a)], 1)], map[t := File(Some(h), Some(a))])
    case 6 => System(map[0 := idle], map[t := File(None, Some(a))])
    case 7 => System(map[0 := idle, 1 := Process(Probing(t, Handle(1, 0)), map[], 1)], map[t := File(None, Some(a))])
    case 8 => System(map[0 := idle, 1 := Process(ProbeLocked(t, Handle(1, 0)), map[], 1)], map[t := File(Some(Handle(1, 0)), Some(a))])
    case 9 => System(map[0 := idle, 1 := Process(ProbeLocked(t, Handle(1, 0)), map[], 1), 2 := Process(Opened(t, Handle(2, 0), b), map[], 1)],
                     map[t := File(Some(Handle(1, 0)), Some(a))])
    case 10 => System(map[0 := idle, 1 := Process(ProbeLocked(t, Handle(1, 0)), map[], 1), 2 := Process(Refusing(t), map[], 1)],
                      map[t := File(Some(Handle(1, 0)), Some(a))])
    case _ => System(map[0 := idle, 1 := Process(ProbeLocked(t, Handle(1, 0)), map[], 1), 2 := idle],
                     map[t := File(Some(Handle(1, 0)), Some(a))])
  }

  lemma {:induction false} StageStep(t: string, a: string, b: string, k: nat)
    requires k < 11 && a != "" && b != ""
    ensures Step(Stage(t, a, b, k), Labels(t, a, b)[k]).Some?
    ensures Step(Stage(t, a, b, k), Labels(t, a, b)[k]).get.0 == Stage(t, a, b, k + 1)
    ensures k == 10 ==> Step(Stage(t, a, b, k), Labels(t, a, b)[k]).get.1 == HeldBy(a)
  {
    if k < 6 {
      CrashingAcquire(t, a, b, k);
    } else {
      ProbedAcquire(t, a, b, k);
    }
    hide Step, Stage;
  }

  lemma CrashingAcquire(t: string, a: string, b: string, k: nat)
    requires k < 6 && a != "" && b != ""
    ensures Step(Stage(t, a, b, k), Labels(t, a, b)[k]).Some?
    ensures Step(Stage(t, a, b, k), Labels(t, a, b)[k]).get.0 == Stage(t, a, b, k + 1)
  {
    var n := Step(Stage(t, a, b, k), Labels(t, a, b)[k]).get.0;
    assert n.processes == Stage(t, a, b, k + 1).processes;
    assert n.files == Stage(t, a, b, k + 1).files;
  }

  lemma ProbedAcquire(t: string, a: string, b: string, k: nat)
    requires 6 <= k < 11 && a != "" && b != ""
    ensures Step(Stage(t, a, b, k), Labels(t, a, b)[k]).Some?
    ensures Step(Stage(t, a, b, k), Labels(t, a, b)[k]).get.0 == Stage(t, a, b, k + 1)
    ensures k == 10 ==> Step(Stage(t, a, b, k), Labels(t, a, b)[k]).get.1 == HeldBy(a)
  {
    var n := Step(Stage(t, a, b, k), Labels(t, a, b)[k]).get.0;
    assert n.processes == Stage(t, a, b, k + 1).processes;
    assert n.files == Stage(t, a, b, k + 1).files;
  }

  lemma {:induction false} StagesRun(t: string, a: string, b: string, k: nat)
    requires 0 < k <= 11 && a != "" && b != ""
    ensures Run(INIT, Labels(t, a, b)[..k]) == Step(Stage(t, a, b, k - 1), Labels(t, a, b)[k - 1])
  {
    StageStep(t, a, b, k - 1);
    hide Step;
    var ls := Labels(t, a, b);
    assert ls[..k] == ls[..k - 1] + [ls[k - 1]];
    if k > 1 {
      StageStep(t, a, b, k - 2);
      StagesRun(t, a, b, k - 1);
    } else {
      assert ls[..0] == [];
    }
    RunExtends(INIT, ls[..k - 1], ls[k - 1]);
  }

  lemma {:induction false} RunExtends(s: System, ls: seq<Label>, l: Label)
    requires Run(s, ls).Some? && Step(Run(s, ls).get.0, l).Some?
    ensures Run(s, ls + [l]) == Step(Run(s, ls).get.0, l)
    decreases ls
  {
    hide Step;
    if ls == [] {
      assert ls + [l] == [l];
    } else {
      assert (ls + [l])[1..] == ls[1..] + [l];
      if |ls| > 1 {
        RunExtends(Step(s, ls[0]).get.0, ls[1..], l);
      } else {
        assert ls[1..] + [l] == [l];
      }
    }
  }

  /**
   A refusal may be spurious, and name a stale holder: process 0 leases the target as `a` and dies, process 1
   probes, and process 2, whose attempt meets the probe's lock, is told `a` holds a target that nobody leases.
   */
  lemma RefusalCanBeSpurious(t: string, a: string, b: string)
    requires a != "" && b != ""
    ensures
      var r := Run(INIT, Labels(t, a, b));
      r.Some? && r.get.1 == HeldBy(a) && NobodyHolds(r.get.0, t)
  {
    StagesRun(t, a, b, 11);
    StageStep(t, a, b, 10);
    assert Labels(t, a, b)[..11] == Labels(t, a, b);
    hide Step, Run;
  }
}
