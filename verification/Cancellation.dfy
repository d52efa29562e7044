// Cancelling a remote operation (src/gitclient/application/remote_workers.py,
// src/gitclient/infrastructure/remote_engine.py).
//
// Two threads: the worker, which runs git commands through an engine, and the UI thread, which
// may call cancel() at any moment and any number of times. Every step is one lock-protected
// section or one action between two of them; a run is any interleaving of the steps.
module Cancellation {
  import opened Wrappers

  // The engine every worker makes, and the second one a clone runs in.
  datatype Which = Own | Cloning

  datatype Engine = Engine(published: bool, aborted: bool, proc: Option<nat>)

  // The stages of a worker in which it runs commands: the operation, storing the credentials
  // that worked, and maintenance after the report.
  datatype Stage = Operating | Storing | Maintaining

  // Where the worker stands. Spawned: the process exists but is not registered. Doomed: it was
  // found aborted and is killed next. Waiting: it is registered. Reaped: the wait is over, by
  // the process's own end or, at a stall, by a kill. Forgotten: the engine holds it no longer.
  // Emitting: the flag was read, and the report is sent next.
  datatype Worker =
    | Fresh
    | Made(stop: bool)
    | ToMakeSecond
    | MadeSecond(stop: bool)
    | Ready(stage: Stage)
    | Spawned(stage: Stage, pid: nat)
    | Doomed(stage: Stage, pid: nat)
    | Waiting(stage: Stage, pid: nat)
    | Reaped(stage: Stage, ok: bool)
    | Forgotten(stage: Stage, ok: bool)
    | ToReport
    | Failing
    | Emitting(signal: Signal)
    | Leaving
    | Gone

  // Where the UI thread stands inside cancel(): the engine it read under the worker's lock, then
  // the process it read under the engine's lock.
  datatype Canceller = Outside | ToAbort(which: Which, found: bool) | ToKill(which: Which, pid: Option<nat>) | ToReadSecond

  datatype Signal = Finished | Failed | Retired

  datatype State = State(
    isClone: bool,
    cancelled: bool, returned: bool,
    own: Engine, cloning: Engine,
    worker: Worker, canceller: Canceller,
    live: set<nat>, handed: set<nat>, used: set<nat>,
    signals: seq<Signal>)

  function EngineOf(s: State, w: Which): Engine { if w.Own? then s.own else s.cloning }

  function SetEngine(s: State, w: Which, e: Engine): State {
    if w.Own? then s.(own := e) else s.(cloning := e)
  }

  // A clone operates in its second engine; everything else runs in the worker's own.
  function Runs(s: State, stage: Stage): Which { if s.isClone && stage.Operating? then Cloning else Own }

  function Initial(isClone: bool): State {
    State(isClone, false, false, Engine(false, false, None), Engine(false, false, None), Fresh, Outside, {}, {}, {}, [])
  }

  // ----- Steps -----

  // The choices a step leaves open: which command outcome, whether another command follows,
  // whether Python raises.
  datatype Choice = Choice(pid: nat, more: bool, ok: bool)

  // One step of the worker thread.
  function WorkerStep(s: State, c: Choice): State {
    match s.worker
    case Fresh =>
      // lock: read the flag and publish the engine
      if !c.ok then s.(worker := Failing)
      else s.(own := s.own.(published := true), worker := Made(s.cancelled))
    case Made(stop) =>
      s.(worker := if stop then Leaving else if s.isClone then ToMakeSecond else Ready(Operating))
    case ToMakeSecond =>
      // lock: read the flag and publish the second engine
      s.(cloning := s.cloning.(published := true), worker := MadeSecond(s.cancelled))
    case MadeSecond(stop) =>
      s.(worker := if stop then Failing else Ready(Operating))
    case Ready(stage) =>
      if !c.more || (s.isClone && stage.Storing?) then
        s.(worker := match stage
             case Operating => if c.ok then Ready(Storing) else Failing
             case Storing => ToReport
             case Maintaining => Leaving)
      else if c.pid in s.used then s
      else s.(worker := Spawned(stage, c.pid), live := s.live + {c.pid}, used := s.used + {c.pid})
    case Spawned(stage, pid) =>
      // engine lock: read the abort flag, register the process if it is clear
      var w := Runs(s, stage);
      if EngineOf(s, w).aborted then s.(worker := Doomed(stage, pid))
      else SetEngine(s, w, EngineOf(s, w).(proc := Some(pid))).(worker := Waiting(stage, pid))
    case Doomed(stage, pid) =>
      s.(handed := s.handed + {pid}, worker := AfterFailure(stage))
    case Waiting(stage, pid) =>
      // the process has ended, or a stall makes the worker kill it
      if pid in s.live && c.ok then s
      else if pid in s.live then s.(handed := s.handed + {pid}, worker := Reaped(stage, false))
      else s.(worker := Reaped(stage, c.ok))
    case Reaped(stage, ok) =>
      // engine lock: forget the process
      var w := Runs(s, stage);
      SetEngine(s, w, EngineOf(s, w).(proc := None)).(worker := Forgotten(stage, ok))
    case Forgotten(stage, ok) =>
      // reads the abort flag without the lock; an aborted engine raises
      s.(worker := if ok && !EngineOf(s, Runs(s, stage)).aborted then Ready(stage) else AfterFailure(stage))
    case ToReport =>
      // reads the flag without the lock
      s.(worker := if s.cancelled then Leaving else Emitting(Finished))
    case Failing =>
      s.(worker := if s.cancelled then Leaving else Emitting(Failed))
    case Emitting(signal) =>
      s.(signals := s.signals + [signal], worker := if signal.Finished? then Ready(Maintaining) else Leaving)
    case Leaving => s.(signals := s.signals + [Retired], worker := Gone)
    case Gone => s
  }

  // A command of the operation that fails makes the operation fail; a failure to read the remote
  // or to maintain the repository is swallowed.
  function AfterFailure(stage: Stage): Worker {
    match stage
    case Operating => Failing
    case Storing => ToReport
    case Maintaining => Leaving
  }

  // One step of the UI thread inside, or into, cancel().
  function CancelStep(s: State): State {
    match s.canceller
    case Outside => s.(cancelled := true, canceller := ToAbort(Own, s.own.published))
    case ToAbort(w, found) =>
      if !found then AfterAbort(s, w)
      else SetEngine(s, w, EngineOf(s, w).(aborted := true)).(canceller := ToKill(w, EngineOf(s, w).proc))
    case ToKill(w, pid) =>
      var killed := if pid.Some? && pid.value in s.live then s.(handed := s.handed + {pid.value}) else s;
      AfterAbort(killed, w)
    case ToReadSecond => s.(canceller := ToAbort(Cloning, s.cloning.published))
  }

  function AfterAbort(s: State, w: Which): State {
    if s.isClone && w.Own? then s.(canceller := ToReadSecond) else s.(canceller := Outside, returned := true)
  }

  // The steps of a run. A live process may end at any time, by itself or because it was killed.
  datatype Step = WorkerMoves(choice: Choice) | UiMoves | ProcessEnds(pid: nat)

  function Next(s: State, step: Step): State {
    match step
    case WorkerMoves(c) => WorkerStep(s, c)
    case UiMoves => CancelStep(s)
    case ProcessEnds(pid) => s.(live := s.live - {pid})
  }

  function Run(s: State, steps: seq<Step>): State
    decreases |steps|
  {
    if steps == [] then s else Run(Next(s, steps[0]), steps[1..])
  }

  // ----- Safety -----

  predicate IsEnding(w: Worker) { w.ToReport? || w.Failing? || w.Emitting? || w.Leaving? || w.Gone? }

  // The process the worker holds, if any.
  function HeldBy(w: Worker): Option<nat> {
    match w
    case Spawned(_, pid) => Some(pid)
    case Doomed(_, pid) => Some(pid)
    case Waiting(_, pid) => Some(pid)
    case _ => None
  }

  // The worker may still run commands in this engine.
  predicate Uses(s: State, w: Which) {
    match s.worker
    case Made(stop) => w.Own? && !stop
    case ToMakeSecond => w.Own?
    case MadeSecond(stop) => w.Own? || !stop
    case Ready(stage) => w.Own? || Runs(s, stage) == w
    case Spawned(stage, _) => w.Own? || Runs(s, stage) == w
    case Doomed(stage, _) => w.Own? || Runs(s, stage) == w
    case Waiting(stage, _) => w.Own? || Runs(s, stage) == w
    case Reaped(stage, _) => w.Own? || Runs(s, stage) == w
    case Forgotten(stage, _) => w.Own? || Runs(s, stage) == w
    case ToReport => w.Own?
    case Emitting(signal) => w.Own? && signal.Finished?
    case _ => false
  }

  // The call of cancel() in progress will abort this engine.
  predicate WillAbort(s: State, w: Which) {
    match s.canceller
    case Outside => false
    case ToAbort(v, found) => if v == w then found else w.Cloning? && s.isClone
    case ToKill(v, _) => v.Own? && w.Cloning? && s.isClone
    case ToReadSecond => w.Cloning? && s.isClone
  }

  // An engine is published before it is used, and aborted only in a cancelled worker; once
  // cancel() was entered, an engine in use is aborted or will be; a process registered in an
  // aborted engine is handed to a kill or about to be; and nothing is left to do after a return.
  ghost predicate EngineInv(s: State, w: Which) {
    var e := EngineOf(s, w);
    && (Uses(s, w) ==> e.published)
    && (e.aborted ==> e.published && s.cancelled)
    && (s.cancelled && Uses(s, w) ==> e.aborted || WillAbort(s, w))
    && (s.returned && Uses(s, w) ==> e.aborted)
    && (e.proc.Some? ==> IsRegistered(s, w, e.proc.value))
    && (e.aborted && e.proc.Some? && e.proc.value in s.live ==>
          e.proc.value in s.handed || (s.canceller == ToKill(w, e.proc) && !s.returned))
  }

  predicate IsRegistered(s: State, w: Which, pid: nat) {
    match s.worker
    case Waiting(stage, p) => Runs(s, stage) == w && p == pid
    case Reaped(stage, _) => Runs(s, stage) == w
    case _ => false
  }

  ghost predicate Inv(s: State) {
    && EngineInv(s, Own) && EngineInv(s, Cloning)
    && s.live <= s.used
    && (forall p :: p in s.live ==> p in s.handed || HeldBy(s.worker) == Some(p))
    && (s.worker.Waiting? ==> EngineOf(s, Runs(s, s.worker.stage)).proc == Some(s.worker.pid))
    && (s.returned || !s.canceller.Outside? ==> s.cancelled)
    && (s.worker.Fresh? || s.worker.Made? || s.worker.ToMakeSecond? ==> !s.cloning.published)
    && (s.worker.Fresh? ==> !s.own.published)
    && (s.worker.ToMakeSecond? || s.worker.MadeSecond? ==> s.isClone)
    && (s.canceller.ToReadSecond? ==> s.isClone)
    && (s.canceller.ToAbort? && s.canceller.which.Cloning? ==> s.isClone)
    && (s.canceller.ToKill? ==> EngineOf(s, s.canceller.which).aborted)
    && (s.canceller.ToAbort? && s.canceller.found ==> EngineOf(s, s.canceller.which).published)
  }

  lemma InitialHolds(isClone: bool)
    ensures Inv(Initial(isClone))
  {
  }

  lemma StartingKeepsInv(s: State, c: Choice)
    requires Inv(s) && (s.worker.Fresh? || s.worker.Made?)
    ensures Inv(WorkerStep(s, c))
  {
  }

  lemma SecondEngineKeepsInv(s: State, c: Choice)
    requires Inv(s) && (s.worker.ToMakeSecond? || s.worker.MadeSecond?)
    ensures Inv(WorkerStep(s, c))
  {
  }

  lemma LaunchKeepsInv(s: State, c: Choice)
    requires Inv(s) && s.worker.Ready?
    ensures Inv(WorkerStep(s, c))
  {
  }

  lemma RegisterKeepsInv(s: State, c: Choice)
    requires Inv(s) && s.worker.Spawned?
    ensures Inv(WorkerStep(s, c))
  {
  }

  lemma KillKeepsInv(s: State, c: Choice)
    requires Inv(s) && s.worker.Doomed?
    ensures Inv(WorkerStep(s, c))
  {
  }

  lemma WaitKeepsInv(s: State, c: Choice)
    requires Inv(s) && s.worker.Waiting?
    ensures Inv(WorkerStep(s, c))
  {
  }

  lemma ReapKeepsInv(s: State, c: Choice)
    requires Inv(s) && (s.worker.Reaped? || s.worker.Forgotten?)
    ensures Inv(WorkerStep(s, c))
  {
  }

  lemma EndingKeepsInv(s: State, c: Choice)
    requires Inv(s) && IsEnding(s.worker)
    ensures Inv(WorkerStep(s, c))
  {
    hide Inv, WorkerStep;
    if s.worker.ToReport? || s.worker.Failing? {
      ReadingTheFlagKeepsInv(s, c);
    } else {
      ReportingKeepsInv(s, c);
    }
  }

  lemma ReadingTheFlagKeepsInv(s: State, c: Choice)
    requires Inv(s) && (s.worker.ToReport? || s.worker.Failing?)
    ensures Inv(WorkerStep(s, c))
  {
  }

  lemma ReportingKeepsInv(s: State, c: Choice)
    requires Inv(s) && (s.worker.Emitting? || s.worker.Leaving? || s.worker.Gone?)
    ensures Inv(WorkerStep(s, c))
  {
  }

  lemma WorkerKeepsInv(s: State, c: Choice)
    requires Inv(s)
    ensures Inv(WorkerStep(s, c))
  {
    hide Inv, WorkerStep;
    match s.worker {
      case Fresh => StartingKeepsInv(s, c);
      case Made(_) => StartingKeepsInv(s, c);
      case ToMakeSecond => SecondEngineKeepsInv(s, c);
      case MadeSecond(_) => SecondEngineKeepsInv(s, c);
      case Ready(_) => LaunchKeepsInv(s, c);
      case Spawned(_, _) => RegisterKeepsInv(s, c);
      case Doomed(_, _) => KillKeepsInv(s, c);
      case Waiting(_, _) => WaitKeepsInv(s, c);
      case Reaped(_, _) => ReapKeepsInv(s, c);
      case Forgotten(_, _) => ReapKeepsInv(s, c);
      case ToReport => EndingKeepsInv(s, c);
      case Failing => EndingKeepsInv(s, c);
      case Emitting(_) => EndingKeepsInv(s, c);
      case Leaving => EndingKeepsInv(s, c);
      case Gone => EndingKeepsInv(s, c);
    }
  }

  lemma ReadingKeepsInv(s: State)
    requires Inv(s) && (s.canceller.Outside? || s.canceller.ToReadSecond?)
    ensures Inv(CancelStep(s))
  {
  }

  lemma AbortKeepsInv(s: State)
    requires Inv(s) && s.canceller.ToAbort?
    ensures Inv(CancelStep(s))
  {
  }

  lemma HandingKeepsInv(s: State)
    requires Inv(s) && s.canceller.ToKill?
    ensures Inv(CancelStep(s))
  {
  }

  lemma CancelKeepsInv(s: State)
    requires Inv(s)
    ensures Inv(CancelStep(s))
  {
    hide Inv, CancelStep;
    match s.canceller {
      case Outside => ReadingKeepsInv(s);
      case ToReadSecond => ReadingKeepsInv(s);
      case ToAbort(_, _) => AbortKeepsInv(s);
      case ToKill(_, _) => HandingKeepsInv(s);
    }
  }

  lemma EndKeepsInv(s: State, pid: nat)
    requires Inv(s)
    ensures Inv(s.(live := s.live - {pid}))
  {
  }

  lemma {:induction false} RunKeepsInv(s: State, steps: seq<Step>)
    requires Inv(s)
    ensures Inv(Run(s, steps))
    decreases |steps|
  {
    hide Inv, WorkerStep, CancelStep;
    if steps != [] {
      match steps[0] {
        case WorkerMoves(c) => WorkerKeepsInv(s, c);
        case UiMoves => CancelKeepsInv(s);
        case ProcessEnds(pid) => EndKeepsInv(s, pid);
      }
      RunKeepsInv(Next(s, steps[0]), steps[1..]);
    }
  }

  // The next step of the worker hands this process to a kill, or the step after it does.
  predicate InWindow(s: State, pid: nat) {
    match s.worker
    case Spawned(stage, p) => p == pid && EngineOf(s, Runs(s, stage)).aborted
    case Doomed(_, p) => p == pid
    case _ => false
  }

  // Main result. In every state after cancel() has returned, whatever the interleaving and the
  // number of calls, each live process has been handed to a kill or is in the window in which
  // the worker hands it over itself; that holds for both engines and for every later command.
  lemma NoProcessEscapes(isClone: bool, steps: seq<Step>)
    ensures var s := Run(Initial(isClone), steps);
      s.returned ==> forall p :: p in s.live ==> p in s.handed || InWindow(s, p)
  {
    hide Run;
    InitialHolds(isClone);
    RunKeepsInv(Initial(isClone), steps);
    if Run(Initial(isClone), steps).returned {
      InvIsSafe(Run(Initial(isClone), steps));
    }
  }

  lemma InvIsSafe(s: State)
    requires Inv(s) && s.returned
    ensures forall p :: p in s.live ==> p in s.handed || InWindow(s, p)
  {
  }

  // The window closes: the worker's next two steps hand the process over, whatever they choose.
  lemma WindowCloses(s: State, pid: nat, c: Choice, d: Choice)
    requires InWindow(s, pid)
    ensures var t := WorkerStep(s, c);
      pid in t.handed || (InWindow(t, pid) && pid in WorkerStep(t, d).handed)
  {
  }

  // And the abort flags stay up, so no step of anyone reopens it.
  lemma AbortIsForGood(s: State, step: Step, w: Which)
    requires EngineOf(s, w).aborted
    ensures EngineOf(Next(s, step), w).aborted
    ensures s.returned ==> Next(s, step).returned
  {
    match step {
      case WorkerMoves(c) => WorkerKeepsAborts(s, c, w);
      case UiMoves =>
      case ProcessEnds(_) =>
    }
  }

  lemma WorkerKeepsAborts(s: State, c: Choice, w: Which)
    requires EngineOf(s, w).aborted
    ensures EngineOf(WorkerStep(s, c), w).aborted && WorkerStep(s, c).returned == s.returned
  {
    hide WorkerStep;
    if TouchesEngine(s.worker) {
      EngineStepsKeepAborts(s, c, w);
    } else {
      OtherStepsLeaveEngines(s, c);
    }
  }

  predicate TouchesEngine(w: Worker) { w.Fresh? || w.ToMakeSecond? || w.Spawned? || w.Reaped? }

  lemma EngineStepsKeepAborts(s: State, c: Choice, w: Which)
    requires EngineOf(s, w).aborted && TouchesEngine(s.worker)
    ensures EngineOf(WorkerStep(s, c), w).aborted && WorkerStep(s, c).returned == s.returned
  {
  }

  lemma OtherStepsLeaveEngines(s: State, c: Choice)
    requires !TouchesEngine(s.worker)
    ensures var t := WorkerStep(s, c); t.own == s.own && t.cloning == s.cloning && t.returned == s.returned
  {
  }

  // ----- Signals -----

  function StageSignals(stage: Stage): seq<Signal> { if stage.Maintaining? then [Finished] else [] }

  ghost predicate Reporting(w: Worker, signals: seq<Signal>) {
    match w
    case Gone => signals == [Retired] || signals == [Finished, Retired] || signals == [Failed, Retired]
    case Leaving => signals == [] || signals == [Finished] || signals == [Failed]
    case Ready(stage) => signals == StageSignals(stage)
    case Spawned(stage, _) => signals == StageSignals(stage)
    case Doomed(stage, _) => signals == StageSignals(stage)
    case Waiting(stage, _) => signals == StageSignals(stage)
    case Reaped(stage, _) => signals == StageSignals(stage)
    case Forgotten(stage, _) => signals == StageSignals(stage)
    case Emitting(signal) => signals == [] && !signal.Retired?
    case _ => signals == []
  }

  lemma SilentSteps(s: State, c: Choice)
    requires !IsEnding(s.worker)
    ensures WorkerStep(s, c).signals == s.signals && WorkerStep(s, c).cancelled == s.cancelled
  {
  }

  lemma RunningReports(s: State, c: Choice)
    requires Reporting(s.worker, s.signals)
    requires !IsEnding(s.worker)
    ensures Reporting(WorkerStep(s, c).worker, s.signals)
  {
    hide WorkerStep, Reporting;
    if s.worker.Fresh? || s.worker.Made? || s.worker.ToMakeSecond? || s.worker.MadeSecond? {
      StartReports(s, c);
    } else {
      StageReports(s, c);
    }
  }

  lemma StartReports(s: State, c: Choice)
    requires Reporting(s.worker, s.signals)
    requires s.worker.Fresh? || s.worker.Made? || s.worker.ToMakeSecond? || s.worker.MadeSecond?
    ensures Reporting(WorkerStep(s, c).worker, s.signals)
  {
  }

  lemma StageReports(s: State, c: Choice)
    requires Reporting(s.worker, s.signals)
    requires s.worker.Ready? || s.worker.Spawned? || s.worker.Doomed? || s.worker.Waiting? || s.worker.Reaped?
          || s.worker.Forgotten?
    ensures Reporting(WorkerStep(s, c).worker, s.signals)
  {
  }

  lemma EndingReports(s: State, c: Choice)
    requires Reporting(s.worker, s.signals)
    requires IsEnding(s.worker)
    ensures Reporting(WorkerStep(s, c).worker, WorkerStep(s, c).signals)
  {
  }

  lemma WorkerReports(s: State, c: Choice)
    requires Reporting(s.worker, s.signals)
    ensures Reporting(WorkerStep(s, c).worker, WorkerStep(s, c).signals)
  {
    hide Reporting, WorkerStep;
    if IsEnding(s.worker) {
      EndingReports(s, c);
    } else {
      SilentSteps(s, c);
      RunningReports(s, c);
    }
  }

  lemma {:induction false} RunReports(s: State, steps: seq<Step>)
    requires Reporting(s.worker, s.signals)
    ensures Reporting(Run(s, steps).worker, Run(s, steps).signals)
    decreases |steps|
  {
    hide Reporting, WorkerStep;
    if steps != [] {
      if steps[0].WorkerMoves? {
        WorkerReports(s, steps[0].choice);
      }
      RunReports(Next(s, steps[0]), steps[1..]);
    }
  }

  // In every run at most one of finished and failed is emitted, and retired exactly once, after
  // it, when the worker is gone.
  lemma SignalsAreOrdered(isClone: bool, steps: seq<Step>)
    ensures var s := Run(Initial(isClone), steps);
      && (s.signals == [] || s.signals == [Finished] || s.signals == [Failed] || s.worker.Gone?)
      && (s.worker.Gone? ==> exists first :: s.signals == first + [Retired] && (first == [] || first == [Finished] || first == [Failed]))
  {
    hide Run;
    RunReports(Initial(isClone), steps);
    var s := Run(Initial(isClone), steps);
    if s.worker.Gone? {
      assert [Retired] == [] + [Retired] && [Finished, Retired] == [Finished] + [Retired]
          && [Failed, Retired] == [Failed] + [Retired];
    }
  }

  // ----- What is reported -----

  // Without a cancel the worker never stops in silence.
  ghost predicate Honest(s: State) {
    && Reporting(s.worker, s.signals)
    && (!s.cancelled ==>
          && (s.worker.Made? || s.worker.MadeSecond? ==> !s.worker.stop)
          && (s.worker.Leaving? ==> s.signals != [])
          && (s.worker.Gone? ==> s.signals != [Retired]))
  }

  lemma HonestEnding(s: State, c: Choice)
    requires Honest(s) && IsEnding(s.worker)
    ensures Honest(WorkerStep(s, c))
  {
  }

  lemma HonestWork(s: State, c: Choice)
    requires Honest(s) && !IsEnding(s.worker)
    ensures Honest(WorkerStep(s, c))
  {
    WorkerReports(s, c);
    SilentSteps(s, c);
    if !s.cancelled {
      NoSilentEnd(s, c);
    }
    hide WorkerStep, Reporting;
  }

  lemma NoSilentEnd(s: State, c: Choice)
    requires Honest(s) && !IsEnding(s.worker) && !s.cancelled
    ensures var t := WorkerStep(s, c);
      && !t.cancelled && (t.worker.Made? || t.worker.MadeSecond? ==> !t.worker.stop)
      && (t.worker.Leaving? ==> s.signals != []) && !t.worker.Gone?
  {
  }

  lemma {:induction false} RunIsHonest(s: State, steps: seq<Step>)
    requires Honest(s)
    ensures Honest(Run(s, steps))
    decreases |steps|
  {
    hide Honest, WorkerStep;
    if steps != [] {
      match steps[0] {
        case WorkerMoves(c) => if IsEnding(s.worker) { HonestEnding(s, c); } else { HonestWork(s, c); }
        case UiMoves => CancelIsHonest(s);
        case ProcessEnds(pid) => EndIsHonest(s, pid);
      }
      RunIsHonest(Next(s, steps[0]), steps[1..]);
    }
  }

  lemma CancelIsHonest(s: State)
    requires Honest(s)
    ensures Honest(CancelStep(s))
  {
    CancelChangesNoReport(s);
    hide CancelStep, Reporting;
  }

  lemma CancelChangesNoReport(s: State)
    ensures var t := CancelStep(s); t.worker == s.worker && t.signals == s.signals && (s.cancelled ==> t.cancelled)
  {
  }

  lemma EndIsHonest(s: State, pid: nat)
    requires Honest(s)
    ensures Honest(s.(live := s.live - {pid}))
  {
  }

  // Main result on reports. A worker that nobody cancelled reports success or failure, once, before
  // it retires.
  lemma UncancelledReports(isClone: bool, steps: seq<Step>)
    ensures var s := Run(Initial(isClone), steps);
      s.worker.Gone? && !s.cancelled ==> s.signals == [Finished, Retired] || s.signals == [Failed, Retired]
  {
    hide Run;
    RunIsHonest(Initial(isClone), steps);
  }

  // A cancelled worker reports exactly if it had read the flag before the cancel.
  lemma CancelledReportsIff(s: State, step: Step)
    requires s.cancelled
    ensures Next(s, step).signals == s.signals + [Finished] <==> step.WorkerMoves? && s.worker == Emitting(Finished)
    ensures Next(s, step).signals == s.signals + [Failed] <==> step.WorkerMoves? && s.worker == Emitting(Failed)
    ensures Next(s, step).worker.Emitting? ==> !step.WorkerMoves? && s.worker == Next(s, step).worker
  {
    if step.WorkerMoves? {
      CancelledWorker(s, step.choice);
    }
    assert s.signals != s.signals + [Finished] && s.signals != s.signals + [Failed];
  }

  lemma CancelledWorker(s: State, c: Choice)
    requires s.cancelled
    ensures var t := WorkerStep(s, c);
      && (t.signals == s.signals + [Finished] <==> s.worker == Emitting(Finished))
      && (t.signals == s.signals + [Failed] <==> s.worker == Emitting(Failed))
      && !t.worker.Emitting?
  {
    hide AfterFailure;
    if IsEnding(s.worker) {
      CancelledEnding(s, c);
    } else {
      SilentSteps(s, c);
      AfterFailureIsNoReport();
    }
  }

  lemma AfterFailureIsNoReport()
    ensures forall stage :: !AfterFailure(stage).Emitting?
  {
  }

  lemma CancelledEnding(s: State, c: Choice)
    requires s.cancelled && IsEnding(s.worker)
    ensures var t := WorkerStep(s, c);
      && (t.signals == s.signals + [Finished] <==> s.worker == Emitting(Finished))
      && (t.signals == s.signals + [Failed] <==> s.worker == Emitting(Failed))
      && !t.worker.Emitting?
  {
    assert forall x, y :: s.signals + [x] == s.signals + [y] ==> x == y by {
      forall x, y | s.signals + [x] == s.signals + [y] ensures x == y {
        assert (s.signals + [x])[|s.signals|] == (s.signals + [y])[|s.signals|];
      }
    }
  }

  // It happens: cancel() is called and returns between the reading of the flag and the report.
  lemma CancelledMayReport(c: Choice)
    ensures var before := Initial(false).(worker := ToReport, own := Engine(true, false, None));
      var after := Run(before, [WorkerMoves(c), UiMoves, UiMoves, UiMoves, WorkerMoves(c)]);
      after.returned && after.signals == [Finished]
  {
    var s0 := Initial(false).(worker := ToReport, own := Engine(true, false, None));
    var s1 := WorkerStep(s0, c);
    var s2 := CancelStep(s1);
    var s3 := CancelStep(s2);
    var s4 := CancelStep(s3);
    var s5 := WorkerStep(s4, c);
    FiveSteps(s0, WorkerMoves(c), UiMoves, UiMoves, UiMoves, WorkerMoves(c));
    assert s5.signals == [] + [Finished];
  }

  lemma FiveSteps(s: State, a: Step, b: Step, c: Step, d: Step, e: Step)
    ensures Run(s, [a, b, c, d, e]) == Next(Next(Next(Next(Next(s, a), b), c), d), e)
  {
    hide Next;
    assert [a, b, c, d, e][1..] == [b, c, d, e] && [b, c, d, e][1..] == [c, d, e] && [c, d, e][1..] == [d, e];
    assert [d, e][1..] == [e] && [e][1..] == [];
    OneStep(s, a, [b, c, d, e]);
    OneStep(Next(s, a), b, [c, d, e]);
    OneStep(Next(Next(s, a), b), c, [d, e]);
    OneStep(Next(Next(Next(s, a), b), c), d, [e]);
    OneStep(Next(Next(Next(Next(s, a), b), c), d), e, []);
  }

  lemma OneStep(s: State, a: Step, rest: seq<Step>)
    ensures Run(s, [a] + rest) == Run(Next(s, a), rest) && Run(s, []) == s
    ensures |rest| == 4 ==> [a] + rest == [a, rest[0], rest[1], rest[2], rest[3]]
    ensures |rest| == 3 ==> [a] + rest == [a, rest[0], rest[1], rest[2]]
    ensures |rest| == 2 ==> [a] + rest == [a, rest[0], rest[1]]
    ensures |rest| == 1 ==> [a] + rest == [a, rest[0]]
    ensures rest == [] ==> [a] + rest == [a]
    ensures forall t :: Run(t, []) == t
  {
    assert ([a] + rest)[1..] == rest;
  }

  // ----- Progress -----

  // The operation starts, if nobody cancelled.
  lemma WorkerStarts(s: State, c: Choice)
    requires s.worker.Fresh? && !s.cancelled && c.ok
    ensures var t := WorkerStep(WorkerStep(s, c), c);
      var t := if s.isClone then WorkerStep(WorkerStep(t, c), c) else t;
      && t.worker == Ready(Operating) && EngineOf(t, Runs(t, Operating)).published
  {
  }

  // A command becomes a process, which the engine holds until it ends.
  lemma CommandIsLaunched(s: State, stage: Stage, c: Choice, d: Choice)
    requires s.worker == Ready(stage) && c.more && !(s.isClone && stage.Storing?) && c.pid !in s.used
    ensures var t := WorkerStep(s, c);
      && t.worker == Spawned(stage, c.pid) && t.live == s.live + {c.pid}
      && (!EngineOf(s, Runs(s, stage)).aborted ==>
            && WorkerStep(t, d).worker == Waiting(stage, c.pid)
            && EngineOf(WorkerStep(t, d), Runs(s, stage)).proc == Some(c.pid))
  {
  }

  // A process that ended well lets the worker go on, one that did not, or an abort, does not.
  lemma CommandEnds(s: State, stage: Stage, pid: nat, c: Choice, d: Choice, e: Choice)
    requires s.worker == Waiting(stage, pid) && pid !in s.live
    ensures WorkerStep(WorkerStep(WorkerStep(s, c), d), e).worker
         == if c.ok && !EngineOf(s, Runs(s, stage)).aborted then Ready(stage) else AfterFailure(stage)
  {
  }

  // An operation that went well is reported as finished, one that failed as failed.
  lemma OperationIsReported(s: State, c: Choice, d: Choice, e: Choice, f: Choice)
    requires s.worker == Ready(Operating) && !s.cancelled && !c.more && !d.more
    ensures c.ok ==> WorkerStep(WorkerStep(WorkerStep(WorkerStep(s, c), d), e), f).signals == s.signals + [Finished]
    ensures !c.ok ==> WorkerStep(WorkerStep(WorkerStep(s, c), d), e).signals == s.signals + [Failed]
  {
  }

  // How far a call of cancel() is from its return.
  function StepsToReturn(s: State): nat {
    match s.canceller
    case Outside => 0
    case ToAbort(w, found) => (if found then 2 else 1) + After(s, w)
    case ToKill(w, _) => 1 + After(s, w)
    case ToReadSecond => 3
  }

  function After(s: State, w: Which): nat { if s.isClone && w.Own? then 3 else 0 }

  // A call of cancel() sets the flag at once, and each of its steps brings it nearer to its return,
  // whatever the worker does in between.
  lemma CancelReturns(s: State, step: Step)
    ensures CancelStep(s).cancelled || !s.canceller.Outside?
    ensures !s.canceller.Outside? ==>
      var t := CancelStep(s); StepsToReturn(t) < StepsToReturn(s) && (t.canceller.Outside? ==> t.returned)
    ensures !step.UiMoves? ==> StepsToReturn(Next(s, step)) == StepsToReturn(s)
  {
    if step.WorkerMoves? {
      WorkerLeavesCanceller(s, step.choice);
    }
  }

  lemma WorkerLeavesCanceller(s: State, c: Choice)
    ensures WorkerStep(s, c).canceller == s.canceller && WorkerStep(s, c).isClone == s.isClone
  {
  }
}
