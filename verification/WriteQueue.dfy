// The single-flight write queue (src/gitclient/application/write_queue.py).
//
// The handler of a finished job emits its report while it runs; a slot may open an event loop in
// which jobs are submitted and other handlers run. The state machine below has one frame for
// every handler in progress; the class follows the source, with its call stack in their place.
module WriteQueue {
  import opened Wrappers

  datatype Event = Submitted(id: nat) | Started(id: nat) | Reported(id: nat, ok: bool) | Idle

  // Where a handler in progress stands: inside its report, or inside the idle signal.
  datatype Frame = Reporting(id: nat) | EmittingIdle

  // inFlight holds the jobs a worker thread has been given and that have not reported yet.
  datatype Queue = Queue(
    pending: seq<nat>, active: Option<nat>, nextId: nat,
    inFlight: set<nat>, frames: seq<Frame>, log: seq<Event>)
  {
    predicate IsBusy() { active.Some? || pending != [] }
  }

  const INITIAL := Queue([], None, 1, {}, [], [])

  // What happens on the UI thread: a submission, the report of a job, which went well or failed, the return of the slot
  // called by the newest handler.
  datatype Action = Submit | Complete(id: nat, ok: bool) | SlotReturns

  function StartNext(q: Queue): Queue {
    if q.active.Some? || q.pending == [] then q
    else
      var id := q.pending[0];
      q.(pending := q.pending[1..], active := Some(id), inFlight := q.inFlight + {id}, log := q.log + [Started(id)])
  }

  function Step(q: Queue, a: Action): Queue {
    match a
    case Submit =>
      StartNext(q.(pending := q.pending + [q.nextId], nextId := q.nextId + 1, log := q.log + [Submitted(q.nextId)]))
    case Complete(id, ok) =>
      if id !in q.inFlight then q
      else
        var arrived := q.(inFlight := q.inFlight - {id});
        if q.active != Some(id) then arrived
        else arrived.(active := None, log := q.log + [Reported(id, ok)], frames := q.frames + [Reporting(id)])
    case SlotReturns =>
      if q.frames == [] then q
      else
        var below := q.frames[..|q.frames| - 1];
        if q.frames[|q.frames| - 1].EmittingIdle? then q.(frames := below)
        else
          var next := StartNext(q);
          if next.IsBusy() then next.(frames := below)
          else next.(frames := below + [EmittingIdle], log := next.log + [Idle])
  }

  function Run(q: Queue, actions: seq<Action>): Queue
    decreases |actions|
  {
    if actions == [] then q else Run(Step(q, actions[0]), actions[1..])
  }

  // ----- What the log says -----

  function UpTo(n: nat): (s: seq<nat>)
    ensures |s| == n && forall k :: 0 <= k < n ==> s[k] == k + 1
  {
    if n == 0 then [] else UpTo(n - 1) + [n]
  }

  function SubmittedIn(log: seq<Event>): seq<nat> {
    if log == [] then []
    else
      var last := log[|log| - 1];
      SubmittedIn(log[..|log| - 1]) + if last.Submitted? then [last.id] else []
  }

  function StartedIn(log: seq<Event>): seq<nat> {
    if log == [] then []
    else
      var last := log[|log| - 1];
      StartedIn(log[..|log| - 1]) + if last.Started? then [last.id] else []
  }

  function ReportedIn(log: seq<Event>): seq<nat> {
    if log == [] then []
    else
      var last := log[|log| - 1];
      ReportedIn(log[..|log| - 1]) + if last.Reported? then [last.id] else []
  }

  // At every idle, each job submitted so far has reported.
  ghost predicate IdleOnlyWhenDone(log: seq<Event>) {
    forall i :: 0 <= i < |log| && log[i] == Idle ==> ReportedIn(log[..i]) == SubmittedIn(log[..i])
  }

  // An idle came after the last report, if there was a report.
  predicate IdleAfterLastReport(log: seq<Event>) {
    log == [] || (
      var last := log[|log| - 1];
      last == Idle || (!last.Reported? && IdleAfterLastReport(log[..|log| - 1])))
  }

  ghost predicate HasReporting(frames: seq<Frame>) {
    exists k :: 0 <= k < |frames| && frames[k].Reporting?
  }

  // Jobs are submitted, started and reported in the same order, each once; those not started are
  // pending, the one started and not reported is active and in flight, and every idle so far came
  // when all was done.
  ghost predicate Counted(q: Queue) {
    var started, reported := |StartedIn(q.log)|, |ReportedIn(q.log)|;
    && q.nextId > 0 && SubmittedIn(q.log) == UpTo(q.nextId - 1)
    && StartedIn(q.log) == UpTo(started) && ReportedIn(q.log) == UpTo(reported)
    && StartedIn(q.log) + q.pending == SubmittedIn(q.log)
    && q.active == (if reported < started then Some(started) else None)
    && started <= reported + 1 && reported <= started
    && q.inFlight == (if q.active.Some? then {q.active.value} else {})
    && IdleOnlyWhenDone(q.log)
  }

  ghost predicate Valid(q: Queue) {
    && Counted(q)
    // Waiting work has a job running before it or a handler that will start it.
    && (q.pending != [] && q.active.None? ==> HasReporting(q.frames))
    // The end of a busy period is followed by an idle once its handler has returned.
    && (!q.IsBusy() && !HasReporting(q.frames) ==> IdleAfterLastReport(q.log))
  }

  // ----- Every step -----

  lemma LogGrows(log: seq<Event>, e: Event)
    ensures SubmittedIn(log + [e]) == SubmittedIn(log) + if e.Submitted? then [e.id] else []
    ensures StartedIn(log + [e]) == StartedIn(log) + if e.Started? then [e.id] else []
    ensures ReportedIn(log + [e]) == ReportedIn(log) + if e.Reported? then [e.id] else []
    ensures IdleAfterLastReport(log + [e]) <==> e == Idle || (!e.Reported? && IdleAfterLastReport(log))
    ensures IdleOnlyWhenDone(log + [e])
      <==> IdleOnlyWhenDone(log) && (e == Idle ==> ReportedIn(log) == SubmittedIn(log))
  {
    var longer := log + [e];
    assert longer[..|longer| - 1] == log;
    assert forall i :: 0 <= i < |log| ==> longer[i] == log[i] && longer[..i] == log[..i];
    if IdleOnlyWhenDone(longer) {
      forall i | 0 <= i < |log| && log[i] == Idle ensures ReportedIn(log[..i]) == SubmittedIn(log[..i]) {
        assert longer[i] == Idle;
      }
      if e == Idle {
        assert longer[|log|] == Idle && longer[..|log|] == log;
      }
    }
  }

  lemma UpToGrows(n: nat)
    ensures UpTo(n + 1) == UpTo(n) + [n + 1]
  {
  }

  lemma StartKeepsCounts(q: Queue)
    requires Counted(q)
    ensures var n := StartNext(q);
      && Counted(n) && n.frames == q.frames && n.nextId == q.nextId
      && (n.pending != [] ==> n.active.Some?)
      && (!n.IsBusy() ==> n == q)
  {
    hide StartedIn, SubmittedIn, ReportedIn, IdleAfterLastReport, IdleOnlyWhenDone, UpTo;
    if q.active.None? && q.pending != [] {
      var started := StartedIn(q.log);
      var n := |started|;
      LogGrows(q.log, Started(q.pending[0]));
      assert q.pending[0] == (started + q.pending)[n] == n + 1;
      assert started + q.pending == started + [n + 1] + q.pending[1..];
      UpToGrows(n);
    }
  }

  lemma SubmitCounts(q: Queue)
    requires Counted(q)
    ensures Counted(q.(pending := q.pending + [q.nextId], nextId := q.nextId + 1, log := q.log + [Submitted(q.nextId)]))
  {
    hide StartedIn, SubmittedIn, ReportedIn, IdleAfterLastReport, IdleOnlyWhenDone, UpTo;
    LogGrows(q.log, Submitted(q.nextId));
    UpToGrows(q.nextId - 1);
    assert StartedIn(q.log) + (q.pending + [q.nextId]) == (StartedIn(q.log) + q.pending) + [q.nextId];
  }

  lemma SubmitKeepsValid(q: Queue)
    requires Valid(q)
    ensures Valid(Step(q, Submit))
  {
    SubmitCounts(q);
    StartKeepsCounts(q.(pending := q.pending + [q.nextId], nextId := q.nextId + 1, log := q.log + [Submitted(q.nextId)]));
    hide Counted, HasReporting, IdleAfterLastReport;
  }

  // A report that arrives is always the active job's: the defensive check of the source never
  // drops one.
  lemma ReportIsTheActiveJobs(q: Queue, id: nat)
    requires Valid(q) && id in q.inFlight
    ensures q.active == Some(id)
  {
  }

  lemma CompleteKeepsValid(q: Queue, id: nat, ok: bool)
    requires Valid(q)
    ensures Valid(Step(q, Complete(id, ok)))
  {
    hide StartedIn, SubmittedIn, ReportedIn, IdleAfterLastReport, IdleOnlyWhenDone, UpTo;
    if id in q.inFlight {
      LogGrows(q.log, Reported(id, ok));
      var s := Step(q, Complete(id, ok));
      assert s.frames[|q.frames|].Reporting?;
      UpToGrows(id - 1);
    }
  }

  lemma PopReporting(frames: seq<Frame>)
    requires frames != []
    ensures frames[|frames| - 1].EmittingIdle? ==> (HasReporting(frames[..|frames| - 1]) <==> HasReporting(frames))
    ensures HasReporting(frames[..|frames| - 1] + [EmittingIdle]) <==> HasReporting(frames[..|frames| - 1])
  {
    var below := frames[..|frames| - 1];
    if k :| 0 <= k < |frames| && frames[k].Reporting? && frames[|frames| - 1].EmittingIdle? {
      assert below[k].Reporting?;
    }
    if k :| 0 <= k < |below| && below[k].Reporting? {
      assert frames[k].Reporting? && (below + [EmittingIdle])[k].Reporting?;
    }
    if HasReporting(below + [EmittingIdle]) {
      var k :| 0 <= k < |below + [EmittingIdle]| && (below + [EmittingIdle])[k].Reporting?;
      assert below[k].Reporting?;
    }
  }

  lemma ReturnKeepsValid(q: Queue)
    requires Valid(q)
    ensures Valid(Step(q, SlotReturns))
  {
    hide Counted, HasReporting, IdleAfterLastReport;
    if q.frames != [] {
      PopReporting(q.frames);
      FramesAreNotCounted(q, q.frames[..|q.frames| - 1]);
      FramesAreNotCounted(StartNext(q), q.frames[..|q.frames| - 1]);
      if q.frames[|q.frames| - 1].Reporting? {
        StartKeepsCounts(q);
        if !StartNext(q).IsBusy() {
          IdleCounts(q);
        }
      }
    }
  }

  lemma FramesAreNotCounted(q: Queue, frames: seq<Frame>)
    ensures Counted(q.(frames := frames)) <==> Counted(q)
  {
  }

  lemma IdleCounts(q: Queue)
    requires Counted(q) && !q.IsBusy()
    ensures var frames := q.frames[..if q.frames == [] then 0 else |q.frames| - 1] + [EmittingIdle];
      Counted(q.(frames := frames, log := q.log + [Idle])) && IdleAfterLastReport(q.log + [Idle])
  {
    hide StartedIn, SubmittedIn, ReportedIn, IdleAfterLastReport, IdleOnlyWhenDone, UpTo;
    LogGrows(q.log, Idle);
    assert StartedIn(q.log) + [] == StartedIn(q.log);
  }

  // Main result. Whatever the slots do, re-entering the queue to any depth: one job at a time,
  // started and reported once and in submission order, idle only when all is done, waiting work
  // never without a handler to start it, and an idle after every busy period.
  lemma {:induction false} EveryRunIsValid(q: Queue, actions: seq<Action>)
    requires Valid(q)
    ensures Valid(Run(q, actions))
    decreases |actions|
  {
    hide Valid, Step;
    if actions != [] {
      match actions[0] {
        case Submit => SubmitKeepsValid(q);
        case Complete(id, ok) => CompleteKeepsValid(q, id, ok);
        case SlotReturns => ReturnKeepsValid(q);
      }
      EveryRunIsValid(Step(q, actions[0]), actions[1..]);
    }
  }

  lemma InitialIsValid()
    ensures Valid(INITIAL)
  {
  }

  // With no handler in progress nothing is stuck: the queue is idle and has said so, or a job runs.
  lemma NothingIsStuck(actions: seq<Action>)
    ensures var q := Run(INITIAL, actions);
      q.frames == [] ==>
        && (q.pending != [] ==> q.active.Some?)
        && (!q.IsBusy() ==> ReportedIn(q.log) == SubmittedIn(q.log) && IdleAfterLastReport(q.log))
  {
    hide Run;
    InitialIsValid();
    EveryRunIsValid(INITIAL, actions);
    var q := Run(INITIAL, actions);
    if !q.IsBusy() {
      assert StartedIn(q.log) + [] == StartedIn(q.log);
    }
  }

  // ----- The call stack -----

  // What a slot does, in order: submit a job, or let the report of a job in; the report runs its
  // own slot, and so does the idle signal if the handler emits one.
  datatype Act = SubmitJob | Deliver(id: nat, ok: bool, onReport: seq<Act>, onIdle: seq<Act>)

  function Perform(q: Queue, act: Act): Queue
    decreases act, 1
  {
    match act
    case SubmitJob => Step(q, Submit)
    case Deliver(id, ok, onReport, onIdle) =>
      if id !in q.inFlight || q.active != Some(id) then Step(q, Complete(id, ok))
      else
        var resumed := Step(PerformAll(Step(q, Complete(id, ok)), onReport), SlotReturns);
        if resumed.IsBusy() then resumed else Step(PerformAll(resumed, onIdle), SlotReturns)
  }

  function PerformAll(q: Queue, acts: seq<Act>): Queue
    decreases acts, 0
  {
    if acts == [] then q else PerformAll(Perform(q, acts[0]), acts[1..])
  }

  class Dispatcher {
    var pending: seq<nat>
    var active: Option<nat>
    var nextId: nat
    var inFlight: set<nat>
    ghost var frames: seq<Frame>
    ghost var log: seq<Event>

    constructor ()
      ensures Value() == INITIAL
    {
      pending, active, nextId := [], None, 1;
      inFlight, frames, log := {}, [], [];
    }

    ghost function Value(): Queue
      reads this
    {
      Queue(pending, active, nextId, inFlight, frames, log)
    }

    method SubmitWork() returns (id: nat)
      modifies this
      ensures id == old(nextId) && Value() == Step(old(Value()), Submit)
    {
      id := nextId;
      nextId := nextId + 1;
      pending := pending + [id];
      log := log + [Submitted(id)];
      StartNextIfIdle();
    }

    method StartNextIfIdle()
      modifies this
      ensures Value() == StartNext(old(Value()))
    {
      if active.Some? || pending == [] {
        return;
      }
      var id := pending[0];
      pending := pending[1..];
      active := Some(id);
      inFlight := inFlight + {id};
      log := log + [Started(id)];
    }

    // The handler of a report. Its two signals run the slots connected to them before it goes on.
    method OnDone(id: nat, ok: bool, onReport: seq<Act>, onIdle: seq<Act>, ghost act: Act)
      requires id in inFlight && act == Deliver(id, ok, onReport, onIdle)
      modifies this
      ensures Value() == Perform(old(Value()), act)
      decreases act, 1
    {
      hide StartNext, Run, PerformAll;
      inFlight := inFlight - {id};
      if active != Some(id) {
        return;
      }
      active := None;
      frames := frames + [Reporting(id)];
      log := log + [Reported(id, ok)];
      ghost var first := Value();
      ghost var nested := DepthIsKept(first, onReport);
      RunSlot(onReport);
      Resume(onIdle, act);
    }

    // The rest of the handler, after its report.
    method Resume(onIdle: seq<Act>, ghost act: Act)
      requires frames != [] && frames[|frames| - 1].Reporting?
      requires act.Deliver? && act.onIdle == onIdle
      modifies this
      ensures var resumed := Step(old(Value()), SlotReturns);
        Value() == if resumed.IsBusy() then resumed else Step(PerformAll(resumed, onIdle), SlotReturns)
      decreases act, 0
    {
      hide PerformAll, Run;
      ghost var during := Value();
      StartNextIfIdle();
      frames := frames[..|frames| - 1];
      if active.None? && pending == [] {
        frames := frames + [EmittingIdle];
        log := log + [Idle];
        assert Value() == Step(during, SlotReturns);
        ghost var nested := DepthIsKept(Value(), onIdle);
        RunSlot(onIdle);
        frames := frames[..|frames| - 1];
      }
    }

    // What a slot does while it runs.
    method RunSlot(acts: seq<Act>)
      modifies this
      ensures Value() == PerformAll(old(Value()), acts)
      decreases acts, 0
    {
      if acts == [] {
        return;
      }
      match acts[0] {
        case SubmitJob =>
          var id := SubmitWork();
        case Deliver(id, ok, onReport, onIdle) =>
          if id in inFlight {
            OnDone(id, ok, onReport, onIdle, acts[0]);
          }
      }
      RunSlot(acts[1..]);
    }
  }

  lemma {:induction false} RunSplits(q: Queue, a: seq<Action>, b: seq<Action>)
    ensures Run(q, a + b) == Run(Run(q, a), b)
    decreases |a|
  {
    if a == [] {
      assert a + b == b;
    } else {
      assert (a + b)[0] == a[0] && (a + b)[1..] == a[1..] + b;
      RunSplits(Step(q, a[0]), a[1..], b);
    }
  }

  lemma RunOne(q: Queue, a: Action)
    ensures Run(q, [a]) == Step(q, a)
  {
    assert [a][1..] == [];
  }

  // A handler that runs inside another is a run of the state machine that leaves the frames below
  // it as they were.
  lemma {:induction false} DeliveryIsARun(q: Queue, act: Act) returns (actions: seq<Action>)
    ensures Perform(q, act) == Run(q, actions) && Perform(q, act).frames == q.frames
    decreases act, 1
  {
    hide Run;
    match act {
      case SubmitJob =>
        actions := [Submit];
        RunOne(q, Submit);
      case Deliver(id, ok, onReport, onIdle) =>
        var first := Step(q, Complete(id, ok));
        RunOne(q, Complete(id, ok));
        actions := [Complete(id, ok)];
        if id in q.inFlight && q.active == Some(id) {
          var slot := DepthIsKept(first, onReport);
          var returned := PerformAll(first, onReport);
          var resumed := Step(returned, SlotReturns);
          RunOne(returned, SlotReturns);
          RunSplits(q, [Complete(id, ok)], slot);
          RunSplits(q, [Complete(id, ok)] + slot, [SlotReturns]);
          actions := [Complete(id, ok)] + slot + [SlotReturns];
          assert returned.frames == q.frames + [Reporting(id)];
          assert (q.frames + [Reporting(id)])[..|q.frames|] == q.frames;
          if !resumed.IsBusy() {
            var idle := DepthIsKept(resumed, onIdle);
            var done := PerformAll(resumed, onIdle);
            RunOne(done, SlotReturns);
            RunSplits(q, actions, idle);
            RunSplits(q, actions + idle, [SlotReturns]);
            actions := actions + idle + [SlotReturns];
            assert (q.frames + [EmittingIdle])[..|q.frames|] == q.frames;
          }
        }
    }
  }

  lemma {:induction false} DepthIsKept(q: Queue, acts: seq<Act>) returns (actions: seq<Action>)
    ensures PerformAll(q, acts) == Run(q, actions) && PerformAll(q, acts).frames == q.frames
    decreases acts, 0
  {
    if acts == [] {
      actions := [];
    } else {
      var first := DeliveryIsARun(q, acts[0]);
      var rest := DepthIsKept(Perform(q, acts[0]), acts[1..]);
      RunSplits(q, first, rest);
      actions := first + rest;
    }
  }

  // So whatever slots nest in whatever way, the queue is valid and unstuck when they are done.
  lemma NestedSlotsKeepTheQueue(acts: seq<Act>)
    ensures var q := PerformAll(INITIAL, acts);
      && Valid(q) && q.frames == []
      && (q.pending != [] ==> q.active.Some?)
      && (!q.IsBusy() ==> ReportedIn(q.log) == SubmittedIn(q.log) && IdleAfterLastReport(q.log))
  {
    hide Run, PerformAll;
    InitialIsValid();
    var actions := DepthIsKept(INITIAL, acts);
    EveryRunIsValid(INITIAL, actions);
    NothingIsStuck(actions);
  }

  // ----- Progress -----

  // A job submitted to a queue at rest starts at once; otherwise it waits behind the others.
  lemma SubmitGoesOn(q: Queue)
    requires Valid(q)
    ensures var after := Step(q, Submit);
      && after.nextId == q.nextId + 1
      && (!q.IsBusy() ==> after.active == Some(q.nextId) && after.pending == [] && after.inFlight == {q.nextId})
      && (q.active.Some? ==> after.active == q.active && after.pending == q.pending + [q.nextId])
      && (q.active.None? && q.pending != [] ==>
            after.active == Some(q.pending[0]) && after.pending == q.pending[1..] + [q.nextId])
  {
    hide Valid;
    ActiveIsInFlight(q);
  }

  lemma ActiveIsInFlight(q: Queue)
    requires Valid(q)
    ensures q.inFlight == if q.active.Some? then {q.active.value} else {}
  {
  }

  // The report of the active job is passed on, and frees the queue.
  lemma ReportGoesOn(q: Queue, id: nat, ok: bool)
    requires Valid(q) && q.active == Some(id)
    ensures var after := Step(q, Complete(id, ok));
      && after.active == None && after.inFlight == {} && after.pending == q.pending
      && after.log == q.log + [Reported(id, ok)] && after.frames == q.frames + [Reporting(id)]
  {
    ActiveIsInFlight(q);
    hide Valid;
  }

  // After the report the next job starts, or, when there is none, the queue says that it is idle.
  lemma ReturnGoesOn(q: Queue)
    requires Valid(q) && q.frames != [] && q.frames[|q.frames| - 1].Reporting? && q.active.None?
    ensures var after := Step(q, SlotReturns);
      if q.pending != [] then
        && after.active == Some(q.pending[0]) && after.pending == q.pending[1..] && after.inFlight == {q.pending[0]}
        && after.log == q.log + [Started(q.pending[0])]
      else
        && !after.IsBusy() && after.log == q.log + [Idle]
        && after.frames != [] && after.frames[|after.frames| - 1].EmittingIdle?
  {
    ActiveIsInFlight(q);
    hide Valid;
  }

  // Main result on progress. Whatever is waiting, once each started job reports, all jobs have
  // started and reported, in the order of submission, and the queue is idle and has said so.
  lemma {:induction false} QueueDrains(q: Queue, ok: nat -> bool) returns (acts: seq<Act>)
    requires Valid(q) && q.frames == []
    ensures var end := PerformAll(q, acts);
      && Valid(end) && end.frames == [] && !end.IsBusy() && IdleAfterLastReport(end.log)
      && ReportedIn(end.log) == SubmittedIn(q.log) == SubmittedIn(end.log)
    ensures |acts| == |q.pending| + (if q.active.Some? then 1 else 0)
    ensures forall k :: 0 <= k < |acts| ==>
      acts[k].Deliver? && acts[k].ok == ok(acts[k].id) && acts[k].onReport == [] && acts[k].onIdle == []
    decreases |q.pending| + if q.active.Some? then 1 else 0
  {
    hide Perform, StartedIn, SubmittedIn, ReportedIn, IdleAfterLastReport;
    if q.active.None? {
      assert q.pending == [] by { NothingWaits(q); }
      acts := [];
      AllReported(q);
    } else {
      var act := Deliver(q.active.value, ok(q.active.value), [], []);
      DeliveryGoesOn(q, act, ok(q.active.value));
      var next := Perform(q, act);
      var rest := QueueDrains(next, ok);
      acts := [act] + rest;
      assert acts[0] == act && acts[1..] == rest;
    }
  }

  lemma NothingWaits(q: Queue)
    requires Valid(q) && q.frames == [] && q.active.None?
    ensures q.pending == []
  {
  }

  lemma AllReported(q: Queue)
    requires Valid(q) && q.frames == [] && !q.IsBusy()
    ensures ReportedIn(q.log) == SubmittedIn(q.log) && IdleAfterLastReport(q.log)
  {
    assert StartedIn(q.log) + [] == StartedIn(q.log);
  }

  // One report, handled without anything nested: one job less.
  lemma DeliveryGoesOn(q: Queue, act: Act, ok: bool)
    requires Valid(q) && q.frames == [] && q.active.Some? && act == Deliver(q.active.value, ok, [], [])
    ensures var next := Perform(q, act);
      && Valid(next) && next.frames == [] && SubmittedIn(next.log) == SubmittedIn(q.log)
      && (if q.pending == [] then !next.IsBusy() else next.active == Some(q.pending[0]) && next.pending == q.pending[1..])
  {
    hide Valid, SubmittedIn, Run, Perform, Step;
    var actions := DeliveryIsARun(q, act);
    EveryRunIsValid(q, actions);
    PlainDelivery(q, act, ok);
    DeliveryLog(q, ok);
  }

  lemma PlainDelivery(q: Queue, act: Act, ok: bool)
    requires Valid(q) && q.active.Some? && act == Deliver(q.active.value, ok, [], [])
    ensures var reported := Step(q, Complete(q.active.value, ok));
      var resumed := Step(reported, SlotReturns);
      Perform(q, act) == if resumed.IsBusy() then resumed else Step(resumed, SlotReturns)
  {
    ActiveIsInFlight(q);
    hide Valid, Step;
    NothingNested(Step(q, Complete(q.active.value, ok)));
    NothingNested(Step(Step(q, Complete(q.active.value, ok)), SlotReturns));
  }

  lemma NothingNested(q: Queue)
    ensures PerformAll(q, []) == q
  {
  }

  lemma DeliveryLog(q: Queue, ok: bool)
    requires Valid(q) && q.frames == [] && q.active.Some?
    ensures var reported := Step(q, Complete(q.active.value, ok));
      var resumed := Step(reported, SlotReturns);
      var next := if resumed.IsBusy() then resumed else Step(resumed, SlotReturns);
      && SubmittedIn(next.log) == SubmittedIn(q.log)
      && (if q.pending == [] then !next.IsBusy() else next.active == Some(q.pending[0]) && next.pending == q.pending[1..])
  {
    hide Valid, SubmittedIn, StartedIn, ReportedIn, IdleAfterLastReport, IdleOnlyWhenDone, Step;
    var id := q.active.value;
    var reported := Step(q, Complete(id, ok));
    ReportGoesOn(q, id, ok);
    CompleteKeepsValid(q, id, ok);
    ReturnGoesOn(reported);
    LogGrows(q.log, Reported(id, ok));
    if q.pending == [] {
      LogGrows(reported.log, Idle);
      IdleReturns(Step(reported, SlotReturns));
    } else {
      LogGrows(reported.log, Started(q.pending[0]));
    }
  }

  lemma IdleReturns(q: Queue)
    requires q.frames != [] && q.frames[|q.frames| - 1].EmittingIdle?
    ensures var after := Step(q, SlotReturns);
      after.active == q.active && after.pending == q.pending && after.log == q.log
  {
  }
}
