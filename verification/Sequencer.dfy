// The rebase driver (src/gitclient/infrastructure/local_engine.py, history operations), against
// git as an environment that may answer in any way its documentation and the integration tests
// of the repository describe (tests/integration/test_empty_commit_choice.py:1-16).
module Sequencer {
  import opened Wrappers

  type Commit = string

  // ----- Git -----

  datatype Operation = NoOperation | Rebase | Merge | CherryPick | Revert | Other {
    predicate IsActive() { !this.NoOperation? }

    // These the driver goes on with by a command of git.
    predicate IsSequenced() { this.Rebase? || this.IsSinglePick() }

    // One commit is carried over, or undone.
    predicate IsSinglePick() { this.CherryPick? || this.Revert? }
  }

  datatype Fate = Replayed | KeptEmpty | SkippedByUser | Lost

  datatype Entry = Entry(commit: Commit, fate: Fate)

  // A repository as far as a rebase goes. `applied` are the planned commits upstream has already,
  // `history` what became of the others so far, in order. `restored` is set by an abort, and
  // `stopsAtEmpty` by the option `--empty=stop` of the rebase in progress.
  datatype Repo = Repo(
    operation: Operation, plan: seq<Commit>, applied: seq<Commit>, history: seq<Entry>,
    stopped: Option<Commit>, remaining: seq<Commit>,
    conflicts: nat, stagedEqualsHead: bool, restored: bool, stopsAtEmpty: bool)

  const QUIET := Repo(NoOperation, [], [], [], None, [], 0, true, false, false)

  // The commands the driver issues. Git itself finds the plan of a rebase and which of its
  // commits upstream has.
  datatype Command =
    | Start(plan: seq<Commit>, upstream: set<Commit>, stopAtEmpty: bool) | Continue | Skip | Abort | CommitEmpty

  // Why the picking of commits stops: at a conflict, at a commit that would be empty, or for
  // another reason (a hook, a recorded resolution) with any staged tree.
  datatype Stop = Finish | AtConflict(more: nat) | AtEmpty | Otherwise(staged: bool, looksEmpty: bool)

  // How git answers: it refuses and changes nothing; it picks n commits and stops; or it is
  // killed by the time limit, before or after its first effect, after n picks, perhaps midway.
  // Of the commits it meets, those in `empties` bring nothing new when they are picked.
  datatype Answer =
    | Refuses(looksEmpty: bool)
    | Runs(n: nat, empties: set<Commit>, stop: Stop)
    | Killed(begun: bool, n: nat, empties: set<Commit>, midway: Option<Stop>)

  datatype Reply = Reply(ok: bool, looksEmpty: bool, warned: seq<Commit>) | TimedOut

  function FilterIn(cs: seq<Commit>, s: set<Commit>): seq<Commit> {
    if cs == [] then [] else (if cs[0] in s then [cs[0]] else []) + FilterIn(cs[1..], s)
  }

  function FilterOut(cs: seq<Commit>, s: set<Commit>): seq<Commit> {
    if cs == [] then [] else (if cs[0] in s then [] else [cs[0]]) + FilterOut(cs[1..], s)
  }

  function Entries(cs: seq<Commit>, fate: Fate): (es: seq<Entry>)
    ensures |es| == |cs| && forall k :: 0 <= k < |cs| ==> es[k] == Entry(cs[k], fate)
  {
    seq(|cs|, k requires 0 <= k < |cs| => Entry(cs[k], fate))
  }

  function StoppedList(r: Repo): seq<Commit> { if r.stopped.Some? then [r.stopped.value] else [] }

  // A picked commit is replayed, but dropped without a word when it brings nothing new.
  function Picked(cs: seq<Commit>, empties: set<Commit>): (es: seq<Entry>)
    ensures |es| == |cs|
    ensures forall k :: 0 <= k < |cs| ==> es[k] == Entry(cs[k], if cs[k] in empties then Lost else Replayed)
  {
    seq(|cs|, k requires 0 <= k < |cs| => Entry(cs[k], if cs[k] in empties then Lost else Replayed))
  }

  // The first n remaining commits are picked.
  function PickSome(r: Repo, n: nat, empties: set<Commit>): Repo
    requires n <= |r.remaining|
  {
    r.(history := r.history + Picked(r.remaining[..n], empties), remaining := r.remaining[n..],
       stopped := None, conflicts := 0, stagedEqualsHead := true)
  }

  // The commits among the first n in front of one that brings nothing new.
  function PicksBefore(cs: seq<Commit>, empties: set<Commit>, n: nat): (k: nat)
    requires n <= |cs|
    ensures k <= n && forall j :: 0 <= j < k ==> cs[j] !in empties
  {
    if n == 0 || cs[0] in empties then 0 else 1 + PicksBefore(cs[1..], empties, n - 1)
  }

  // How many of the next n commits are picked: with the option git stops at the first empty one.
  function Reach(r: Repo, n: nat, empties: set<Commit>): (k: nat)
    requires n <= |r.remaining|
    ensures k <= n
  {
    if r.stopsAtEmpty then PicksBefore(r.remaining, empties, n) else n
  }

  function StopAt(r: Repo, stop: Stop): Repo
    requires r.remaining != []
  {
    var at := r.(stopped := Some(r.remaining[0]), remaining := r.remaining[1..]);
    match stop
    case Finish => r
    case AtConflict(more) => at.(conflicts := more + 1, stagedEqualsHead := false)
    case AtEmpty => at.(conflicts := 0, stagedEqualsHead := true)
    case Otherwise(staged, _) => at.(conflicts := 0, stagedEqualsHead := staged)
  }

  function Wanted(r: Repo, n: nat, all: bool): (m: nat)
    ensures m <= |r.remaining|
  {
    if all || n > |r.remaining| then |r.remaining| else n
  }

  // The picking of commits, once nothing is stopped, and why it stopped.
  function Pick(r: Repo, n: nat, empties: set<Commit>, stop: Stop): (Repo, Stop) {
    var m := Wanted(r, n, stop.Finish?);
    var k := Reach(r, m, empties);
    var why := if k < m then AtEmpty else stop;
    var picked := PickSome(r, k, empties);
    (if picked.remaining == [] then picked.(operation := NoOperation) else StopAt(picked, why), why)
  }

  function PickKilled(r: Repo, n: nat, empties: set<Commit>, midway: Option<Stop>): Repo {
    var m := Wanted(r, n, false);
    var k := Reach(r, m, empties);
    var picked := PickSome(r, k, empties);
    if picked.remaining != [] && midway.Some? then StopAt(picked, if k < m then AtEmpty else midway.value) else picked
  }

  predicate WillRefuse(r: Repo, c: Command) {
    match c
    case Start(_, _, _) => r.operation.IsActive()
    case Continue =>
      !r.operation.IsSequenced() || r.conflicts > 0 || (r.operation.IsSinglePick() && r.stagedEqualsHead)
    case Skip => !r.operation.IsSequenced()
    case Abort => !r.operation.IsSequenced()
    case CommitEmpty => r.conflicts > 0
  }

  // The first effect of a command. `--continue` commits the stopped commit; a rebase drops it
  // without a word when its staged tree equals HEAD, where a cherry-pick and a revert refuse. For
  // these two the commit of the empty change is the end.
  function Begin(r: Repo, c: Command): Repo {
    match c
    case Start(plan, upstream, stopAtEmpty) =>
      Repo(Rebase, plan, FilterIn(plan, upstream), [], None, FilterOut(plan, upstream), 0, true, false, stopAtEmpty)
    case Continue =>
      r.(stopped := None, conflicts := 0, stagedEqualsHead := true,
         history := r.history + Entries(StoppedList(r), if r.stagedEqualsHead then Lost else Replayed))
    case Skip =>
      r.(stopped := None, conflicts := 0, stagedEqualsHead := true,
         history := r.history + Entries(StoppedList(r), SkippedByUser))
    case Abort =>
      r.(operation := NoOperation, history := [], applied := [], stopped := None, remaining := [],
         conflicts := 0, stagedEqualsHead := true, restored := true)
    case CommitEmpty =>
      r.(stopped := None, stagedEqualsHead := true,
         operation := if r.operation.IsSinglePick() then NoOperation else r.operation,
         history := r.history + Entries(StoppedList(r), if r.stagedEqualsHead then KeptEmpty else Replayed))
  }

  predicate PicksAfter(c: Command) { c.Start? || c.Continue? || c.Skip? }

  function Git(r: Repo, c: Command, a: Answer): (Repo, Reply) {
    if WillRefuse(r, c) then
      (r, if a.Killed? then TimedOut else Reply(false, a.Refuses? && a.looksEmpty, []))
    else
      var warned := if c.Start? then FilterIn(c.plan, c.upstream) else [];
      match a
      case Refuses(looksEmpty) => (r, Reply(false, looksEmpty, []))
      case Runs(n, empties, stop) =>
        if !PicksAfter(c) then (Begin(r, c), Reply(true, false, []))
        else
          var (after, why) := Pick(Begin(r, c), n, empties, stop);
          var looksEmpty := why.AtEmpty? || (why.Otherwise? && why.looksEmpty);
          (after, Reply(!after.operation.IsActive(), looksEmpty, warned))
      case Killed(begun, n, empties, midway) =>
        (if !begun then r else if PicksAfter(c) then PickKilled(Begin(r, c), n, empties, midway) else Begin(r, c),
         TimedOut)
  }

  // ----- The driver -----

  datatype Problem =
    | NotQuiet | WrongBranch | NothingToContinue | ConflictsLeft(n: nat) | HasChanges | CommitFailed | CommandFailed
    | TimeLimit | NotOurs | MergeKept

  datatype Outcome =
    | Completed(skipped: seq<Commit>)
    | WouldBeEmpty(skipped: seq<Commit>)
    | Conflicted(conflicts: nat, skipped: seq<Commit>)
    | Aborted
    | Error(problem: Problem)

  // What one call of the driver does: the repository after it, what it returns, and each command
  // it issued with the repository it met.
  datatype Call = Call(repo: Repo, outcome: Outcome, issued: seq<(Repo, Command)>)

  // The verdict on a sequencer command is read from the repository, not from the exit code.
  function Judge(r: Repo, reply: Reply): Outcome {
    if reply.TimedOut? then Error(TimeLimit)
    else if r.operation.IsActive() then
      if r.conflicts == 0 && reply.looksEmpty then WouldBeEmpty(reply.warned) else Conflicted(r.conflicts, reply.warned)
    else if !reply.ok then Error(CommandFailed)
    else Completed(reply.warned)
  }

  function RunSequencer(r: Repo, c: Command, a: Answer): Call {
    var (after, reply) := Git(r, c, a);
    Call(after, Judge(after, reply), [(r, c)])
  }

  function RebaseCall(r: Repo, branchMatches: bool, plan: seq<Commit>, upstream: set<Commit>, a: Answer): Call {
    if r.operation.IsActive() then Call(r, Error(NotQuiet), [])
    else if !branchMatches then Call(r, Error(WrongBranch), [])
    else RunSequencer(r, Start(plan, upstream, true), a)
  }

  predicate Continuable(r: Repo) { r.operation.IsSequenced() }

  // The staged tree of a conflicted index cannot be written, and counts as different.
  predicate StagedTreeEqualsHead(r: Repo) { r.conflicts == 0 && r.stagedEqualsHead }

  function ContinueCall(r: Repo, a: Answer): Call {
    if !Continuable(r) then Call(r, Error(NothingToContinue), [])
    else if r.conflicts > 0 then Call(r, Error(ConflictsLeft(r.conflicts)), [])
    else if StagedTreeEqualsHead(r) then Call(r, WouldBeEmpty([]), [])
    else RunSequencer(r, Continue, a)
  }

  function KeepEmptyCall(r: Repo, commit: Answer, a: Answer): Call {
    if !Continuable(r) then Call(r, Error(NothingToContinue), [])
    else if r.conflicts > 0 then Call(r, Error(ConflictsLeft(r.conflicts)), [])
    else if !StagedTreeEqualsHead(r) then Call(r, Error(HasChanges), [])
    else
      var (kept, reply) := Git(r, CommitEmpty, commit);
      var first := [(r, CommitEmpty)];
      if reply.TimedOut? then Call(kept, Error(TimeLimit), first)
      else if !reply.ok then Call(kept, Error(CommitFailed), first)
      else if !kept.operation.IsActive() then Call(kept, Completed([]), first)
      else
        var rest := RunSequencer(kept, Continue, a);
        rest.(issued := first + rest.issued)
  }

  function SkipCall(r: Repo, a: Answer): Call {
    if !Continuable(r) then Call(r, Error(NothingToContinue), []) else RunSequencer(r, Skip, a)
  }

  // A merge is taken back without a command of git; that can fail too.
  function AbortMergeCall(r: Repo, a: Answer): Call {
    if a.Runs? then Call(Begin(r, Abort), Aborted, []) else Call(r, Error(MergeKept), [])
  }

  function AbortCall(r: Repo, a: Answer): Call {
    if !r.operation.IsActive() then Call(r, Aborted, [])
    else if r.operation == Merge then AbortMergeCall(r, a)
    else if !Continuable(r) then Call(r, Error(NotOurs), [])
    else
      var (after, reply) := Git(r, Abort, a);
      Call(after, if reply.TimedOut? then Error(TimeLimit) else if !reply.ok then Error(CommandFailed) else Aborted,
           [(r, Abort)])
  }

  // ----- The ledger -----

  function Commits(es: seq<Entry>): (cs: seq<Commit>)
    ensures |cs| == |es| && forall k :: 0 <= k < |es| ==> cs[k] == es[k].commit
  {
    seq(|es|, k requires 0 <= k < |es| => es[k].commit)
  }

  ghost predicate NothingLost(es: seq<Entry>) { forall k :: 0 <= k < |es| ==> es[k].fate != Lost }

  // The planned commits that upstream lacks are, in order, those dealt with, the stopped one and
  // the remaining ones; none was dropped without a word.
  ghost predicate Ledger(r: Repo) {
    && (r.operation == NoOperation || r.operation == Rebase)
    && (r.operation == NoOperation ==> r.stopped == None && r.remaining == [])
    && (r.operation == Rebase ==> r.stopsAtEmpty)
    && (!r.restored ==>
          && r.applied == FilterIn(r.plan, set c | c in r.applied)
          && Commits(r.history) + StoppedList(r) + r.remaining == FilterOut(r.plan, set c | c in r.applied)
          && NothingLost(r.history))
  }

  // The driver never lets `--continue` meet a stopped commit whose staged tree equals HEAD.
  ghost predicate NeverBlind(issued: seq<(Repo, Command)>) {
    forall k :: 0 <= k < |issued| && issued[k].1.Continue? ==>
      issued[k].0.stopped.None? || !StagedTreeEqualsHead(issued[k].0)
  }

  // A step that only moves commits along the ledger.
  ghost predicate Moves(r: Repo, r': Repo, fates: set<Fate>) {
    && r'.plan == r.plan && r'.applied == r.applied && r'.restored == r.restored && r'.stopsAtEmpty == r.stopsAtEmpty
    && |r.history| <= |r'.history| && r'.history[..|r.history|] == r.history
    && (forall k :: |r.history| <= k < |r'.history| ==> r'.history[k].fate in fates)
    && Commits(r'.history) + StoppedList(r') + r'.remaining == Commits(r.history) + StoppedList(r) + r.remaining
  }

  lemma MovesCompose(r: Repo, r': Repo, r'': Repo, fates: set<Fate>)
    requires Moves(r, r', fates) && Moves(r', r'', fates)
    ensures Moves(r, r'', fates)
  {
    assert r''.history[..|r.history|] == r''.history[..|r'.history|][..|r.history|];
    forall k | |r.history| <= k < |r''.history| ensures r''.history[k].fate in fates {
      if k < |r'.history| {
        assert r''.history[k] == r''.history[..|r'.history|][k];
      }
    }
  }

  lemma MovesWider(r: Repo, r': Repo, fates: set<Fate>, more: set<Fate>)
    requires Moves(r, r', fates) && fates <= more
    ensures Moves(r, r', more)
  {
  }

  lemma MovesKeepsLedger(r: Repo, r': Repo, fates: set<Fate>)
    requires Ledger(r) && Moves(r, r', fates) && Lost !in fates
    requires r'.operation == NoOperation || r'.operation == Rebase
    requires r'.operation == NoOperation ==> r'.stopped == None && r'.remaining == []
    requires r'.operation == Rebase ==> r'.stopsAtEmpty
    ensures Ledger(r')
  {
    forall k | 0 <= k < |r'.history| && !r'.restored ensures r'.history[k].fate != Lost {
      if k < |r.history| {
        assert r'.history[k] == r'.history[..|r.history|][k];
      }
    }
  }

  lemma PickSomeMoves(r: Repo, n: nat, empties: set<Commit>)
    requires r.stopped == None && n <= |r.remaining| && forall j :: 0 <= j < n ==> r.remaining[j] !in empties
    ensures Moves(r, PickSome(r, n, empties), {Replayed})
    ensures PickSome(r, n, empties).operation == r.operation && PickSome(r, n, empties).stopped == None
  {
    hide Commits;
    CommitsJoin(r.history, r.remaining[..n], empties);
    CutRejoins(Commits(r.history), r.remaining, n);
  }

  lemma CommitsJoin(es: seq<Entry>, cs: seq<Commit>, empties: set<Commit>)
    ensures Commits(es + Picked(cs, empties)) == Commits(es) + cs
  {
  }

  lemma CutRejoins(a: seq<Commit>, b: seq<Commit>, n: nat)
    requires n <= |b|
    ensures a + b[..n] + [] + b[n..] == a + [] + b
  {
  }

  lemma StopAtMoves(r: Repo, stop: Stop)
    requires r.stopped == None && r.remaining != []
    ensures Moves(r, StopAt(r, stop), {Replayed}) && StopAt(r, stop).operation == r.operation
  {
    assert r.remaining == [r.remaining[0]] + r.remaining[1..];
  }

  lemma PickMoves(r: Repo, n: nat, empties: set<Commit>, stop: Stop)
    requires r.stopped == None && r.operation == Rebase && r.stopsAtEmpty
    ensures var r' := Pick(r, n, empties, stop).0;
      && Moves(r, r', {Replayed})
      && (r'.operation == NoOperation || r'.operation == Rebase)
      && (r'.operation == NoOperation ==> r'.stopped == None && r'.remaining == [])
  {
    var m := Wanted(r, n, stop.Finish?);
    var k := Reach(r, m, empties);
    PickSomeMoves(r, k, empties);
    var picked := PickSome(r, k, empties);
    hide PickSome, PicksBefore;
    if picked.remaining != [] {
      var why := if k < m then AtEmpty else stop;
      StopAtMoves(picked, why);
      MovesCompose(r, picked, StopAt(picked, why), {Replayed});
    }
  }

  lemma PickKilledMoves(r: Repo, n: nat, empties: set<Commit>, midway: Option<Stop>)
    requires r.stopped == None && r.operation == Rebase && r.stopsAtEmpty
    ensures var r' := PickKilled(r, n, empties, midway); Moves(r, r', {Replayed}) && r'.operation == Rebase
  {
    var m := Wanted(r, n, false);
    var k := Reach(r, m, empties);
    PickSomeMoves(r, k, empties);
    var picked := PickSome(r, k, empties);
    hide PickSome, PicksBefore;
    if picked.remaining != [] && midway.Some? {
      var why := if k < m then AtEmpty else midway.value;
      StopAtMoves(picked, why);
      MovesCompose(r, picked, StopAt(picked, why), {Replayed});
    }
  }

  // The first effect settles the stopped commit.
  ghost function FateOf(r: Repo, c: Command): Fate
    requires c.Continue? || c.Skip? || c.CommitEmpty?
  {
    match c
    case Skip => SkippedByUser
    case Continue => if r.stagedEqualsHead then Lost else Replayed
    case CommitEmpty => if r.stagedEqualsHead then KeptEmpty else Replayed
  }

  lemma BeginMoves(r: Repo, c: Command)
    requires r.operation == Rebase
    requires c.Continue? || c.Skip? || c.CommitEmpty?
    ensures var r' := Begin(r, c);
      && Moves(r, r', if r.stopped.Some? then {FateOf(r, c)} else {})
      && r'.stopped == None && r'.operation == r.operation
  {
    var r' := Begin(r, c);
    assert Commits(r'.history) == Commits(r.history) + StoppedList(r);
    assert Commits(r.history) + StoppedList(r) + [] == Commits(r.history) + StoppedList(r);
  }

  // What a command that goes on with a rebase may do to the commits.
  ghost function FatesOf(r: Repo, c: Command): set<Fate>
    requires c.Continue? || c.Skip? || c.CommitEmpty?
  {
    (if r.stopped.Some? then {FateOf(r, c)} else {}) + (if c.CommitEmpty? then {} else {Replayed})
  }

  lemma GitMoves(r: Repo, c: Command, a: Answer)
    requires c.Continue? || c.Skip? || c.CommitEmpty?
    requires r.operation == Rebase && r.stopsAtEmpty
    ensures var r' := Git(r, c, a).0;
      && Moves(r, r', FatesOf(r, c))
      && (r'.operation == NoOperation || r'.operation == Rebase)
      && (r'.operation == NoOperation ==> r'.stopped == None && r'.remaining == [])
  {
    hide Pick, PickKilled, Begin;
    BeginMoves(r, c);
    var begun := Begin(r, c);
    var fates := FatesOf(r, c);
    MovesWider(r, begun, if r.stopped.Some? then {FateOf(r, c)} else {}, fates);
    if !WillRefuse(r, c) && PicksAfter(c) {
      if a.Runs? {
        PickMoves(begun, a.n, a.empties, a.stop);
        MovesWider(begun, Pick(begun, a.n, a.empties, a.stop).0, {Replayed}, fates);
        MovesCompose(r, begun, Pick(begun, a.n, a.empties, a.stop).0, fates);
      } else if a.Killed? {
        PickKilledMoves(begun, a.n, a.empties, a.midway);
        MovesWider(begun, PickKilled(begun, a.n, a.empties, a.midway), {Replayed}, fates);
        MovesCompose(r, begun, PickKilled(begun, a.n, a.empties, a.midway), fates);
      }
    }
  }

  lemma {:induction false} FiltersAgree(plan: seq<Commit>, s: set<Commit>, t: set<Commit>)
    requires forall c :: c in plan ==> (c in s <==> c in t)
    ensures FilterIn(plan, s) == FilterIn(plan, t) && FilterOut(plan, s) == FilterOut(plan, t)
  {
    if plan != [] {
      FiltersAgree(plan[1..], s, t);
    }
  }

  lemma {:induction false} FilterInMembers(plan: seq<Commit>, s: set<Commit>)
    ensures forall c :: c in FilterIn(plan, s) <==> c in plan && c in s
  {
    if plan != [] {
      FilterInMembers(plan[1..], s);
      assert forall c :: c in plan <==> c == plan[0] || c in plan[1..];
    }
  }

  // A rebase that starts opens a ledger.
  lemma StartOpensLedger(r: Repo, plan: seq<Commit>, upstream: set<Commit>)
    ensures Ledger(Begin(r, Start(plan, upstream, true)))
  {
    hide FilterIn, FilterOut, Commits;
    var b := Begin(r, Start(plan, upstream, true));
    FilterInMembers(plan, upstream);
    FiltersAgree(plan, upstream, set c | c in b.applied);
    NothingSettled(b.remaining);
  }

  lemma NothingSettled(cs: seq<Commit>)
    ensures Commits([]) + [] + cs == cs
  {
  }

  lemma StartKeepsLedger(r: Repo, plan: seq<Commit>, upstream: set<Commit>, a: Answer)
    requires Ledger(r) && !r.operation.IsActive()
    ensures Ledger(Git(r, Start(plan, upstream, true), a).0)
  {
    hide Pick, PickKilled;
    StartOpensLedger(r, plan, upstream);
    var begun := Begin(r, Start(plan, upstream, true));
    hide Ledger, FilterIn, FilterOut;
    if a.Runs? {
      PickMoves(begun, a.n, a.empties, a.stop);
      MovesKeepsLedger(begun, Pick(begun, a.n, a.empties, a.stop).0, {Replayed});
    } else if a.Killed? && a.begun {
      PickKilledMoves(begun, a.n, a.empties, a.midway);
      MovesKeepsLedger(begun, PickKilled(begun, a.n, a.empties, a.midway), {Replayed});
    }
  }

  // ----- The calls -----

  lemma ContinueKeepsLedger(r: Repo, a: Answer)
    requires Ledger(r)
    ensures Ledger(ContinueCall(r, a).repo) && NeverBlind(ContinueCall(r, a).issued)
    ensures Moves(r, ContinueCall(r, a).repo, {Replayed})
  {
    hide Git;
    assert Moves(r, r, {Replayed});
    if Continuable(r) && r.conflicts == 0 && !StagedTreeEqualsHead(r) {
      GitMoves(r, Continue, a);
      hide Ledger, Moves;
      MovesWider(r, Git(r, Continue, a).0, FatesOf(r, Continue), {Replayed});
      MovesKeepsLedger(r, Git(r, Continue, a).0, {Replayed});
    }
  }

  lemma KeepEmptyKeepsLedger(r: Repo, commit: Answer, a: Answer)
    requires Ledger(r)
    ensures var call := KeepEmptyCall(r, commit, a);
      Ledger(call.repo) && NeverBlind(call.issued) && Moves(r, call.repo, {KeptEmpty, Replayed})
  {
    hide Git;
    assert Moves(r, r, {KeptEmpty, Replayed});
    if Continuable(r) && r.conflicts == 0 && StagedTreeEqualsHead(r) {
      var (kept, reply) := Git(r, CommitEmpty, commit);
      GitMoves(r, CommitEmpty, commit);
      CommitSettles(r, commit);
      hide Ledger, Moves;
      MovesWider(r, kept, FatesOf(r, CommitEmpty), {KeptEmpty, Replayed});
      MovesKeepsLedger(r, kept, {KeptEmpty, Replayed});
      if !reply.TimedOut? && reply.ok && kept.operation.IsActive() {
        GitMoves(kept, Continue, a);
        MovesWider(kept, Git(kept, Continue, a).0, FatesOf(kept, Continue), {KeptEmpty, Replayed});
        MovesKeepsLedger(kept, Git(kept, Continue, a).0, {KeptEmpty, Replayed});
        MovesCompose(r, kept, Git(kept, Continue, a).0, {KeptEmpty, Replayed});
      }
    }
  }

  lemma CommitSettles(r: Repo, commit: Answer)
    ensures Git(r, CommitEmpty, commit).1.Reply? && Git(r, CommitEmpty, commit).1.ok ==>
      Git(r, CommitEmpty, commit).0.stopped == None
  {
  }

  lemma SkipKeepsLedger(r: Repo, a: Answer)
    requires Ledger(r)
    ensures var call := SkipCall(r, a);
      Ledger(call.repo) && NeverBlind(call.issued) && Moves(r, call.repo, {SkippedByUser, Replayed})
  {
    hide Git;
    assert Moves(r, r, {SkippedByUser, Replayed});
    if Continuable(r) {
      GitMoves(r, Skip, a);
      hide Ledger, Moves;
      MovesWider(r, Git(r, Skip, a).0, FatesOf(r, Skip), {SkippedByUser, Replayed});
      MovesKeepsLedger(r, Git(r, Skip, a).0, {SkippedByUser, Replayed});
    }
  }

  // ----- Whole runs -----

  // What can happen, in any order: the driver's calls, with any answers of git, and the user
  // working on the index while a rebase is stopped.
  datatype Act =
    | CallRebase(branchMatches: bool, plan: seq<Commit>, upstream: set<Commit>, answer: Answer)
    | UserWorks(conflicts: nat, staged: bool)
    | CallContinue(answer: Answer)
    | CallKeepEmpty(commit: Answer, answer: Answer)
    | CallSkip(answer: Answer)
    | CallAbort(answer: Answer)

  function Perform(r: Repo, act: Act): Call {
    match act
    case CallRebase(branchMatches, plan, upstream, a) => RebaseCall(r, branchMatches, plan, upstream, a)
    case UserWorks(conflicts, staged) =>
      Call(if r.operation.IsActive() then r.(conflicts := conflicts, stagedEqualsHead := staged) else r, Aborted, [])
    case CallContinue(a) => ContinueCall(r, a)
    case CallKeepEmpty(commit, a) => KeepEmptyCall(r, commit, a)
    case CallSkip(a) => SkipCall(r, a)
    case CallAbort(a) => AbortCall(r, a)
  }

  // The repository after the acts, and every command issued on the way.
  function Run(r: Repo, acts: seq<Act>): (Repo, seq<(Repo, Command)>)
    decreases |acts|
  {
    if acts == [] then (r, [])
    else
      var call := Perform(r, acts[0]);
      var rest := Run(call.repo, acts[1..]);
      (rest.0, call.issued + rest.1)
  }

  lemma AbortKeepsLedger(r: Repo, a: Answer)
    requires Ledger(r)
    ensures Ledger(AbortCall(r, a).repo) && NeverBlind(AbortCall(r, a).issued)
  {
  }

  lemma PerformKeepsLedger(r: Repo, act: Act)
    requires Ledger(r)
    ensures Ledger(Perform(r, act).repo) && NeverBlind(Perform(r, act).issued)
  {
    hide Git, RunSequencer, ContinueCall, KeepEmptyCall, SkipCall, AbortCall, Moves;
    match act {
      case CallRebase(branchMatches, plan, upstream, a) => RebaseKeepsLedger(r, branchMatches, plan, upstream, a);
      case UserWorks(_, _) =>
      case CallContinue(a) => ContinueKeepsLedger(r, a);
      case CallKeepEmpty(commit, a) => KeepEmptyKeepsLedger(r, commit, a);
      case CallSkip(a) => SkipKeepsLedger(r, a);
      case CallAbort(a) => AbortKeepsLedger(r, a);
    }
  }

  lemma RebaseKeepsLedger(r: Repo, branchMatches: bool, plan: seq<Commit>, upstream: set<Commit>, a: Answer)
    requires Ledger(r)
    ensures var call := RebaseCall(r, branchMatches, plan, upstream, a); Ledger(call.repo) && NeverBlind(call.issued)
  {
    hide Git, Ledger;
    if !r.operation.IsActive() {
      StartKeepsLedger(r, plan, upstream, a);
    }
  }

  // Main result. In every run, whatever git answers and the user stages, no planned commit
  // disappears, and `--continue` is never issued where git would drop one.
  lemma {:induction false} NoCommitIsLost(r: Repo, acts: seq<Act>)
    requires Ledger(r)
    ensures Ledger(Run(r, acts).0) && NeverBlind(Run(r, acts).1)
    decreases |acts|
  {
    hide Ledger, Perform;
    if acts != [] {
      PerformKeepsLedger(r, acts[0]);
      NoCommitIsLost(Perform(r, acts[0]).repo, acts[1..]);
    }
  }

  // ----- The driver as an object -----

  // What a call of the object did to the commits, if they were accounted for before: they still
  // are, what was settled stays, new fates are among these, and no continue command was blind.
  ghost predicate Safe(before: Repo, after: Repo, issued: seq<(Repo, Command)>, fates: set<Fate>) {
    Ledger(before) ==> Ledger(after) && Moves(before, after, fates) && NeverBlind(issued)
  }

  // The commit that was stopped has this fate now, right after what was settled before.
  ghost predicate Settled(before: Repo, after: Repo, fate: Fate) {
    && before.stopped.Some? && |before.history| < |after.history|
    && after.history[|before.history|] == Entry(before.stopped.value, fate)
  }

  // `repo` is what the object finds and leaves behind, `issued` the commands it gave to git.
  class LocalEngine {
    var repo: Repo
    ghost var issued: seq<(Repo, Command)>

    constructor (r: Repo)
      ensures repo == r && issued == []
    {
      repo, issued := r, [];
    }

    method RunGit(c: Command, a: Answer) returns (reply: Reply)
      modifies this
      ensures (repo, reply) == Git(old(repo), c, a) && issued == old(issued) + [(old(repo), c)]
    {
      var (after, answer) := Git(repo, c, a);
      issued := issued + [(repo, c)];
      repo := after;
      return answer;
    }

    // The outcome follows the repository, whatever exit code git gave.
    method Sequence(c: Command, a: Answer) returns (o: Outcome)
      modifies this
      ensures Answers(old(issued), RunSequencer(old(repo), c, a), o)
      ensures o != Error(TimeLimit) ==>
        && (repo.operation.IsActive() <==> o.Conflicted? || o.WouldBeEmpty?)
        && (o.Conflicted? ==> o.conflicts == repo.conflicts)
        && (o.WouldBeEmpty? ==> repo.conflicts == 0)
    {
      var reply := RunGit(c, a);
      if reply.TimedOut? {
        return Error(TimeLimit);
      }
      if repo.operation.IsActive() {
        if repo.conflicts == 0 && reply.looksEmpty {
          return WouldBeEmpty(reply.warned);
        }
        return Conflicted(repo.conflicts, reply.warned);
      }
      if !reply.ok {
        return Error(CommandFailed);
      }
      return Completed(reply.warned);
    }

    // A rebase never starts over another operation, nor without the option that stops git at
    // commits that become empty; its plan is accounted for from the start.
    method RebaseOnto(branchMatches: bool, plan: seq<Commit>, upstream: set<Commit>, a: Answer) returns (o: Outcome)
      modifies this
      ensures Answers(old(issued), RebaseCall(old(repo), branchMatches, plan, upstream, a), o)
      ensures !old(repo).operation.IsActive() && branchMatches ==>
        issued == old(issued) + [(old(repo), Start(plan, upstream, true))]
      ensures old(repo).operation.IsActive() || !branchMatches ==> repo == old(repo) && issued == old(issued) && o.Error?
      ensures Ledger(old(repo)) ==> Ledger(repo) && NeverBlind(issued[|old(issued)|..])
      ensures forall k :: |old(issued)| <= k < |issued| ==> issued[k].1.Start? && issued[k].1.stopAtEmpty
      ensures o.Completed? ==> repo.stopped == None && repo.remaining == [] && repo.applied == o.skipped
    {
      hide Git, FilterIn, FilterOut;
      StartCompletes(repo, plan, upstream, a);
      if Ledger(repo) {
        RebaseKeepsLedger(repo, branchMatches, plan, upstream, a);
      }
      if repo.operation.IsActive() {
        return Error(NotQuiet);
      }
      if !branchMatches {
        return Error(WrongBranch);
      }
      o := Sequence(Start(plan, upstream, true), a);
    }

    // Nothing is done while conflicts are left or the stopped commit would be dropped; otherwise
    // the stopped commit and those picked after it are replayed.
    method ContinueOperation(a: Answer) returns (o: Outcome)
      modifies this
      ensures Answers(old(issued), ContinueCall(old(repo), a), o)
      ensures old(repo).operation.IsSequenced() && old(repo).conflicts == 0 && !old(repo).stagedEqualsHead ==>
        issued == old(issued) + [(old(repo), Continue)]
      ensures old(repo).conflicts > 0 || StagedTreeEqualsHead(old(repo)) ==> repo == old(repo) && issued == old(issued)
      ensures Safe(old(repo), repo, issued[|old(issued)|..], {Replayed})
      ensures Ledger(old(repo)) && old(repo).stopped.Some? && issued != old(issued) && a.Runs? ==>
        Settled(old(repo), repo, Replayed)
    {
      hide Git;
      if Ledger(repo) {
        ContinueKeepsLedger(repo, a);
        ContinueSettles(repo, a);
      }
      if !Continuable(repo) {
        return Error(NothingToContinue);
      }
      if repo.conflicts > 0 {
        return Error(ConflictsLeft(repo.conflicts));
      }
      if StagedTreeEqualsHead(repo) {
        return WouldBeEmpty([]);
      }
      o := Sequence(Continue, a);
    }

    // The stopped commit is kept as an empty one when git commits, and lost in no case. A
    // cherry-pick or a revert is over with that commit, and no other command follows.
    method KeepEmptyOperation(commit: Answer, a: Answer) returns (o: Outcome)
      modifies this
      ensures Answers(old(issued), KeepEmptyCall(old(repo), commit, a), o)
      ensures old(repo).operation.IsSequenced() && old(repo).conflicts == 0 && old(repo).stagedEqualsHead ==>
        |issued| > |old(issued)| && issued[|old(issued)|] == (old(repo), CommitEmpty)
      ensures !StagedTreeEqualsHead(old(repo)) ==> repo == old(repo) && issued == old(issued) && o.Error?
      ensures Safe(old(repo), repo, issued[|old(issued)|..], {KeptEmpty, Replayed})
      ensures Ledger(old(repo)) && old(repo).stopped.Some? && issued != old(issued) && commit.Runs? ==>
        Settled(old(repo), repo, KeptEmpty)
      ensures old(repo).operation.IsSinglePick() ==> (o.Completed? || o.Error?) && |issued| <= |old(issued)| + 1
      ensures old(repo).operation.IsSinglePick() && o.Completed? ==> !repo.operation.IsActive()
    {
      hide Git, NeverBlind, Moves, Settled, Commits, NothingLost;
      if repo.operation.IsSinglePick() {
        SinglePickEnds(repo, commit, a);
      }
      if Ledger(repo) {
        KeepEmptyKeepsLedger(repo, commit, a);
        KeepEmptySettles(repo, commit, a);
      }
      if !Continuable(repo) {
        return Error(NothingToContinue);
      }
      if repo.conflicts > 0 {
        return Error(ConflictsLeft(repo.conflicts));
      }
      if !StagedTreeEqualsHead(repo) {
        return Error(HasChanges);
      }
      var reply := RunGit(CommitEmpty, commit);
      if reply.TimedOut? {
        return Error(TimeLimit);
      }
      if !reply.ok {
        return Error(CommitFailed);
      }
      if !repo.operation.IsActive() {
        return Completed([]);
      }
      o := Sequence(Continue, a);
    }

    // The stopped commit is skipped, and no other one.
    method SkipOperation(a: Answer) returns (o: Outcome)
      modifies this
      ensures Answers(old(issued), SkipCall(old(repo), a), o)
      ensures old(repo).operation.IsSequenced() ==> issued == old(issued) + [(old(repo), Skip)]
      ensures Safe(old(repo), repo, issued[|old(issued)|..], {SkippedByUser, Replayed})
      ensures Ledger(old(repo)) ==> forall k :: |old(repo).history| < k < |repo.history| ==>
        repo.history[k].fate == Replayed
      ensures Ledger(old(repo)) && old(repo).stopped.Some? && a.Runs? ==> Settled(old(repo), repo, SkippedByUser)
    {
      hide Git;
      if Ledger(repo) {
        SkipKeepsLedger(repo, a);
        SkipSettles(repo, a);
      }
      if !Continuable(repo) {
        return Error(NothingToContinue);
      }
      o := Sequence(Skip, a);
    }

    method AbortMerge(a: Answer) returns (o: Outcome)
      modifies this`repo
      ensures repo == AbortMergeCall(old(repo), a).repo && o == AbortMergeCall(old(repo), a).outcome
    {
      if !a.Runs? {
        return Error(MergeKept);
      }
      repo := Begin(repo, Abort);
      return Aborted;
    }

    // A reported abort leaves nothing in progress, and nothing but a reported abort, or one that
    // was killed, changes anything.
    method AbortOperation(a: Answer) returns (o: Outcome)
      modifies this
      ensures Answers(old(issued), AbortCall(old(repo), a), o)
      ensures old(repo).operation.IsSequenced() ==> issued == old(issued) + [(old(repo), Abort)]
      ensures o == Aborted ==> !repo.operation.IsActive()
      ensures o == Aborted && old(repo).operation.IsActive() ==> repo.restored
      ensures o != Aborted && o != Error(TimeLimit) ==> repo == old(repo)
      ensures a.Runs? ==> (o == Aborted <==> old(repo).operation != Other)
      ensures Ledger(old(repo)) ==> Ledger(repo) && NeverBlind(issued[|old(issued)|..])
    {
      if !repo.operation.IsActive() {
        return Aborted;
      }
      if repo.operation == Merge {
        o := AbortMerge(a);
        return;
      }
      if !Continuable(repo) {
        return Error(NotOurs);
      }
      var reply := RunGit(Abort, a);
      if reply.TimedOut? {
        return Error(TimeLimit);
      }
      if !reply.ok {
        return Error(CommandFailed);
      }
      return Aborted;
    }

    // The object has done what the call says.
    ghost predicate Answers(was: seq<(Repo, Command)>, call: Call, o: Outcome)
      reads this
    {
      repo == call.repo && o == call.outcome && issued == was + call.issued
    }
  }

  // One act: a call on the object, or the user at work on the index.
  method DoAct(engine: LocalEngine, act: Act)
    modifies engine
    ensures engine.repo == Perform(old(engine.repo), act).repo
    ensures engine.issued == old(engine.issued) + Perform(old(engine.repo), act).issued
  {
    hide Safe, Settled, Ledger, NeverBlind, RebaseCall, ContinueCall, KeepEmptyCall, SkipCall, AbortCall;
    var o: Outcome;
    match act {
      case CallRebase(branchMatches, plan, upstream, a) => o := engine.RebaseOnto(branchMatches, plan, upstream, a);
      case UserWorks(conflicts, staged) =>
        if engine.repo.operation.IsActive() {
          engine.repo := engine.repo.(conflicts := conflicts, stagedEqualsHead := staged);
        }
      case CallContinue(a) => o := engine.ContinueOperation(a);
      case CallKeepEmpty(commit, a) => o := engine.KeepEmptyOperation(commit, a);
      case CallSkip(a) => o := engine.SkipOperation(a);
      case CallAbort(a) => o := engine.AbortOperation(a);
    }
  }

  // Whatever calls are made on the object, and whatever the user does in between, its repository
  // and its commands are those of the run, so all that holds in every run holds of the object.
  method Drive(engine: LocalEngine, acts: seq<Act>)
    modifies engine
    ensures engine.repo == Run(old(engine.repo), acts).0
    ensures engine.issued == old(engine.issued) + Run(old(engine.repo), acts).1
    ensures Ledger(old(engine.repo)) ==> Ledger(engine.repo) && NeverBlind(engine.issued[|old(engine.issued)|..])
    decreases |acts|
  {
    hide Ledger, NeverBlind, Perform;
    if Ledger(engine.repo) {
      NoCommitIsLost(engine.repo, acts);
    }
    if acts == [] {
      assert engine.issued + [] == engine.issued;
      return;
    }
    DoAct(engine, acts[0]);
    Drive(engine, acts[1..]);
  }

  lemma StartCompletes(r: Repo, plan: seq<Commit>, upstream: set<Commit>, a: Answer)
    ensures var call := RunSequencer(r, Start(plan, upstream, true), a);
      !r.operation.IsActive() && call.outcome.Completed? ==>
        call.repo.stopped == None && call.repo.remaining == [] && call.repo.applied == call.outcome.skipped
  {
    hide FilterIn, FilterOut, Picked;
    var begun := Begin(r, Start(plan, upstream, true));
    if a.Runs? && !r.operation.IsActive() {
      PickMoves(begun, a.n, a.empties, a.stop);
    }
  }

  // What is settled first stays first.
  lemma MovesKeepSettled(before: Repo, begun: Repo, after: Repo, fate: Fate)
    requires Settled(before, begun, fate) && |begun.history| <= |after.history|
    requires after.history[..|begun.history|] == begun.history
    ensures Settled(before, after, fate)
  {
    assert after.history[|before.history|] == after.history[..|begun.history|][|before.history|];
  }

  lemma BeginSettles(r: Repo, c: Command, a: Answer, fate: Fate)
    requires Ledger(r) && r.operation == Rebase && r.stopped.Some? && a.Runs? && !WillRefuse(r, c)
    requires c.Continue? || c.Skip? || c.CommitEmpty?
    requires fate == FateOf(r, c)
    ensures Settled(r, Git(r, c, a).0, fate)
    ensures c.Skip? ==> forall k :: |r.history| < k < |Git(r, c, a).0.history| ==> Git(r, c, a).0.history[k].fate == Replayed
  {
    hide Ledger, Pick;
    LedgerStopsAtEmpty(r);
    var begun := Begin(r, c);
    assert Settled(r, begun, fate);
    if PicksAfter(c) {
      PickMoves(begun, a.n, a.empties, a.stop);
      MovesKeepSettled(r, begun, Pick(begun, a.n, a.empties, a.stop).0, fate);
    }
  }

  lemma ContinueSettles(r: Repo, a: Answer)
    requires Ledger(r)
    ensures r.stopped.Some? && ContinueCall(r, a).issued != [] && a.Runs? ==> Settled(r, ContinueCall(r, a).repo, Replayed)
  {
    hide Git;
    if r.stopped.Some? && ContinueCall(r, a).issued != [] && a.Runs? {
      BeginSettles(r, Continue, a, Replayed);
    }
  }

  lemma KeepEmptySettles(r: Repo, commit: Answer, a: Answer)
    requires Ledger(r)
    ensures r.stopped.Some? && KeepEmptyCall(r, commit, a).issued != [] && commit.Runs? ==>
      Settled(r, KeepEmptyCall(r, commit, a).repo, KeptEmpty)
  {
    hide Git, Moves;
    if r.stopped.Some? && KeepEmptyCall(r, commit, a).issued != [] && commit.Runs? {
      BeginSettles(r, CommitEmpty, commit, KeptEmpty);
      KeptThenContinued(r, commit, a);
    }
  }

  lemma KeptThenContinued(r: Repo, commit: Answer, a: Answer)
    requires Ledger(r) && r.operation == Rebase && Settled(r, Git(r, CommitEmpty, commit).0, KeptEmpty)
    ensures Settled(r, KeepEmptyCall(r, commit, a).repo, KeptEmpty) || KeepEmptyCall(r, commit, a).issued == []
  {
    var kept := Git(r, CommitEmpty, commit).0;
    GitMoves(r, CommitEmpty, commit);
    hide Git;
    if kept.operation == Rebase {
      GitMoves(kept, Continue, a);
      MovesKeepSettled(r, kept, Git(kept, Continue, a).0, KeptEmpty);
    }
  }

  lemma SkipSettles(r: Repo, a: Answer)
    requires Ledger(r)
    ensures r.stopped.Some? && a.Runs? ==> Settled(r, SkipCall(r, a).repo, SkippedByUser)
    ensures forall k :: |r.history| < k < |SkipCall(r, a).repo.history| ==> SkipCall(r, a).repo.history[k].fate == Replayed
  {
    SkipKeepsLedger(r, a);
    LedgerStopsAtEmpty(r);
    SkipSkipsTheStopped(r, a);
    if r.stopped.Some? && a.Runs? {
      BeginSettles(r, Skip, a, SkippedByUser);
    }
    hide Git;
  }

  // ----- What the ledger means -----

  function WithFate(es: seq<Entry>, fate: Fate): seq<Commit> {
    if es == [] then []
    else WithFate(es[..|es| - 1], fate) + if es[|es| - 1].fate == fate then [es[|es| - 1].commit] else []
  }

  lemma {:induction false} FatesPartition(es: seq<Entry>)
    ensures multiset(Commits(es)) == multiset(WithFate(es, Replayed)) + multiset(WithFate(es, KeptEmpty))
                                     + multiset(WithFate(es, SkippedByUser)) + multiset(WithFate(es, Lost))
  {
    hide WithFate;
    if es == [] {
      NoFates();
    } else {
      var init, last := es[..|es| - 1], es[|es| - 1];
      FatesPartition(init);
      assert Commits(es) == Commits(init) + [last.commit];
      FateCounts(es, Replayed);
      FateCounts(es, KeptEmpty);
      FateCounts(es, SkippedByUser);
      FateCounts(es, Lost);
    }
  }

  lemma NoFates()
    ensures forall fate :: WithFate([], fate) == []
  {
  }

  lemma FateCounts(es: seq<Entry>, fate: Fate)
    requires es != []
    ensures var init, last := es[..|es| - 1], es[|es| - 1];
      multiset(WithFate(es, fate))
      == multiset(WithFate(init, fate)) + if last.fate == fate then multiset{last.commit} else multiset{}
  {
  }

  lemma {:induction false} NoneLost(es: seq<Entry>)
    requires NothingLost(es)
    ensures WithFate(es, Lost) == []
  {
    if es != [] {
      NoneLost(es[..|es| - 1]);
    }
  }

  lemma {:induction false} FiltersPartition(plan: seq<Commit>, s: set<Commit>)
    ensures multiset(plan) == multiset(FilterIn(plan, s)) + multiset(FilterOut(plan, s))
  {
    if plan != [] {
      FiltersPartition(plan[1..], s);
      assert plan == [plan[0]] + plan[1..];
    }
  }

  // The plan is the disjoint union of what was replayed, kept as an empty commit, reported as
  // applied already, skipped by the user, stopped and remaining.
  lemma LedgerIsAPartition(r: Repo)
    requires Ledger(r) && !r.restored
    ensures multiset(r.plan)
         == multiset(r.applied)
            + (multiset(WithFate(r.history, Replayed)) + multiset(WithFate(r.history, KeptEmpty))
               + multiset(WithFate(r.history, SkippedByUser)))
            + multiset(StoppedList(r)) + multiset(r.remaining)
  {
    hide FilterIn, FilterOut, WithFate, Commits, StoppedList, NothingLost;
    FiltersPartition(r.plan, set c | c in r.applied);
    FatesPartition(r.history);
    NoneLost(r.history);
    ThreeParts(Commits(r.history), StoppedList(r), r.remaining);
  }

  lemma ThreeParts(a: seq<Commit>, b: seq<Commit>, c: seq<Commit>)
    ensures multiset(a + b + c) == multiset(a) + multiset(b) + multiset(c)
  {
  }

  lemma QuietHasALedger()
    ensures Ledger(QUIET)
  {
  }

  // So in every run from a repository at rest, to its end, the plan of the last rebase that was
  // not aborted is accounted for.
  lemma EveryPlanIsAccountedFor(acts: seq<Act>)
    ensures var (r, issued) := Run(QUIET, acts);
      && NeverBlind(issued)
      && (!r.restored ==>
            multiset(r.plan)
            == multiset(r.applied)
               + (multiset(WithFate(r.history, Replayed)) + multiset(WithFate(r.history, KeptEmpty))
                  + multiset(WithFate(r.history, SkippedByUser)))
               + multiset(StoppedList(r)) + multiset(r.remaining))
  {
    hide Run, Ledger, NeverBlind, WithFate;
    QuietHasALedger();
    NoCommitIsLost(QUIET, acts);
    if !Run(QUIET, acts).0.restored {
      LedgerIsAPartition(Run(QUIET, acts).0);
    }
  }

  // A call that reports completion leaves nothing stopped and nothing remaining.
  lemma CompletedIsComplete(r: Repo, act: Act)
    requires Ledger(r) && Perform(r, act).outcome.Completed?
    ensures Perform(r, act).repo.stopped == None && Perform(r, act).repo.remaining == []
  {
    PerformKeepsLedger(r, act);
    hide Git, NeverBlind;
  }

  // Only the user's skip skips, and it skips no other commit than the stopped one.
  lemma OnlySkipSkips(r: Repo, act: Act)
    requires Ledger(r) && !act.CallRebase? && !act.CallAbort?
    ensures var after := Perform(r, act).repo;
      && |r.history| <= |after.history| && after.history[..|r.history|] == r.history
      && (forall k :: |r.history| <= k < |after.history| && after.history[k].fate == SkippedByUser ==>
            act.CallSkip? && k == |r.history| && r.stopped == Some(after.history[k].commit))
  {
    hide Git, Ledger;
    match act {
      case CallRebase(_, _, _, _) =>
      case UserWorks(_, _) =>
      case CallContinue(a) => ContinueKeepsLedger(r, a);
      case CallKeepEmpty(commit, a) => KeepEmptyKeepsLedger(r, commit, a);
      case CallSkip(a) =>
        LedgerStopsAtEmpty(r);
        SkipSkipsTheStopped(r, a);
      case CallAbort(_) =>
    }
  }

  lemma LedgerStopsAtEmpty(r: Repo)
    requires Ledger(r)
    ensures r.operation == NoOperation || (r.operation == Rebase && r.stopsAtEmpty)
  {
  }

  lemma SkipSkipsTheStopped(r: Repo, a: Answer)
    requires r.operation == NoOperation || (r.operation == Rebase && r.stopsAtEmpty)
    ensures var after := SkipCall(r, a).repo;
      && |r.history| <= |after.history| && after.history[..|r.history|] == r.history
      && (forall k :: |r.history| <= k < |after.history| && after.history[k].fate == SkippedByUser ==>
            k == |r.history| && r.stopped == Some(after.history[k].commit))
  {
    hide Pick, PickKilled;
    if Continuable(r) && r.operation == Rebase {
      var begun := Begin(r, Skip);
      if a.Runs? {
        PickMoves(begun, a.n, a.empties, a.stop);
        SkipEntries(r, begun, Pick(begun, a.n, a.empties, a.stop).0);
      } else if a.Killed? && a.begun {
        PickKilledMoves(begun, a.n, a.empties, a.midway);
        SkipEntries(r, begun, PickKilled(begun, a.n, a.empties, a.midway));
      }
    }
  }

  lemma SkipEntries(r: Repo, begun: Repo, after: Repo)
    requires begun == Begin(r, Skip) && Moves(begun, after, {Replayed})
    ensures |r.history| <= |after.history| && after.history[..|r.history|] == r.history
    ensures forall k :: |r.history| <= k < |after.history| && after.history[k].fate == SkippedByUser ==>
      k == |r.history| && r.stopped == Some(after.history[k].commit)
  {
    assert after.history[..|r.history|] == after.history[..|begun.history|][..|r.history|];
    forall k | |r.history| <= k < |after.history| && after.history[k].fate == SkippedByUser
      ensures k == |r.history| && r.stopped == Some(after.history[k].commit)
    {
      assert k < |begun.history|;
      assert after.history[k] == after.history[..|begun.history|][k];
    }
  }

  // ----- Progress -----

  lemma {:induction false} NothingInTheWay(cs: seq<Commit>, n: nat)
    requires n <= |cs|
    ensures PicksBefore(cs, {}, n) == n
  {
    if n > 0 {
      NothingInTheWay(cs[1..], n - 1);
    }
  }

  // Git picks all that is left.
  lemma PickFinishes(r: Repo, n: nat)
    requires r.operation == Rebase || r.operation.IsSinglePick()
    ensures var after := Pick(r, n, {}, Finish).0;
      && !after.operation.IsActive() && after.remaining == [] && after.stopped == None
      && after.history == r.history + Entries(r.remaining, Replayed) && after.applied == r.applied
  {
    NothingInTheWay(r.remaining, |r.remaining|);
    hide PicksBefore;
    assert r.remaining[..|r.remaining|] == r.remaining;
    assert Picked(r.remaining, {}) == Entries(r.remaining, Replayed);
  }

  // Git picks n commits and stops at the next one.
  lemma PickStops(r: Repo, n: nat, stop: Stop)
    requires n < |r.remaining| && !stop.Finish?
    ensures Pick(r, n, {}, stop) == (StopAt(PickSome(r, n, {}), stop), stop)
  {
    NothingInTheWay(r.remaining, n);
    hide PicksBefore;
  }

  // The command went through, and all that was left is settled: what was stopped in its way, the
  // rest replayed.
  ghost predicate Finished(r: Repo, call: Call, fate: Fate) {
    && call.outcome == Completed([]) && !call.repo.operation.IsActive()
    && call.repo.stopped == None && call.repo.remaining == []
    && call.repo.history == r.history + Entries(StoppedList(r), fate) + Entries(r.remaining, Replayed)
  }

  lemma CommandFinishes(r: Repo, c: Command, n: nat)
    requires (c.Continue? || c.Skip?) && !WillRefuse(r, c)
    requires c.Continue? ==> !r.stagedEqualsHead
    ensures Finished(r, RunSequencer(r, c, Runs(n, {}, Finish)), if c.Skip? then SkippedByUser else Replayed)
  {
    PickFinishes(Begin(r, c), n);
    hide Pick, Entries, FilterIn;
  }

  // Main result on progress. Where the source goes on, the driver does give git the command, whatever
  // git then answers; and when git gets through, the call says so and every commit is settled.
  lemma ContinueGoesOn(r: Repo, a: Answer)
    requires r.operation.IsSequenced() && r.conflicts == 0 && !r.stagedEqualsHead
    ensures ContinueCall(r, a).issued == [(r, Continue)]
    ensures a.Runs? && a.empties == {} && a.stop.Finish? ==> Finished(r, ContinueCall(r, a), Replayed)
  {
    if a.Runs? && a.empties == {} && a.stop.Finish? {
      CommandFinishes(r, Continue, a.n);
    }
    hide Git, Finished;
  }

  lemma SkipGoesOn(r: Repo, a: Answer)
    requires r.operation.IsSequenced()
    ensures SkipCall(r, a).issued == [(r, Skip)]
    ensures a.Runs? && a.empties == {} && a.stop.Finish? ==> Finished(r, SkipCall(r, a), SkippedByUser)
  {
    if a.Runs? && a.empties == {} && a.stop.Finish? {
      CommandFinishes(r, Skip, a.n);
    }
    hide Git, Finished;
  }

  // The empty commit is made first; a rebase then goes on by itself.
  lemma KeepEmptyGoesOn(r: Repo, commit: Answer, a: Answer)
    requires r.operation.IsSequenced() && r.conflicts == 0 && r.stagedEqualsHead
    ensures var call, kept := KeepEmptyCall(r, commit, a), Git(r, CommitEmpty, commit).0;
      && call.issued != [] && call.issued[0] == (r, CommitEmpty)
      && (commit.Runs? && r.operation == Rebase ==> call.issued == [(r, CommitEmpty), (kept, Continue)])
      && (commit.Runs? && r.operation.IsSinglePick() ==>
            call.issued == [(r, CommitEmpty)] && call.outcome == Completed([]))
    ensures commit.Runs? && r.operation == Rebase && a.Runs? && a.empties == {} && a.stop.Finish? ==>
      Finished(r, KeepEmptyCall(r, commit, a), KeptEmpty)
  {
    hide Pick, PickKilled, Entries, FilterIn;
    var kept := Git(r, CommitEmpty, commit).0;
    if commit.Runs? && r.operation == Rebase && a.Runs? && a.empties == {} && a.stop.Finish? {
      PickFinishes(Begin(kept, Continue), a.n);
      NoEntries(kept);
    }
  }

  lemma NoEntries(r: Repo)
    requires r.stopped == None
    ensures r.history + Entries(StoppedList(r), if r.stagedEqualsHead then Lost else Replayed) == r.history
  {
  }

  // A rebase that nothing stops replays the whole plan but what upstream has already, and says what
  // that was.
  lemma RebaseGoesOn(r: Repo, plan: seq<Commit>, upstream: set<Commit>, a: Answer)
    requires !r.operation.IsActive()
    ensures RebaseCall(r, true, plan, upstream, a).issued == [(r, Start(plan, upstream, true))]
    ensures a.Runs? && a.empties == {} && a.stop.Finish? ==>
      var call := RebaseCall(r, true, plan, upstream, a);
      && call.outcome == Completed(FilterIn(plan, upstream)) && !call.repo.operation.IsActive()
      && call.repo.history == Entries(FilterOut(plan, upstream), Replayed)
  {
    hide Pick, PickKilled, FilterIn, FilterOut, Entries;
    if a.Runs? && a.empties == {} && a.stop.Finish? {
      PickFinishes(Begin(r, Start(plan, upstream, true)), a.n);
      assert [] + Entries(FilterOut(plan, upstream), Replayed) == Entries(FilterOut(plan, upstream), Replayed);
    }
  }

  lemma AbortGoesOn(r: Repo, a: Answer)
    ensures r.operation.IsSequenced() ==> AbortCall(r, a).issued == [(r, Abort)]
    ensures a.Runs? && r.operation != Other ==>
      AbortCall(r, a).outcome == Aborted && !AbortCall(r, a).repo.operation.IsActive()
  {
    hide Entries;
  }

  // A stop on the way is reported as what it is: a conflict with its files, or a commit that would
  // be empty.
  lemma StopIsReported(r: Repo, c: Command, n: nat, stop: Stop)
    requires PicksAfter(c) && !WillRefuse(r, c) && n < |Begin(r, c).remaining|
    requires stop.AtConflict? || stop.AtEmpty?
    ensures var call := RunSequencer(r, c, Runs(n, {}, stop));
      var warned := if c.Start? then FilterIn(c.plan, c.upstream) else [];
      && call.outcome == (match stop case AtConflict(more) => Conflicted(more + 1, warned) case _ => WouldBeEmpty(warned))
      && call.repo.operation.IsActive() && call.repo.stopped == Some(Begin(r, c).remaining[n])
      && call.repo.history == Begin(r, c).history + Entries(Begin(r, c).remaining[..n], Replayed)
  {
    hide FilterIn, FilterOut;
    var begun := Begin(r, c);
    PickStops(begun, n, stop);
    hide Pick;
    assert Picked(begun.remaining[..n], {}) == Entries(begun.remaining[..n], Replayed);
  }

  // With the option, git stops at the first commit that brings nothing, and the call asks about it.
  lemma EmptyIsReported(r: Repo, c: Command, n: nat, k: nat, empties: set<Commit>, stop: Stop)
    requires PicksAfter(c) && !WillRefuse(r, c) && Begin(r, c).stopsAtEmpty
    requires k < n <= |Begin(r, c).remaining| && Begin(r, c).remaining[k] in empties
    requires forall j :: 0 <= j < k ==> Begin(r, c).remaining[j] !in empties
    ensures var call := RunSequencer(r, c, Runs(n, empties, stop));
      call.outcome.WouldBeEmpty? && call.repo.stopped == Some(Begin(r, c).remaining[k])
  {
    hide FilterIn, FilterOut, Entries;
    var begun := Begin(r, c);
    StopsBefore(begun.remaining, empties, n, k);
    StopsBefore(begun.remaining, empties, |begun.remaining|, k);
    hide PicksBefore, Picked;
  }

  lemma {:induction false} StopsBefore(cs: seq<Commit>, empties: set<Commit>, n: nat, k: nat)
    requires k < n <= |cs| && cs[k] in empties && forall j :: 0 <= j < k ==> cs[j] !in empties
    ensures PicksBefore(cs, empties, n) == k
  {
    if k > 0 {
      StopsBefore(cs[1..], empties, n - 1, k - 1);
    }
  }

  // When git fails: the time limit is an error, a refusal is one only if nothing is in progress, and
  // otherwise leaves the stop as it was.
  lemma FailureIsReported(r: Repo, c: Command, a: Answer)
    requires PicksAfter(c)
    ensures RunSequencer(r, c, a).outcome == Error(TimeLimit) <==> a.Killed?
    ensures RunSequencer(r, c, a).outcome == Error(CommandFailed)
      <==> !a.Killed? && (WillRefuse(r, c) || a.Refuses?) && !r.operation.IsActive()
    ensures a.Refuses? && r.operation.IsActive() ==>
      RunSequencer(r, c, a).outcome
      == if r.conflicts == 0 && a.looksEmpty then WouldBeEmpty([]) else Conflicted(r.conflicts, [])
  {
    hide FilterIn, FilterOut, Entries, Reach, Picked;
  }

  // The same for the other two commands.
  lemma OtherFailures(r: Repo, commit: Answer, a: Answer)
    ensures r.operation.IsSequenced() && r.conflicts == 0 && r.stagedEqualsHead ==>
      && (commit.Killed? ==> KeepEmptyCall(r, commit, a).outcome == Error(TimeLimit))
      && (commit.Refuses? ==> KeepEmptyCall(r, commit, a) == Call(r, Error(CommitFailed), [(r, CommitEmpty)]))
    ensures r.operation.IsSequenced() ==>
      && (a.Killed? ==> AbortCall(r, a).outcome == Error(TimeLimit))
      && (a.Refuses? ==> AbortCall(r, a) == Call(r, Error(CommandFailed), [(r, Abort)]))
  {
    hide Entries;
  }

  // Where the source does not go on, it says why, and does nothing.
  lemma RefusedCalls(r: Repo, branchMatches: bool, plan: seq<Commit>, upstream: set<Commit>, commit: Answer, a: Answer)
    ensures r.operation.IsActive() ==> RebaseCall(r, branchMatches, plan, upstream, a) == Call(r, Error(NotQuiet), [])
    ensures !r.operation.IsActive() && !branchMatches ==>
      RebaseCall(r, branchMatches, plan, upstream, a) == Call(r, Error(WrongBranch), [])
    ensures !r.operation.IsSequenced() ==>
      ContinueCall(r, a) == KeepEmptyCall(r, commit, a) == SkipCall(r, a) == Call(r, Error(NothingToContinue), [])
    ensures r.operation.IsSequenced() && r.conflicts > 0 ==>
      ContinueCall(r, a) == KeepEmptyCall(r, commit, a) == Call(r, Error(ConflictsLeft(r.conflicts)), [])
    ensures r.operation.IsSequenced() && r.conflicts == 0 && r.stagedEqualsHead ==>
      ContinueCall(r, a) == Call(r, WouldBeEmpty([]), [])
    ensures r.operation.IsSequenced() && r.conflicts == 0 && !r.stagedEqualsHead ==>
      KeepEmptyCall(r, commit, a) == Call(r, Error(HasChanges), [])
    ensures r.operation.IsSequenced() <==> r.operation == Rebase || r.operation == CherryPick || r.operation == Revert
    ensures r.operation == NoOperation ==> AbortCall(r, a) == Call(r, Aborted, [])
    ensures r.operation == Other ==> AbortCall(r, a) == Call(r, Error(NotOurs), [])
  {
    hide Git;
  }

  // ----- Reports -----

  function SkippedOf(o: Outcome): seq<Commit> {
    match o
    case Completed(skipped) => skipped
    case WouldBeEmpty(skipped) => skipped
    case Conflicted(_, skipped) => skipped
    case Aborted => []
    case Error(_) => []
  }

  // What the outcomes of a run have reported as applied already since its last rebase began, and
  // whether the first command of that rebase was killed by the time limit.
  datatype Report = Report(told: seq<Commit>, cut: bool)

  // This call begins a rebase: git takes the command and gets as far as its first effect.
  predicate BeginsRebase(r: Repo, act: Act) {
    && act.CallRebase? && act.branchMatches && !r.operation.IsActive()
    && (act.answer.Runs? || (act.answer.Killed? && act.answer.begun))
  }

  function Tell(r: Repo, act: Act, report: Report): Report {
    var told := SkippedOf(Perform(r, act).outcome);
    if BeginsRebase(r, act) then Report(told, act.answer.Killed?) else report.(told := report.told + told)
  }

  function Reports(r: Repo, acts: seq<Act>, report: Report): Report
    decreases |acts|
  {
    if acts == [] then report else Reports(Perform(r, acts[0]).repo, acts[1..], Tell(r, acts[0], report))
  }

  // All commits upstream has already are reported, or none.
  ghost predicate Told(r: Repo, report: Report) {
    !r.restored ==> report.told == if report.cut then [] else r.applied
  }

  lemma GitKeepsApplied(r: Repo, c: Command, a: Answer)
    requires c.Continue? || c.Skip? || c.CommitEmpty?
    ensures Git(r, c, a).0.applied == r.applied && Git(r, c, a).0.restored == r.restored
    ensures Git(r, c, a).1.Reply? ==> Git(r, c, a).1.warned == []
  {
    hide Pick, PickKilled, Entries;
    if a.Runs? {
      PickKeepsApplied(Begin(r, c), a.n, a.empties, a.stop);
    } else if a.Killed? {
      PickKilledKeepsApplied(Begin(r, c), a.n, a.empties, a.midway);
    }
  }

  lemma PickKeepsApplied(r: Repo, n: nat, empties: set<Commit>, stop: Stop)
    ensures var r' := Pick(r, n, empties, stop).0; r'.applied == r.applied && r'.restored == r.restored
  {
    hide Reach, Picked;
  }

  lemma PickKilledKeepsApplied(r: Repo, n: nat, empties: set<Commit>, midway: Option<Stop>)
    ensures var r' := PickKilled(r, n, empties, midway); r'.applied == r.applied && r'.restored == r.restored
  {
    hide Reach, Picked;
  }

  lemma RebaseTells(r: Repo, act: Act, report: Report)
    requires act.CallRebase? && Told(r, report)
    ensures Told(Perform(r, act).repo, Tell(r, act, report))
  {
    hide FilterIn, FilterOut, Reach, Picked;
    assert report.told + [] == report.told;
  }

  lemma PerformTells(r: Repo, act: Act, report: Report)
    requires Told(r, report)
    ensures Told(Perform(r, act).repo, Tell(r, act, report))
  {
    hide Git;
    assert report.told + [] == report.told;
    match act {
      case CallRebase(_, _, _, _) => RebaseTells(r, act, report);
      case UserWorks(_, _) =>
      case CallContinue(a) => GitKeepsApplied(r, Continue, a);
      case CallKeepEmpty(commit, a) =>
        GitKeepsApplied(r, CommitEmpty, commit);
        GitKeepsApplied(Git(r, CommitEmpty, commit).0, Continue, a);
      case CallSkip(a) => GitKeepsApplied(r, Skip, a);
      case CallAbort(a) => AbortTells(r, a);
    }
  }

  lemma AbortTells(r: Repo, a: Answer)
    ensures AbortCall(r, a).repo == r || AbortCall(r, a).repo.restored
    ensures SkippedOf(AbortCall(r, a).outcome) == []
  {
  }

  lemma {:induction false} RunTells(r: Repo, acts: seq<Act>, report: Report)
    requires Told(r, report)
    ensures Told(Run(r, acts).0, Reports(r, acts, report))
    decreases |acts|
  {
    hide Told, Perform, Tell;
    if acts != [] {
      PerformTells(r, acts[0], report);
      RunTells(Perform(r, acts[0]).repo, acts[1..], Tell(r, acts[0], report));
    }
  }

  // Main result on reports. In every run, at every point of a rebase that was not aborted, the
  // outcomes have reported exactly the commits upstream has already, if and only if there are none
  // or the first command of the rebase was not killed by the time limit.
  lemma AppliedAreReportedIff(acts: seq<Act>)
    ensures var r, report := Run(QUIET, acts).0, Reports(QUIET, acts, Report([], false));
      !r.restored ==> (report.told == r.applied <==> r.applied == [] || !report.cut)
  {
    hide Run, Reports;
    RunTells(QUIET, acts, Report([], false));
  }

  // It happens: git finds a commit applied already, and is killed right after it said so.
  lemma AppliedMayGoUnreported()
    ensures var acts := [CallRebase(true, ["c"], {"c"}, Killed(true, 0, {}, None))];
      && Run(QUIET, acts).0.applied == ["c"] && !Run(QUIET, acts).0.restored
      && Reports(QUIET, acts, Report([], false)) == Report([], true)
  {
    var act := CallRebase(true, ["c"], {"c"}, Killed(true, 0, {}, None));
    assert FilterIn(["c"], {"c"}) == ["c"] + FilterIn([], {"c"});
    var r := Perform(QUIET, act).repo;
    assert [act][1..] == [] && Run(r, []) == (r, []);
    assert Tell(QUIET, act, Report([], false)) == Report([], true);
    assert Reports(r, [], Report([], true)) == Report([], true);
  }

  // ----- Questions about no commit -----

  // An act after which a rebase may stand between two commits: git was killed by the time limit,
  // or refused to go on after the commit of an empty change.
  predicate Interrupts(act: Act) {
    match act
    case CallRebase(_, _, _, a) => a.Killed?
    case UserWorks(_, _) => false
    case CallContinue(a) => a.Killed?
    case CallKeepEmpty(commit, a) => commit.Killed? || a.Killed? || (commit.Runs? && a.Refuses?)
    case CallSkip(a) => a.Killed?
    case CallAbort(_) => false
  }

  predicate AtACommit(r: Repo) { r.operation == Rebase ==> r.stopped.Some? }

  lemma PickStopsAtACommit(r: Repo, n: nat, empties: set<Commit>, stop: Stop)
    ensures AtACommit(Pick(r, n, empties, stop).0)
  {
    hide PicksBefore, Picked;
  }

  lemma GitStaysAtACommit(r: Repo, c: Command, a: Answer)
    requires PicksAfter(c) && !a.Killed?
    ensures AtACommit(r) || (!WillRefuse(r, c) && a.Runs?) ==> AtACommit(Git(r, c, a).0)
  {
    hide Pick, FilterIn, FilterOut, Entries;
    if a.Runs? {
      PickStopsAtACommit(Begin(r, c), a.n, a.empties, a.stop);
    }
  }

  lemma PerformStaysAtACommit(r: Repo, act: Act)
    requires Ledger(r) && AtACommit(r) && !Interrupts(act)
    ensures AtACommit(Perform(r, act).repo)
  {
    LedgerStopsAtEmpty(r);
    hide Ledger, Pick, PickKilled, Entries, FilterIn, FilterOut;
    match act {
      case CallRebase(_, plan, upstream, a) => GitStaysAtACommit(r, Start(plan, upstream, true), a);
      case UserWorks(_, _) =>
      case CallContinue(a) => GitStaysAtACommit(r, Continue, a);
      case CallKeepEmpty(commit, a) => KeepEmptyStaysAtACommit(r, commit, a);
      case CallSkip(a) => GitStaysAtACommit(r, Skip, a);
      case CallAbort(_) =>
    }
  }

  lemma KeepEmptyStaysAtACommit(r: Repo, commit: Answer, a: Answer)
    requires AtACommit(r) && !Interrupts(CallKeepEmpty(commit, a))
    requires r.operation == NoOperation || r.operation == Rebase
    ensures AtACommit(KeepEmptyCall(r, commit, a).repo)
  {
    hide Pick, PickKilled, Entries;
    GitStaysAtACommit(Git(r, CommitEmpty, commit).0, Continue, a);
  }

  lemma {:induction false} RunStaysAtACommit(r: Repo, acts: seq<Act>)
    requires Ledger(r) && AtACommit(r) && forall k :: 0 <= k < |acts| ==> !Interrupts(acts[k])
    ensures Ledger(Run(r, acts).0) && AtACommit(Run(r, acts).0)
    decreases |acts|
  {
    hide Ledger, AtACommit, Perform;
    if acts != [] {
      PerformKeepsLedger(r, acts[0]);
      PerformStaysAtACommit(r, acts[0]);
      RunStaysAtACommit(Perform(r, acts[0]).repo, acts[1..]);
    }
  }

  // Main result on it. Without such an interruption, the question whether to drop a commit is
  // always about a commit: the one that is stopped.
  lemma WouldBeEmptyNamesACommit(acts: seq<Act>, act: Act)
    requires !Interrupts(act) && forall k :: 0 <= k < |acts| ==> !Interrupts(acts[k])
    ensures var call := Perform(Run(QUIET, acts).0, act); call.outcome.WouldBeEmpty? ==> call.repo.stopped.Some?
  {
    hide Run, Ledger, Perform, NeverBlind, AtACommit;
    QuietHasALedger();
    assert AtACommit(QUIET) by { NothingAtRest(); }
    RunStaysAtACommit(QUIET, acts);
    var r := Run(QUIET, acts).0;
    PerformKeepsLedger(r, act);
    PerformStaysAtACommit(r, act);
    EmptyIsActive(r, act);
    if Perform(r, act).outcome.WouldBeEmpty? {
      AtItsCommit(Perform(r, act).repo);
    }
  }

  lemma NothingAtRest()
    ensures AtACommit(QUIET)
  {
  }

  lemma AtItsCommit(r: Repo)
    requires Ledger(r) && AtACommit(r) && r.operation.IsActive()
    ensures r.stopped.Some?
  {
    LedgerStopsAtEmpty(r);
    hide Ledger;
  }

  lemma EmptyIsActive(r: Repo, act: Act)
    ensures Perform(r, act).outcome.WouldBeEmpty? ==> Perform(r, act).repo.operation.IsActive()
  {
    hide Git;
  }

  // With one it may be about none: continuing asks without a command, exactly in these states.
  lemma ContinueAsksAboutNothingIff(r: Repo, a: Answer)
    requires Ledger(r)
    ensures r.stopped == None && ContinueCall(r, a).outcome.WouldBeEmpty? && ContinueCall(r, a).issued == []
      <==> r.operation == Rebase && r.stopped == None && r.conflicts == 0 && r.stagedEqualsHead
  {
    LedgerStopsAtEmpty(r);
    hide Git, Ledger;
  }

  // Both interruptions lead there.
  lemma NothingMayBeStopped(a: Answer)
    ensures var r := Run(QUIET, [CallRebase(true, ["c"], {}, Killed(true, 0, {}, None))]).0;
      r.stopped == None && ContinueCall(r, a) == Call(r, WouldBeEmpty([]), [])
    ensures var r := Run(QUIET, [CallRebase(true, ["c"], {}, Runs(0, {}, AtEmpty)),
                                 CallKeepEmpty(Runs(0, {}, Finish), Refuses(false))]).0;
      r.stopped == None && ContinueCall(r, a) == Call(r, WouldBeEmpty([]), [])
  {
    KilledBetweenCommits(a);
    RefusedAfterTheCommit(a);
  }

  lemma KilledBetweenCommits(a: Answer)
    ensures var r := Run(QUIET, [CallRebase(true, ["c"], {}, Killed(true, 0, {}, None))]).0;
      r.stopped == None && ContinueCall(r, a) == Call(r, WouldBeEmpty([]), [])
  {
    var act := CallRebase(true, ["c"], {}, Killed(true, 0, {}, None));
    OneCommitBegins();
    var begun := Begin(QUIET, Start(["c"], {}, true));
    hide Begin, FilterIn, FilterOut, PicksBefore;
    assert Perform(QUIET, act).repo == PickKilled(begun, 0, {}, None);
    assert [act][1..] == [] && Run(Perform(QUIET, act).repo, []).0 == Perform(QUIET, act).repo;
  }

  lemma RefusedAfterTheCommit(a: Answer)
    ensures var r := Run(QUIET, [CallRebase(true, ["c"], {}, Runs(0, {}, AtEmpty)),
                                 CallKeepEmpty(Runs(0, {}, Finish), Refuses(false))]).0;
      r.stopped == None && ContinueCall(r, a) == Call(r, WouldBeEmpty([]), [])
  {
    var first := CallRebase(true, ["c"], {}, Runs(0, {}, AtEmpty));
    var second := CallKeepEmpty(Runs(0, {}, Finish), Refuses(false));
    OneCommitBegins();
    var begun := Begin(QUIET, Start(["c"], {}, true));
    hide FilterIn, FilterOut, PicksBefore;
    var stopped := Perform(QUIET, first).repo;
    assert stopped == StopAt(PickSome(begun, 0, {}), AtEmpty);
    var kept := Perform(stopped, second).repo;
    assert kept == Begin(stopped, CommitEmpty);
    assert [first, second][1..] == [second] && [second][1..] == [];
    assert Run(kept, []) == (kept, []);
    assert Run(stopped, [second]).0 == kept;
  }

  lemma OneCommitBegins()
    ensures Begin(QUIET, Start(["c"], {}, true)) == Repo(Rebase, ["c"], [], [], None, ["c"], 0, true, false, true)
  {
    assert FilterOut(["c"], {}) == ["c"] + FilterOut([], {}) && FilterIn(["c"], {}) == FilterIn([], {});
  }

  // ----- Conflicts without a conflicted file -----

  predicate NoFileInConflict(o: Outcome) { o.Conflicted? && o.conflicts == 0 }

  // A picking command can end so exactly when a rebase without conflicts is in progress, or when
  // the command lets git pick a commit.
  lemma SequencerMayStopUnexplained(r: Repo, c: Command)
    requires PicksAfter(c)
    ensures (exists a :: NoFileInConflict(RunSequencer(r, c, a).outcome))
      <==> (|| (r.operation.IsActive() && r.conflicts == 0)
            || (c.Skip? && Continuable(r) && r.remaining != [])
            || (c.Start? && !r.operation.IsActive() && FilterOut(c.plan, c.upstream) != []))
  {
    if a :| NoFileInConflict(RunSequencer(r, c, a).outcome) {
      StoppedOnTheWay(r, c, a);
    }
    if r.operation.IsActive() && r.conflicts == 0 {
      assert NoFileInConflict(RunSequencer(r, c, Refuses(false)).outcome);
    } else if !WillRefuse(r, c) && Begin(r, c).remaining != [] {
      HookStops(r, c);
      assert NoFileInConflict(RunSequencer(r, c, Runs(0, {}, Otherwise(false, false))).outcome);
    }
  }

  lemma StoppedOnTheWay(r: Repo, c: Command, a: Answer)
    requires PicksAfter(c) && NoFileInConflict(RunSequencer(r, c, a).outcome)
    ensures (r.operation.IsActive() && r.conflicts == 0) || (!WillRefuse(r, c) && Begin(r, c).remaining != [])
  {
    hide FilterIn, FilterOut, PicksBefore, Picked;
  }

  lemma HookStops(r: Repo, c: Command)
    requires PicksAfter(c) && !WillRefuse(r, c) && Begin(r, c).remaining != []
    ensures NoFileInConflict(RunSequencer(r, c, Runs(0, {}, Otherwise(false, false))).outcome)
  {
    hide FilterIn, FilterOut, PicksBefore, Picked;
    var begun := Begin(r, c);
    assert begun.remaining[0..] == begun.remaining;
  }

  // Main result on it, for each call, by what the repository holds before the call. The
  // documentation says that a conflict always comes with a conflicted file.
  lemma EmptyConflictListIff(r: Repo, plan: seq<Commit>, upstream: set<Commit>)
    ensures (exists a :: NoFileInConflict(RebaseCall(r, true, plan, upstream, a).outcome))
      <==> !r.operation.IsActive() && FilterOut(plan, upstream) != []
    ensures (exists a :: NoFileInConflict(ContinueCall(r, a).outcome))
      <==> Continuable(r) && r.conflicts == 0 && !r.stagedEqualsHead
    ensures (exists a :: NoFileInConflict(SkipCall(r, a).outcome))
      <==> Continuable(r) && (r.conflicts == 0 || r.remaining != [])
    ensures (exists commit, a :: NoFileInConflict(KeepEmptyCall(r, commit, a).outcome))
      <==> r.operation == Rebase && r.conflicts == 0 && r.stagedEqualsHead
  {
    hide RunSequencer, Git, FilterOut;
    StartMayStop(r, plan, upstream);
    ContinueMayStop(r);
    SkipMayStop(r);
    KeepEmptyMayStop(r);
  }

  lemma StartMayStop(r: Repo, plan: seq<Commit>, upstream: set<Commit>)
    ensures (exists a :: NoFileInConflict(RebaseCall(r, true, plan, upstream, a).outcome))
      <==> !r.operation.IsActive() && FilterOut(plan, upstream) != []
  {
    hide RunSequencer, FilterOut;
    SequencerMayStopUnexplained(r, Start(plan, upstream, true));
    if !r.operation.IsActive() {
      assert forall a :: RebaseCall(r, true, plan, upstream, a) == RunSequencer(r, Start(plan, upstream, true), a);
    }
  }

  lemma ContinueMayStop(r: Repo)
    ensures (exists a :: NoFileInConflict(ContinueCall(r, a).outcome))
      <==> Continuable(r) && r.conflicts == 0 && !r.stagedEqualsHead
  {
    hide RunSequencer;
    SequencerMayStopUnexplained(r, Continue);
    if Continuable(r) && r.conflicts == 0 && !r.stagedEqualsHead {
      assert forall a :: ContinueCall(r, a) == RunSequencer(r, Continue, a);
    }
  }

  lemma SkipMayStop(r: Repo)
    ensures (exists a :: NoFileInConflict(SkipCall(r, a).outcome))
      <==> Continuable(r) && (r.conflicts == 0 || r.remaining != [])
  {
    hide RunSequencer;
    SequencerMayStopUnexplained(r, Skip);
    if Continuable(r) {
      assert forall a :: SkipCall(r, a) == RunSequencer(r, Skip, a);
    }
  }

  // Only for a rebase, which goes on after the commit.
  lemma KeepEmptyMayStop(r: Repo)
    ensures (exists commit, a :: NoFileInConflict(KeepEmptyCall(r, commit, a).outcome))
      <==> r.operation == Rebase && r.conflicts == 0 && r.stagedEqualsHead
  {
    if commit, a :| NoFileInConflict(KeepEmptyCall(r, commit, a).outcome) {
      if r.operation.IsSinglePick() {
        SinglePickEnds(r, commit, a);
      }
    }
    if r.operation == Rebase && r.conflicts == 0 && r.stagedEqualsHead {
      hide Entries, StoppedList;
      assert NoFileInConflict(KeepEmptyCall(r, Runs(0, {}, Finish), Refuses(false)).outcome);
    }
  }

  lemma SinglePickEnds(r: Repo, commit: Answer, a: Answer)
    requires r.operation.IsSinglePick()
    ensures var call := KeepEmptyCall(r, commit, a);
      && (call.outcome.Completed? || call.outcome.Error?) && |call.issued| <= 1
      && (call.outcome.Completed? ==> !call.repo.operation.IsActive())
  {
    hide Entries, StoppedList, Pick, PickKilled;
  }

  // It happens: a rebase stops at a conflict, the user resolves it, and a hook rejects the commit.
  lemma EmptyConflictListHappens()
    ensures var acts := [CallRebase(true, ["c"], {}, Runs(0, {}, AtConflict(0))), UserWorks(0, false)];
      ContinueCall(Run(QUIET, acts).0, Refuses(false)).outcome == Conflicted(0, [])
  {
    var first := CallRebase(true, ["c"], {}, Runs(0, {}, AtConflict(0)));
    var acts := [first, UserWorks(0, false)];
    var begun := Begin(QUIET, Start(["c"], {}, true));
    assert begun.remaining == ["c"] == begun.remaining[0..];
    var stopped := Perform(QUIET, first).repo;
    assert stopped == StopAt(PickSome(begun, 0, {}), AtConflict(0));
    assert acts[1..] == [UserWorks(0, false)] && acts[1..][1..] == [];
    var resolved := stopped.(conflicts := 0, stagedEqualsHead := false);
    assert Run(resolved, []) == (resolved, []);
    assert Run(stopped, acts[1..]).0 == resolved;
  }

  // ----- Why the driver takes care -----

  // Without the option, git may drop all that is left of a plan and report success.
  lemma OptionIsNeeded(plan: seq<Commit>, upstream: set<Commit>) returns (a: Answer)
    requires FilterOut(plan, upstream) != []
    ensures var (after, reply) := Git(QUIET, Start(plan, upstream, false), a);
      && reply == Reply(true, false, FilterIn(plan, upstream)) && !after.operation.IsActive()
      && Commits(after.history) == FilterOut(plan, upstream) && after.history != []
      && forall k :: 0 <= k < |after.history| ==> after.history[k].fate == Lost
    ensures Ledger(Git(QUIET, Start(plan, upstream, true), a).0)
  {
    a := Runs(0, (set c | c in FilterOut(plan, upstream)), Finish);
    QuietHasALedger();
    StartKeepsLedger(QUIET, plan, upstream, a);
    hide FilterIn, FilterOut, Ledger, Pick, Commits;
    AllAreDropped(Begin(QUIET, Start(plan, upstream, false)), a.empties);
  }

  lemma AllAreDropped(r: Repo, empties: set<Commit>)
    requires !r.stopsAtEmpty && r.history == [] && forall c :: c in r.remaining ==> c in empties
    ensures var after := Pick(r, 0, empties, Finish).0;
      && !after.operation.IsActive() && Commits(after.history) == r.remaining
      && forall k :: 0 <= k < |after.history| ==> after.history[k].fate == Lost
  {
    hide PicksBefore;
    var left := r.remaining;
    assert left[..|left|] == left && left[|left|..] == [];
    assert [] + Picked(left, empties) == Picked(left, empties);
  }

  // Why the driver compares the trees: git alone would drop the commit and report success.
  lemma GitAloneLosesCommits()
    ensures var r := Repo(Rebase, ["c"], [], [], Some("c"), [], 0, true, false, true);
      && Git(r, Continue, Runs(0, {}, Finish)).0.history == [Entry("c", Lost)]
      && Git(r, Continue, Runs(0, {}, Finish)).1 == Reply(true, false, [])
      && ContinueCall(r, Runs(0, {}, Finish)) == Call(r, WouldBeEmpty([]), [])
  {
    var r := Repo(Rebase, ["c"], [], [], Some("c"), [], 0, true, false, true);
    assert StoppedList(r) == ["c"];
    var begun := Begin(r, Continue);
    assert begun.history == [Entry("c", Lost)];
    assert begun.history + [] == begun.history;
  }
}
