// The graph over whole commit streams: the picture is the parent relation.
module GraphRun {
  import opened Wrappers
  import opened Graph
  import opened GraphStep
  import opened GraphAllocator

  type History = seq<Commit>

  // Each commit comes once and is not its own parent.
  ghost predicate Proper(cs: History) {
    && (forall i, j :: 0 <= i < j < |cs| ==> cs[i].sha != cs[j].sha)
    && forall i :: 0 <= i < |cs| ==> cs[i].sha !in cs[i].parents
  }

  function StateAfter(cs: History, n: nat): (s: State)
    requires n <= |cs|
    ensures s.Paired()
  {
    if n == 0 then EMPTY else Push(StateAfter(cs, n - 1), cs[n - 1]).0
  }

  function RowOf(cs: History, r: nat): GraphRow
    requires r < |cs|
  {
    Push(StateAfter(cs, r), cs[r]).1
  }

  function Shas(cs: History, n: nat): (shas: set<Sha>)
    requires n <= |cs|
    ensures forall i :: 0 <= i < n ==> cs[i].sha in shas
    ensures forall sha :: sha in shas ==> exists i :: 0 <= i < n && cs[i].sha == sha
  {
    if n == 0 then {} else Shas(cs, n - 1) + {cs[n - 1].sha}
  }

  // The parents of commit r that are not drawn above it, in order.
  function Below(cs: History, r: nat): seq<Sha>
    requires r < |cs|
  {
    Unseen(cs[r].parents, Shas(cs, r))
  }

  // All rows of a list of commits, with one allocator.
  method Layout(cs: History) returns (rows: seq<GraphRow>)
    ensures |rows| == |cs| && forall r :: 0 <= r < |cs| ==> rows[r] == RowOf(cs, r)
  {
    hide Push;
    var allocator := new LaneAllocator();
    rows := [];
    for n := 0 to |cs|
      invariant fresh(allocator) && allocator.Value() == StateAfter(cs, n)
      invariant |rows| == n && forall r :: 0 <= r < n ==> rows[r] == RowOf(cs, r)
    {
      var row := allocator.PushCommit(cs[n].sha, cs[n].parents);
      assert Commit(cs[n].sha, cs[n].parents) == cs[n];
      rows := rows + [row];
    }
  }

  // ----- Every prefix -----

  lemma {:induction false} PrefixIsSound(cs: History, n: nat)
    requires Proper(cs) && n <= |cs|
    ensures Sound(StateAfter(cs, n)) && StateAfter(cs, n).seen == Shas(cs, n) && StateAfter(cs, n).rowCount == n
  {
    hide Push, Sound, Middle, Steps, Trims, Serves, Unseen, AllLive, TopEdges, BottomEdges;
    if n == 0 {
      EmptyIsSound();
    } else {
      PrefixIsSound(cs, n - 1);
      assert cs[n - 1].sha !in Shas(cs, n - 1);
      PushSteps(StateAfter(cs, n - 1), cs[n - 1]);
    }
  }

  lemma EmptyIsSound()
    ensures Sound(EMPTY)
  {
  }

  // What row r shows, and how the lanes go on below it.
  ghost predicate RowFacts(cs: History, r: nat)
    requires r < |cs|
  {
    var s, s', row := StateAfter(cs, r), StateAfter(cs, r + 1), RowOf(cs, r);
    var (lane, lanes, m) := Middle(s, cs[r]);
    && s.Paired() && s'.Paired() && s.seen == Shas(cs, r) && row.lane == lane
    && Steps(s, cs[r], lane, lanes, m) && Trims(m, s') && Shows(s, cs[r], row, lanes, m)
    && Serves(s'.targets, lanes, Below(cs, r))
    && row.laneCount == Max(Max(|s.targets|, |s'.targets|), lane + 1)
    && (|s'.targets| > |s.targets| ==> AllLive(s'.targets))
  }

  lemma RowHolds(cs: History, r: nat)
    requires Proper(cs) && r < |cs|
    ensures RowFacts(cs, r)
  {
    PrefixIsSound(cs, r);
    hide Push, Sound, Steps, Trims, Shows, Serves, Middle, Unseen, AllLive;
    assert cs[r].sha !in Shas(cs, r);
    PushSteps(StateAfter(cs, r), cs[r]);
    RowShows(StateAfter(cs, r), cs[r]);
  }

  ghost predicate Awaits(cs: History, n: nat, lane: nat, sha: Sha)
    requires n <= |cs|
  {
    lane < |StateAfter(cs, n).targets| && StateAfter(cs, n).targets[lane] == Some(sha)
  }

  // A live lane passes every row but that of the commit it waits for, where it comes in; it is
  // never overwritten in between.
  lemma LiveLaneGoesOn(cs: History, r: nat, lane: nat, sha: Sha)
    requires Proper(cs) && r < |cs| && Awaits(cs, r, lane, sha)
    ensures HasPass(RowOf(cs, r), lane) <==> sha != cs[r].sha
    ensures HasIncoming(RowOf(cs, r), lane) <==> sha == cs[r].sha
    ensures sha != cs[r].sha ==> Awaits(cs, r + 1, lane, sha)
  {
    RowHolds(cs, r);
    hide StateAfter, RowOf, Middle, Serves, Below;
    var s, s', row := StateAfter(cs, r), StateAfter(cs, r + 1), RowOf(cs, r);
    var (_, lanes, m) := Middle(s, cs[r]);
    assert Live(s.targets, lane);
    var e := TopEdge(s.targets, cs[r].sha, row.lane, m.colors, lane);
    assert e in row.edges;
    if sha != cs[r].sha {
      assert Live(m.targets, lane);
    }
  }

  // ----- Faithfulness -----

  function LinesOf(cs: History, r: nat): seq<Edge>
    requires r < |cs|
  {
    OutgoingOf(RowOf(cs, r).edges)
  }

  // The lines leaving a commit are its parents below, one for one and in order.
  lemma OneLinePerParent(cs: History, r: nat)
    requires Proper(cs) && r < |cs|
    ensures |LinesOf(cs, r)| == |Below(cs, r)|
    ensures forall k :: 0 <= k < |Below(cs, r)| ==>
      LinesOf(cs, r)[k].fromLane == RowOf(cs, r).lane && Awaits(cs, r + 1, LinesOf(cs, r)[k].toLane, Below(cs, r)[k])
  {
    RowHolds(cs, r);
    hide StateAfter, RowOf, Middle, Steps, Below, OutgoingOf;
  }

  ghost predicate PassesThrough(cs: History, lane: nat, from: nat, to: nat)
    requires to <= |cs|
  {
    forall j :: from <= j < to ==> HasPass(RowOf(cs, j), lane)
  }

  // From row r to row n the line of parent k runs on unbroken, as long as the parent is not drawn.
  lemma {:induction false} LineRunsOn(cs: History, r: nat, k: nat, n: nat)
    requires Proper(cs) && r < n <= |cs| && k < |Below(cs, r)| && k < |LinesOf(cs, r)|
    requires forall j :: r < j < n ==> cs[j].sha != Below(cs, r)[k]
    ensures Awaits(cs, n, LinesOf(cs, r)[k].toLane, Below(cs, r)[k])
    ensures PassesThrough(cs, LinesOf(cs, r)[k].toLane, r + 1, n)
    decreases n
  {
    hide StateAfter, RowOf, Below, LinesOf, Awaits, HasPass, HasIncoming;
    OneLinePerParent(cs, r);
    if r + 1 < n {
      LineRunsOn(cs, r, k, n - 1);
      LiveLaneGoesOn(cs, n - 1, LinesOf(cs, r)[k].toLane, Below(cs, r)[k]);
    }
  }

  // Main result. The k-th line leaving commit r passes every row until that of its k-th parent
  // below, where it comes in at the parent's node; if the stream does not hold the parent, it
  // passes every later row.
  lemma DrawingIsFaithful(cs: History, r: nat, k: nat)
    requires Proper(cs) && r < |cs| && k < |Below(cs, r)|
    ensures |LinesOf(cs, r)| == |Below(cs, r)|
    ensures forall q: nat :: q < |cs| && cs[q].sha == Below(cs, r)[k] ==>
      r < q && HasIncoming(RowOf(cs, q), LinesOf(cs, r)[k].toLane) && PassesThrough(cs, LinesOf(cs, r)[k].toLane, r + 1, q)
    ensures Below(cs, r)[k] !in Shas(cs, |cs|) ==> PassesThrough(cs, LinesOf(cs, r)[k].toLane, r + 1, |cs|)
  {
    OneLinePerParent(cs, r);
    var lane, parent := LinesOf(cs, r)[k].toLane, Below(cs, r)[k];
    BelowIsBelow(cs, r, k);
    hide StateAfter, RowOf, Below, LinesOf, Awaits, HasPass, HasIncoming;
    forall q: nat | q < |cs| && cs[q].sha == parent
      ensures r < q && HasIncoming(RowOf(cs, q), lane) && PassesThrough(cs, lane, r + 1, q)
    {
      assert forall j :: r < j < q ==> cs[j].sha != parent;
      LineRunsOn(cs, r, k, q);
      LiveLaneGoesOn(cs, q, lane, parent);
    }
    if parent !in Shas(cs, |cs|) {
      LineRunsOn(cs, r, k, |cs|);
    }
  }

  lemma BelowIsBelow(cs: History, r: nat, k: nat)
    requires Proper(cs) && r < |cs| && k < |Below(cs, r)|
    ensures Below(cs, r)[k] in cs[r].parents && Below(cs, r)[k] !in Shas(cs, r) && Below(cs, r)[k] != cs[r].sha
    ensures forall q: nat :: q < |cs| && cs[q].sha == Below(cs, r)[k] ==> r < q
  {
    UnseenAreUnseen(cs[r].parents, Shas(cs, r));
    hide Unseen;
    assert Below(cs, r)[k] in Below(cs, r);
  }

  // Conversely a line ends only at the parent it left for: where it stops passing, it comes in
  // at that parent's row.
  lemma LineEndsAtItsParent(cs: History, r: nat, k: nat, q: nat)
    requires Proper(cs) && r < q < |cs| && k < |Below(cs, r)| && k < |LinesOf(cs, r)|
    requires PassesThrough(cs, LinesOf(cs, r)[k].toLane, r + 1, q)
    requires !HasPass(RowOf(cs, q), LinesOf(cs, r)[k].toLane)
    ensures cs[q].sha == Below(cs, r)[k] && HasIncoming(RowOf(cs, q), LinesOf(cs, r)[k].toLane)
  {
    var lane, parent := LinesOf(cs, r)[k].toLane, Below(cs, r)[k];
    hide StateAfter, RowOf, Below, LinesOf, Awaits, HasPass, HasIncoming;
    if j :| r < j < q && cs[j].sha == parent {
      assert forall i :: r < i < j ==> cs[i].sha != parent;
      LineRunsOn(cs, r, k, j);
      LiveLaneGoesOn(cs, j, lane, parent);
      assert false;
    }
    LineRunsOn(cs, r, k, q);
    LiveLaneGoesOn(cs, q, lane, parent);
  }

  // Line k of row r reaches row n on this lane.
  ghost predicate StartedAt(cs: History, r: nat, k: nat, lane: nat, n: nat)
    requires n <= |cs|
  {
    r < n && k < |LinesOf(cs, r)| && LinesOf(cs, r)[k].toLane == lane && PassesThrough(cs, lane, r + 1, n)
  }

  // Every lane waiting for a commit above row n was opened by a child of that commit.
  lemma {:induction false} LaneHasAnOrigin(cs: History, n: nat, lane: nat, sha: Sha) returns (r: nat, k: nat)
    requires Proper(cs) && n <= |cs| && Awaits(cs, n, lane, sha)
    ensures StartedAt(cs, r, k, lane, n) && k < |Below(cs, r)| && Below(cs, r)[k] == sha
    decreases n
  {
    StartAwaitsNothing(cs, lane, sha);
    hide StateAfter, RowOf, Below, LinesOf, HasPass, HasIncoming, Awaits;
    var step := OriginStep(cs, n - 1, lane, sha);
    if step.Some? {
      r, k := n - 1, step.value;
    } else {
      LiveLaneGoesOn(cs, n - 1, lane, sha);
      r, k := LaneHasAnOrigin(cs, n - 1, lane, sha);
    }
  }

  lemma StartAwaitsNothing(cs: History, lane: nat, sha: Sha)
    ensures !Awaits(cs, 0, lane, sha)
  {
  }

  // A lane live below row r was opened by it, or was live above it for another commit.
  lemma OriginStep(cs: History, r: nat, lane: nat, sha: Sha) returns (k: Option<nat>)
    requires Proper(cs) && r < |cs| && Awaits(cs, r + 1, lane, sha)
    ensures match k
      case Some(k) => k < |LinesOf(cs, r)| == |Below(cs, r)| && LinesOf(cs, r)[k].toLane == lane && Below(cs, r)[k] == sha
      case None => Awaits(cs, r, lane, sha) && sha != cs[r].sha
  {
    RowHolds(cs, r);
    OneLinePerParent(cs, r);
    hide StateAfter, RowOf, Middle, Below, OutgoingOf;
    var s, s' := StateAfter(cs, r), StateAfter(cs, r + 1);
    var (_, lanes, m) := Middle(s, cs[r]);
    assert Live(m.targets, lane);
    if lane in lanes {
      var j :| 0 <= j < |lanes| && lanes[j] == lane;
      k := Some(j);
    } else {
      assert m.targets[lane] == s.targets[lane];
      k := None;
    }
  }

  // So every line coming in at a row started at a child of that row's commit, as the line drawn
  // for it, and passed every row between.
  lemma IncomingLineLeftAChild(cs: History, q: nat, e: Edge) returns (r: nat, k: nat)
    requires Proper(cs) && q < |cs| && e in RowOf(cs, q).edges && e.kind == Incoming
    ensures StartedAt(cs, r, k, e.fromLane, q) && k < |Below(cs, r)| && Below(cs, r)[k] == cs[q].sha
    ensures cs[q].sha in cs[r].parents && e.toLane == RowOf(cs, q).lane
  {
    RowHolds(cs, q);
    hide Middle, Steps, Trims, Serves, Below, StateAfter, RowOf, LinesOf;
    assert Awaits(cs, q, e.fromLane, cs[q].sha);
    r, k := LaneHasAnOrigin(cs, q, e.fromLane, cs[q].sha);
    BelowIsBelow(cs, r, k);
  }

  // ----- Rows join -----

  ghost function Leaving(row: GraphRow): set<nat> {
    set e | e in row.edges && e.kind != Incoming :: e.toLane
  }

  ghost function Entering(row: GraphRow): set<nat> {
    set e | e in row.edges && e.kind != Outgoing :: e.fromLane
  }

  ghost function LiveLanes(t: Targets): set<nat> {
    set i: nat | i < |t| && t[i].Some? :: i
  }

  lemma EnteringAreLive(cs: History, r: nat)
    requires Proper(cs) && r < |cs|
    ensures Entering(RowOf(cs, r)) == LiveLanes(StateAfter(cs, r).targets)
  {
    RowHolds(cs, r);
    hide Middle, Steps, Trims, Serves, Below, StateAfter, RowOf;
    ShownLanesAreLive(StateAfter(cs, r), cs[r], RowOf(cs, r), Middle(StateAfter(cs, r), cs[r]).1,
                      Middle(StateAfter(cs, r), cs[r]).2);
  }

  lemma ShownLanesAreLive(s: State, c: Commit, row: GraphRow, lanes: seq<nat>, m: State)
    requires Shows(s, c, row, lanes, m)
    ensures Entering(row) == LiveLanes(s.targets)
  {
    forall i: nat | Live(s.targets, i) ensures i in Entering(row) {
      assert TopEdge(s.targets, c.sha, row.lane, m.colors, i) in row.edges;
    }
  }

  lemma LiveBelowLeaves(cs: History, r: nat, i: nat)
    requires Proper(cs) && r < |cs| && Live(StateAfter(cs, r + 1).targets, i)
    ensures i in Leaving(RowOf(cs, r))
  {
    RowHolds(cs, r);
    hide Middle, Below, StateAfter, RowOf, OutgoingOf, Serves;
    var s, s', row := StateAfter(cs, r), StateAfter(cs, r + 1), RowOf(cs, r);
    var (_, lanes, m) := Middle(s, cs[r]);
    assert Live(m.targets, i);
    if i in lanes {
      var k :| 0 <= k < |lanes| && lanes[k] == i;
      assert BottomEdges(row.lane, lanes, m.colors)[k] in OutgoingOf(row.edges);
    } else {
      assert Live(s.targets, i);
      assert TopEdge(s.targets, cs[r].sha, row.lane, m.colors, i) in row.edges;
    }
  }

  lemma LeavingIsLive(cs: History, r: nat, e: Edge)
    requires Proper(cs) && r < |cs| && e in RowOf(cs, r).edges && e.kind != Incoming
    ensures Live(StateAfter(cs, r + 1).targets, e.toLane)
  {
    RowHolds(cs, r);
    hide Middle, Below, StateAfter, RowOf, OutgoingOf;
    var s, s', row := StateAfter(cs, r), StateAfter(cs, r + 1), RowOf(cs, r);
    var (_, lanes, m) := Middle(s, cs[r]);
    if e.kind == Outgoing {
      assert e in OutgoingOf(row.edges);
      var k :| 0 <= k < |lanes| && e == BottomEdges(row.lane, lanes, m.colors)[k];
      assert Live(s'.targets, lanes[k]);
    } else {
      assert Live(s.targets, e.fromLane) && Live(m.targets, e.fromLane);
    }
  }

  lemma LeavingAreLive(cs: History, r: nat)
    requires Proper(cs) && r < |cs|
    ensures Leaving(RowOf(cs, r)) == LiveLanes(StateAfter(cs, r + 1).targets)
  {
    hide StateAfter, RowOf;
    forall i: nat | Live(StateAfter(cs, r + 1).targets, i) ensures i in Leaving(RowOf(cs, r)) {
      LiveBelowLeaves(cs, r, i);
    }
    forall e | e in RowOf(cs, r).edges && e.kind != Incoming ensures Live(StateAfter(cs, r + 1).targets, e.toLane) {
      LeavingIsLive(cs, r, e);
    }
  }

  // The lines leaving a row at the bottom are those entering the next one at the top, in spite
  // of reuse, merging and trimming.
  lemma RowsJoin(cs: History, r: nat)
    requires Proper(cs) && r + 1 < |cs|
    ensures Leaving(RowOf(cs, r)) == Entering(RowOf(cs, r + 1))
  {
    hide Leaving, Entering, LiveLanes, StateAfter, RowOf;
    LeavingAreLive(cs, r);
    EnteringAreLive(cs, r + 1);
  }

  lemma LeavingColor(cs: History, r: nat, e: Edge)
    requires Proper(cs) && r < |cs| && e in RowOf(cs, r).edges && e.kind != Incoming
    ensures e.toLane < |StateAfter(cs, r + 1).colors| && e.color == StateAfter(cs, r + 1).colors[e.toLane]
  {
    RowHolds(cs, r);
    LeavingAreLive(cs, r);
    hide Middle, Below, StateAfter, RowOf, OutgoingOf, Steps, Serves;
    assert e.toLane in Leaving(RowOf(cs, r));
    if e.kind == Outgoing {
      assert e in OutgoingOf(RowOf(cs, r).edges);
    }
  }

  // ----- The frontier -----

  ghost function Members(shas: seq<Sha>): set<Sha> { set p | p in shas }

  ghost function ParentsOf(cs: History, n: nat): set<Sha>
    requires n <= |cs|
  {
    if n == 0 then {} else ParentsOf(cs, n - 1) + Members(cs[n - 1].parents)
  }

  ghost predicate Awaited(cs: History, n: nat, sha: Sha)
    requires n <= |cs|
  {
    exists lane: nat :: Awaits(cs, n, lane, sha)
  }

  lemma AwaitedComesFrom(cs: History, r: nat, lane: nat, sha: Sha)
    requires Proper(cs) && r < |cs| && Awaits(cs, r + 1, lane, sha)
    ensures (Awaits(cs, r, lane, sha) && sha != cs[r].sha) || sha in Below(cs, r)
  {
    hide Below, StateAfter, RowOf, LinesOf, Awaits, Proper;
    var k := OriginStep(cs, r, lane, sha);
    if k.Some? {
      assert Below(cs, r)[k.value] in Below(cs, r);
    }
  }

  lemma BelowIsAwaited(cs: History, r: nat, k: nat)
    requires Proper(cs) && r < |cs| && k < |Below(cs, r)|
    ensures Awaited(cs, r + 1, Below(cs, r)[k])
  {
    hide Below, StateAfter, RowOf, LinesOf, Awaits, Proper;
    OneLinePerParent(cs, r);
    assert Awaits(cs, r + 1, LinesOf(cs, r)[k].toLane, Below(cs, r)[k]);
  }

  lemma StillAwaited(cs: History, r: nat, lane: nat, sha: Sha)
    requires Proper(cs) && r < |cs| && Awaits(cs, r, lane, sha) && sha != cs[r].sha
    ensures Awaited(cs, r + 1, sha)
  {
    hide StateAfter, RowOf, Awaits, Proper, HasPass, HasIncoming;
    LiveLaneGoesOn(cs, r, lane, sha);
    assert Awaits(cs, r + 1, lane, sha);
  }

  lemma AwaitedStep(cs: History, r: nat, sha: Sha)
    requires Proper(cs) && r < |cs|
    ensures Awaited(cs, r + 1, sha) <==> (Awaited(cs, r, sha) && sha != cs[r].sha) || sha in Below(cs, r)
  {
    hide Below, StateAfter, Awaits, Proper;
    if Awaited(cs, r + 1, sha) {
      var lane: nat :| Awaits(cs, r + 1, lane, sha);
      AwaitedComesFrom(cs, r, lane, sha);
    }
    if Awaited(cs, r, sha) && sha != cs[r].sha {
      var lane: nat :| Awaits(cs, r, lane, sha);
      StillAwaited(cs, r, lane, sha);
    }
    if sha in Below(cs, r) {
      var k :| 0 <= k < |Below(cs, r)| && Below(cs, r)[k] == sha;
      BelowIsAwaited(cs, r, k);
    }
  }

  // After any prefix the lanes wait for exactly the parents named and not yet drawn.
  lemma {:induction false} FrontierIs(cs: History, n: nat, sha: Sha)
    requires Proper(cs) && n <= |cs|
    ensures Awaited(cs, n, sha) <==> sha in ParentsOf(cs, n) && sha !in Shas(cs, n)
  {
    hide StateAfter, Awaits, Unseen, Awaited;
    if n == 0 {
      NothingAwaitedAtStart(cs, sha);
    } else {
      FrontierIs(cs, n - 1, sha);
      AwaitedStep(cs, n - 1, sha);
      UnseenAreUnseen(cs[n - 1].parents, Shas(cs, n - 1));
    }
  }

  lemma NothingAwaitedAtStart(cs: History, sha: Sha)
    ensures !Awaited(cs, 0, sha)
  {
    forall lane: nat ensures !Awaits(cs, 0, lane, sha) {
      StartAwaitsNothing(cs, lane, sha);
    }
  }

  // On a history that holds all its parents, in any order, every lane is closed at the end.
  lemma ClosedHistoryEndsEmpty(cs: History)
    requires Proper(cs) && ParentsOf(cs, |cs|) <= Shas(cs, |cs|)
    ensures StateAfter(cs, |cs|).targets == []
  {
    PrefixIsSound(cs, |cs|);
    hide StateAfter, Proper, ParentsOf;
    var t := StateAfter(cs, |cs|).targets;
    if t != [] {
      var last := |t| - 1;
      assert Awaits(cs, |cs|, last, t[last].value);
      FrontierIs(cs, |cs|, t[last].value);
      assert false;
    }
  }

  // ----- Width -----

  function LiveCount(t: Targets): nat {
    if t == [] then 0 else LiveCount(t[..|t| - 1]) + if t[|t| - 1].Some? then 1 else 0
  }

  // The largest number of lanes live at once, at any row boundary so far.
  function MaxLive(cs: History, n: nat): nat
    requires n <= |cs|
  {
    var now := LiveCount(StateAfter(cs, n).targets);
    if n == 0 then now else Max(MaxLive(cs, n - 1), now)
  }

  lemma {:induction false} AllLiveCounts(t: Targets)
    requires AllLive(t)
    ensures LiveCount(t) == |t|
  {
    if t != [] {
      AllLiveCounts(t[..|t| - 1]);
    }
  }

  lemma StartIsEmpty(cs: History)
    ensures StateAfter(cs, 0).targets == []
  {
  }

  // A lane is added only when all are taken, so there are never more lanes than were once live
  // together.
  lemma {:induction false} LanesAreNeeded(cs: History, n: nat)
    requires Proper(cs) && n <= |cs|
    ensures |StateAfter(cs, n).targets| <= MaxLive(cs, n)
  {
    hide StateAfter, Middle, RowOf, Steps, Shows, Trims, Serves, Below, LiveCount, AllLive;
    if n == 0 {
      assert StateAfter(cs, 0).targets == [] by { StartIsEmpty(cs); }
    } else {
      LanesAreNeeded(cs, n - 1);
      RowHolds(cs, n - 1);
      if |StateAfter(cs, n).targets| > |StateAfter(cs, n - 1).targets| {
        AllLiveCounts(StateAfter(cs, n).targets);
      }
    }
  }

  // The node and every edge of a row lie inside its width, which is at most one more than the
  // lanes ever live together.
  lemma RowFits(cs: History, r: nat)
    requires Proper(cs) && r < |cs|
    ensures RowOf(cs, r).lane < RowOf(cs, r).laneCount <= 1 + MaxLive(cs, r + 1)
    ensures forall e :: e in RowOf(cs, r).edges ==>
      e.fromLane < RowOf(cs, r).laneCount && e.toLane < RowOf(cs, r).laneCount
  {
    RowHolds(cs, r);
    LanesAreNeeded(cs, r);
    LanesAreNeeded(cs, r + 1);
    LeavingAreLive(cs, r);
    EnteringAreLive(cs, r);
    assert MaxLive(cs, r) <= MaxLive(cs, r + 1);
    hide StateAfter, Middle, RowOf, Trims, Serves, Below, MaxLive, OutgoingOf;
    var row := RowOf(cs, r);
    forall e | e in row.edges ensures e.fromLane < row.laneCount && e.toLane < row.laneCount {
      if e.kind != Incoming {
        assert e.toLane in Leaving(row);
      }
      if e.kind != Outgoing {
        assert e.fromLane in Entering(row);
      } else {
        assert e in OutgoingOf(row.edges);
      }
    }
  }
}
