// Which lane a commit and each of its parents take (src/gitclient/domain/graph.py).
module GraphLanes {
  import opened Wrappers
  import opened Graph
  import opened GraphStep
  import opened GraphRun

  // ----- The new parents, and the lanes there are for them -----

  // The distinct ones that are not known, in order.
  function Newcomers(parents: seq<Sha>, known: set<Sha>): seq<Sha> {
    if parents == [] then []
    else if parents[0] in known then Newcomers(parents[1..], known)
    else [parents[0]] + Newcomers(parents[1..], known + {parents[0]})
  }

  // What is drawn, or awaited.
  ghost function Known(s: State): set<Sha> { s.seen + set t | t in s.targets && t.Some? :: t.value }

  // The free lanes among the first n that are not set aside, from the left.
  function FreeLanes(t: Targets, aside: seq<nat>, n: nat): seq<nat>
    requires n <= |t|
  {
    if n == 0 then []
    else FreeLanes(t, aside, n - 1) + if t[n - 1].None? && n - 1 !in aside then [n - 1] else []
  }

  // The j-th lane to give away: the merged lanes, then the free ones from the left, then new ones.
  function LaneFor(t: Targets, merged: seq<nat>, j: nat): nat {
    var free := FreeLanes(t, merged, |t|);
    if j < |merged| then merged[j]
    else if j - |merged| < |free| then free[j - |merged|]
    else |t| + (j - |merged| - |free|)
  }

  predicate WaitsAt(t: Targets, lane: nat, p: Sha) { lane < |t| && t[lane] == Some(p) }

  // Each new parent has its lane; nothing else has changed; each lane beyond the merged ones has
  // taken a color.
  ghost predicate Places(s: State, merged: seq<nat>, newcomers: seq<Sha>, s': State) {
    && |s.targets| <= |s'.targets|
    && (forall j :: 0 <= j < |newcomers| ==> Placed(s, merged, newcomers, s', j))
    && (forall i: nat :: i < |s'.targets| ==> Untouched(s, s', i) || GivenAway(s.targets, merged, |newcomers|, i))
    && s'.nextColor == s.nextColor + if |newcomers| > |merged| then |newcomers| - |merged| else 0
  }

  ghost predicate Placed(s: State, merged: seq<nat>, newcomers: seq<Sha>, s': State, j: nat)
    requires j < |newcomers|
  {
    WaitsAt(s'.targets, LaneFor(s.targets, merged, j), newcomers[j])
  }

  ghost predicate Untouched(s: State, s': State, i: nat) {
    i < |s.targets| && i < |s'.targets| && s'.targets[i] == s.targets[i]
  }

  // One of the first n lanes to give away.
  ghost predicate GivenAway(t: Targets, merged: seq<nat>, n: nat, i: nat) {
    exists j: nat :: j < n && LaneFor(t, merged, j) == i
  }

  // ----- One lane given away -----

  lemma {:induction false} FreeAre(t: Targets, aside: seq<nat>, n: nat)
    requires n <= |t|
    ensures forall i :: i in FreeLanes(t, aside, n) ==> i < n && t[i] == None && i !in aside
    ensures forall i: nat :: i < n && t[i] == None && i !in aside ==> i in FreeLanes(t, aside, n)
  {
    if n > 0 {
      FreeAre(t, aside, n - 1);
    }
  }

  // A merged lane is set aside already.
  lemma {:induction false} FreeWithoutMerged(t: Targets, merged: seq<nat>, p: Sha, n: nat)
    requires merged != [] && merged[0] < |t| && n <= |t|
    ensures FreeLanes(t[merged[0] := Some(p)], merged[1..], n) == FreeLanes(t, merged, n)
  {
    if n > 0 {
      FreeWithoutMerged(t, merged, p, n - 1);
      assert n - 1 in merged <==> n - 1 == merged[0] || n - 1 in merged[1..];
    }
  }

  // The leftmost free lane is the first of them.
  lemma {:induction false} FreeWithoutFirst(t: Targets, lane: nat, p: Sha, n: nat)
    requires lane < n <= |t| && t[lane] == None && forall i :: 0 <= i < lane ==> t[i].Some?
    ensures FreeLanes(t, [], n) == [lane] + FreeLanes(t[lane := Some(p)], [], n)
  {
    if lane < n - 1 {
      FreeWithoutFirst(t, lane, p, n - 1);
    } else {
      NothingFree(t, lane);
      NothingFree(t[lane := Some(p)], n);
    }
  }

  lemma {:induction false} NothingFree(t: Targets, n: nat)
    requires n <= |t| && forall i :: 0 <= i < n ==> t[i].Some?
    ensures FreeLanes(t, [], n) == []
  {
    if n > 0 {
      NothingFree(t, n - 1);
    }
  }

  lemma MergedShift(t: Targets, merged: seq<nat>, p: Sha, j: nat)
    requires merged != [] && merged[0] < |t|
    ensures LaneFor(t, merged, j + 1) == LaneFor(t[merged[0] := Some(p)], merged[1..], j)
    ensures LaneFor(t, merged, 0) == merged[0]
  {
    FreeWithoutMerged(t, merged, p, |t|);
    hide FreeLanes;
  }

  lemma FreeShift(t: Targets, lane: nat, p: Sha, j: nat)
    requires lane < |t| && t[lane] == None && forall i :: 0 <= i < lane ==> t[i].Some?
    ensures LaneFor(t, [], j + 1) == LaneFor(t[lane := Some(p)], [], j) && LaneFor(t, [], 0) == lane
  {
    FreeWithoutFirst(t, lane, p, |t|);
    hide FreeLanes;
  }

  lemma NewShift(t: Targets, p: Sha, j: nat)
    requires forall i :: 0 <= i < |t| ==> t[i].Some?
    ensures LaneFor(t, [], j + 1) == LaneFor(t + [Some(p)], [], j) && LaneFor(t, [], 0) == |t|
  {
    NothingFree(t, |t|);
    NothingFree(t + [Some(p)], |t| + 1);
    hide FreeLanes;
  }

  ghost predicate Shifts(t: Targets, merged: seq<nat>, t1: Targets, merged1: seq<nat>, j: nat) {
    LaneFor(t, merged, j + 1) == LaneFor(t1, merged1, j)
  }

  // One lane is given to one parent; the others follow.
  ghost predicate Gives(s: State, merged: seq<nat>, p: Sha, s1: State, merged1: seq<nat>) {
    var lane := LaneFor(s.targets, merged, 0);
    && lane < |s1.targets| && s1.targets[lane] == Some(p) && |s.targets| <= |s1.targets|
    && (forall i: nat :: i < |s1.targets| && i != lane ==> Untouched(s, s1, i))
    && (forall j: nat :: Shifts(s.targets, merged, s1.targets, merged1, j))
    && s1.nextColor == s.nextColor + (if merged == [] then 1 else 0)
    && |merged1| == (if merged == [] then 0 else |merged| - 1)
    && s1.seen == s.seen && (lane < |s.targets| ==> s.targets[lane] == None)
  }

  lemma GivesThenPlaces(
    s: State, merged: seq<nat>, p: Sha, s1: State, merged1: seq<nat>, newcomers: seq<Sha>, s': State)
    requires Gives(s, merged, p, s1, merged1) && Places(s1, merged1, newcomers, s')
    requires Keeps(s1.targets, s'.targets)
    ensures Places(s, merged, [p] + newcomers, s')
  {
    hide LaneFor;
    forall j | 0 <= j < |[p] + newcomers| ensures Placed(s, merged, [p] + newcomers, s', j) {
      if j > 0 {
        assert Placed(s1, merged1, newcomers, s', j - 1);
        assert Shifts(s.targets, merged, s1.targets, merged1, j - 1);
      }
    }
    forall i: nat | i < |s'.targets| ensures Untouched(s, s', i) || GivenAway(s.targets, merged, |newcomers| + 1, i) {
      if Untouched(s1, s', i) {
        if i == LaneFor(s.targets, merged, 0) {
          assert GivenAway(s.targets, merged, |newcomers| + 1, i);
        } else {
          assert Untouched(s, s1, i);
        }
      } else {
        var j: nat :| j < |newcomers| && LaneFor(s1.targets, merged1, j) == i;
        assert Shifts(s.targets, merged, s1.targets, merged1, j);
      }
    }
  }

  lemma MergedGives(s: State, merged: seq<nat>, p: Sha)
    requires s.Paired() && merged != [] && Spare(s.targets, merged)
    ensures Gives(s, merged, p, s.(targets := s.targets[merged[0] := Some(p)]), merged[1..])
  {
    hide LaneFor;
    var t1 := s.targets[merged[0] := Some(p)];
    forall j: nat ensures Shifts(s.targets, merged, t1, merged[1..], j) {
      MergedShift(s.targets, merged, p, j);
    }
    MergedShift(s.targets, merged, p, 0);
  }

  lemma AllocatedGives(s: State, p: Sha)
    requires s.Paired()
    ensures var (a, lane) := Allocate(s);
      Gives(s, [], p, a.(targets := a.targets[lane := Some(p)]), []) && lane == LaneFor(s.targets, [], 0)
  {
    hide LaneFor, FirstFree;
    var (a, lane) := Allocate(s);
    var s1 := a.(targets := a.targets[lane := Some(p)]);
    if lane < |s.targets| {
      assert s1.targets == s.targets[lane := Some(p)];
      forall j: nat ensures Shifts(s.targets, [], s1.targets, [], j) {
        FreeShift(s.targets, lane, p, j);
      }
      FreeShift(s.targets, lane, p, 0);
    } else {
      assert s1.targets == s.targets + [Some(p)];
      forall j: nat ensures Shifts(s.targets, [], s1.targets, [], j) {
        NewShift(s.targets, p, j);
      }
      NewShift(s.targets, p, 0);
    }
  }

  lemma KnownGrows(s: State, s1: State, lane: nat, p: Sha)
    requires s1.seen == s.seen && lane < |s1.targets| && s1.targets[lane] == Some(p) && |s.targets| <= |s1.targets|
    requires lane < |s.targets| ==> s.targets[lane] == None
    requires forall i: nat :: i < |s1.targets| && i != lane ==> Untouched(s, s1, i)
    ensures Known(s1) == Known(s) + {p}
  {
    forall x | x in Known(s1) ensures x in Known(s) + {p} {
      if x !in s.seen {
        var i :| 0 <= i < |s1.targets| && s1.targets[i] == Some(x);
        if i != lane {
          assert Untouched(s, s1, i);
          assert s.targets[i] in s.targets;
        }
      }
    }
    forall x | x in Known(s) ensures x in Known(s1) {
      if x !in s.seen {
        var i :| 0 <= i < |s.targets| && s.targets[i] == Some(x);
        assert Untouched(s, s1, i);
        assert s1.targets[i] in s1.targets;
      }
    }
    assert s1.targets[lane] in s1.targets;
  }

  lemma GivesThenKnown(s: State, merged: seq<nat>, p: Sha, s1: State, merged1: seq<nat>)
    requires Gives(s, merged, p, s1, merged1)
    ensures Known(s1) == Known(s) + {p}
  {
    hide LaneFor;
    KnownGrows(s, s1, LaneFor(s.targets, merged, 0), p);
  }

  lemma NothingPlaces(s: State, merged: seq<nat>)
    ensures Places(s, merged, [], s)
  {
    hide LaneFor;
  }

  // ----- All parents after the first -----

  lemma {:induction false} RestPlaces(s: State, parents: seq<Sha>, merged: seq<nat>)
    requires s.Paired() && Inside(merged, |s.targets|) && Spare(s.targets, merged)
    ensures Places(s, merged, Newcomers(parents, Known(s)), AssignRest(s, parents, merged).0)
    decreases parents
  {
    hide Places, Gives, Known, Allocate, FindFrom, Reserves;
    if parents == [] {
      NothingPlaces(s, merged);
    } else {
      var p, rest := parents[0], parents[1..];
      IsKnown(s, p);
      if p in s.seen || FindFrom(s.targets, p, 0) < |s.targets| {
        RestPlaces(s, rest, merged);
      } else if merged != [] {
        var s1 := s.(targets := s.targets[merged[0] := Some(p)]);
        RestPlaces(s1, rest, merged[1..]);
        AssignRestReserves(s1, rest, merged[1..]);
        ReservesKeeps(s1, AssignRest(s1, rest, merged[1..]).0, rest, AssignRest(s1, rest, merged[1..]).1, merged[1..]);
        MergedGives(s, merged, p);
        GivesThenKnown(s, merged, p, s1, merged[1..]);
        GivesThenPlaces(s, merged, p, s1, merged[1..], Newcomers(rest, Known(s1)), AssignRest(s1, rest, merged[1..]).0);
      } else {
        var (a, lane) := Allocate(s);
        var s1 := a.(targets := a.targets[lane := Some(p)]);
        RestPlaces(s1, rest, []);
        AssignRestReserves(s1, rest, []);
        ReservesKeeps(s1, AssignRest(s1, rest, []).0, rest, AssignRest(s1, rest, []).1, []);
        AllocatedGives(s, p);
        GivesThenKnown(s, [], p, s1, []);
        GivesThenPlaces(s, [], p, s1, [], Newcomers(rest, Known(s1)), AssignRest(s1, rest, []).0);
      }
    }
  }

  lemma ReservesKeeps(s: State, s': State, parents: seq<Sha>, lanes: seq<nat>, merged: seq<nat>)
    requires Reserves(s, s', parents, lanes, merged)
    ensures Keeps(s.targets, s'.targets)
  {
  }

  lemma IsKnown(s: State, p: Sha)
    ensures p in Known(s) <==> p in s.seen || FindFrom(s.targets, p, 0) < |s.targets|
  {
    if FindFrom(s.targets, p, 0) < |s.targets| {
      assert s.targets[FindFrom(s.targets, p, 0)] in s.targets;
    }
  }

  // The lane is the leftmost one that waits for the commit.
  ghost predicate Leftmost(t: Targets, lane: nat, p: Sha) {
    lane < |t| && t[lane] == Some(p) && forall i :: 0 <= i < lane ==> t[i] != Some(p)
  }

  lemma {:induction false} NewcomersAreNew(parents: seq<Sha>, known: set<Sha>)
    ensures forall p :: p in Newcomers(parents, known) ==> p !in known && p in parents
  {
    if parents != [] {
      if parents[0] in known {
        NewcomersAreNew(parents[1..], known);
      } else {
        NewcomersAreNew(parents[1..], known + {parents[0]});
      }
    }
  }

  lemma LeftmostStays(s: State, parents: seq<Sha>, merged: seq<nat>, s': State, lane: nat, p: Sha)
    requires Places(s, merged, Newcomers(parents, Known(s)), s') && Keeps(s.targets, s'.targets)
    requires Leftmost(s.targets, lane, p)
    ensures Leftmost(s'.targets, lane, p)
  {
    hide LaneFor;
    var newcomers := Newcomers(parents, Known(s));
    NewcomersAreNew(parents, Known(s));
    assert s.targets[lane] in s.targets;
    forall i | 0 <= i < lane ensures s'.targets[i] != Some(p) {
      if !Untouched(s, s', i) {
        var j: nat :| j < |newcomers| && LaneFor(s.targets, merged, j) == i;
        assert Placed(s, merged, newcomers, s', j) && newcomers[j] in newcomers;
      }
    }
  }

  // Each parent's line goes to the leftmost lane that waits for it in the end.
  lemma {:induction false} RestJoins(s: State, parents: seq<Sha>, merged: seq<nat>)
    requires s.Paired() && Inside(merged, |s.targets|) && Spare(s.targets, merged)
    ensures var r := AssignRest(s, parents, merged);
      && |r.1| == |Unseen(parents, s.seen)|
      && forall k :: 0 <= k < |r.1| ==> Leftmost(r.0.targets, r.1[k], Unseen(parents, s.seen)[k])
    decreases parents
  {
    hide Places, Gives, Known, Allocate, Reserves, Leftmost, LaneFor;
    if parents != [] {
      var p, rest := parents[0], parents[1..];
      IsKnown(s, p);
      if p in s.seen {
        RestJoins(s, rest, merged);
      } else if FindFrom(s.targets, p, 0) < |s.targets| {
        RestJoins(s, rest, merged);
        FoundIsLeftmost(s, p);
        StaysInRest(s, rest, merged, FindFrom(s.targets, p, 0), p);
      } else if merged != [] {
        var s1 := s.(targets := s.targets[merged[0] := Some(p)]);
        RestJoins(s1, rest, merged[1..]);
        OnlyOneIsLeftmost(s, s1, merged[0], p);
        StaysInRest(s1, rest, merged[1..], merged[0], p);
      } else {
        var (a, lane) := Allocate(s);
        var s1 := a.(targets := a.targets[lane := Some(p)]);
        RestJoins(s1, rest, []);
        AllocatedIsLeftmost(s, p);
        StaysInRest(s1, rest, [], lane, p);
      }
    }
  }

  lemma FoundIsLeftmost(s: State, p: Sha)
    requires FindFrom(s.targets, p, 0) < |s.targets|
    ensures Leftmost(s.targets, FindFrom(s.targets, p, 0), p)
  {
  }

  lemma OnlyOneIsLeftmost(s: State, s1: State, lane: nat, p: Sha)
    requires FindFrom(s.targets, p, 0) == |s.targets| && lane < |s.targets| && s1.targets == s.targets[lane := Some(p)]
    ensures Leftmost(s1.targets, lane, p)
  {
  }

  lemma AllocatedIsLeftmost(s: State, p: Sha)
    requires s.Paired() && FindFrom(s.targets, p, 0) == |s.targets|
    ensures var (a, lane) := Allocate(s); Leftmost(a.targets[lane := Some(p)], lane, p)
  {
  }

  lemma StaysInRest(s: State, parents: seq<Sha>, merged: seq<nat>, lane: nat, p: Sha)
    requires s.Paired() && Inside(merged, |s.targets|) && Spare(s.targets, merged) && Leftmost(s.targets, lane, p)
    ensures Leftmost(AssignRest(s, parents, merged).0.targets, lane, p)
  {
    hide Places, Leftmost;
    var r := AssignRest(s, parents, merged);
    RestPlaces(s, parents, merged);
    AssignRestReserves(s, parents, merged);
    ReservesKeeps(s, r.0, parents, r.1, merged);
    LeftmostStays(s, parents, merged, r.0, lane, p);
  }

  // ----- One commit -----

  // The commit takes the leftmost lane that waits for it, or the leftmost free one, or a new one.
  ghost predicate TakesLane(t: Targets, sha: Sha, lane: nat) {
    if IsAwaited(t, sha) then Leftmost(t, lane, sha)
    else lane <= |t| && (lane < |t| ==> t[lane] == None) && forall i :: 0 <= i < lane ==> t[i].Some?
  }

  ghost predicate IsAwaited(t: Targets, sha: Sha) { exists i :: 0 <= i < |t| && t[i] == Some(sha) }

  lemma WaitingIs(t: Targets, sha: Sha)
    ensures var waiting := WaitingFor(t, sha, |t|);
      && (waiting != [] <==> IsAwaited(t, sha)) && (waiting != [] ==> Leftmost(t, waiting[0], sha))
  {
    var waiting := WaitingFor(t, sha, |t|);
    hide WaitingFor;
    if waiting != [] {
      assert t[waiting[0]] == Some(sha);
      assert forall k :: k in waiting ==> waiting[0] <= k;
      assert forall k :: 0 <= k < waiting[0] ==> k !in waiting;
    }
  }

  lemma ClaimTakesLane(s: State, sha: Sha)
    requires s.Paired()
    ensures TakesLane(s.targets, sha, Claim(s, sha).1)
  {
    hide WaitingFor, Cleared, IsAwaited, Leftmost;
    WaitingIs(s.targets, sha);
  }

  // The lanes once the commit has its own: those that waited for it are free, and its own waits
  // for the first parent if that is below.
  ghost predicate Settles(t: Targets, c: Commit, seen: set<Sha>, own: nat, base: Targets) {
    && |base| == Max(|t|, own + 1)
    && base[own] == FirstBelow(c, seen)
    && forall i :: 0 <= i < |t| && i != own ==> base[i] == if t[i] == Some(c.sha) then None else t[i]
  }

  // The other lanes that waited for the commit, from the left.
  function Merged(t: Targets, sha: Sha): seq<nat> {
    var waiting := WaitingFor(t, sha, |t|);
    if waiting == [] then [] else waiting[1..]
  }

  // The parents after the first.
  function Others(parents: seq<Sha>): seq<Sha> { if parents == [] then [] else parents[1..] }

  // The first parent, if it is below.
  function FirstBelow(c: Commit, seen: set<Sha>): Option<Sha> {
    if c.parents != [] && c.parents[0] !in seen then Some(c.parents[0]) else None
  }

  // What the commit starts from when it places the other parents.
  ghost function Started(s: State, c: Commit): State
    requires s.Paired()
  {
    var (claimed, lane, _) := Claim(s, c.sha);
    claimed.(targets := claimed.targets[lane := FirstBelow(c, s.seen)])
  }

  lemma StartedIs(s: State, c: Commit)
    requires s.Paired()
    ensures var s2 := Started(s, c);
      && s2.Paired() && s2.seen == s.seen && Inside(Merged(s.targets, c.sha), |s2.targets|)
      && Spare(s2.targets, Merged(s.targets, c.sha))
      && Settles(s.targets, c, s.seen, Claim(s, c.sha).1, s2.targets)
      && s2.nextColor == s.nextColor + (if IsAwaited(s.targets, c.sha) then 0 else 1)
      && Claim(s, c.sha).2 == Merged(s.targets, c.sha) && Claim(s, c.sha).1 <= |s.targets|
  {
    hide WaitingFor, Cleared, IsAwaited, Allocate, Settles;
    WaitingIs(s.targets, c.sha);
    ClaimClaims(s, c.sha);
    var (claimed, lane, merged) := Claim(s, c.sha);
    ClaimSettles(s, c, claimed, lane, merged);
    ClaimsSpare(claimed.targets, merged, lane, FirstBelow(c, s.seen));
    AllocateColors(s);
  }

  lemma ClaimSettles(s: State, c: Commit, claimed: State, lane: nat, merged: seq<nat>)
    requires Claims(s, c.sha, claimed, lane, merged)
    requires |claimed.targets| == Max(|s.targets|, lane + 1)
    ensures Settles(s.targets, c, s.seen, lane, claimed.targets[lane := FirstBelow(c, s.seen)])
  {
    hide SameColors;
  }

  lemma ClaimsSpare(t: Targets, merged: seq<nat>, lane: nat, first: Option<Sha>)
    requires Spare(t, merged) && lane < |t| && lane !in merged
    ensures Spare(t[lane := first], merged) && Inside(merged, |t|)
  {
  }

  lemma AllocateColors(s: State)
    requires s.Paired()
    ensures var (a, lane) := Allocate(s);
      a.nextColor == s.nextColor + 1 && |a.targets| == Max(|s.targets|, lane + 1)
  {
  }

  lemma MiddleIs(s: State, c: Commit)
    requires s.Paired()
    ensures var s2, merged := Started(s, c), Merged(s.targets, c.sha);
      && s2.Paired() && Inside(merged, |s2.targets|)
      && var rest := AssignRest(s2, Others(c.parents), merged);
      && Middle(s, c).0 == Claim(s, c.sha).1
      && Middle(s, c).2 == rest.0
      && Middle(s, c).1 == (if c.parents != [] && c.parents[0] !in s.seen then [Middle(s, c).0] else []) + rest.1
  {
    StartedIs(s, c);
    hide Claim, Merged, AssignRest, Settles;
    if c.parents == [] {
      NothingAssigned(Started(s, c), Merged(s.targets, c.sha));
    }
  }

  lemma NothingAssigned(s: State, merged: seq<nat>)
    requires s.Paired() && Inside(merged, |s.targets|)
    ensures AssignRest(s, [], merged) == (s, [])
  {
  }

  // ----- Every row -----

  // A commit stands on the leftmost lane that waits for it, or else on the leftmost free one.
  lemma RowTakesLane(cs: History, r: nat)
    requires Proper(cs) && r < |cs|
    ensures TakesLane(StateAfter(cs, r).targets, cs[r].sha, RowOf(cs, r).lane)
  {
    RowHolds(cs, r);
    MiddleIs(StateAfter(cs, r), cs[r]);
    ClaimTakesLane(StateAfter(cs, r), cs[r].sha);
    hide StateAfter, RowOf, Middle, Claim, TakesLane, Steps, Trims, Shows, Serves;
  }

  lemma ParentLanes(cs: History, r: nat)
    requires Proper(cs) && r < |cs|
    ensures var lanes := Middle(StateAfter(cs, r), cs[r]).1;
      |LinesOf(cs, r)| == |lanes| && forall k :: 0 <= k < |lanes| ==> LinesOf(cs, r)[k].toLane == lanes[k]
  {
    RowHolds(cs, r);
    hide StateAfter, RowOf, Middle, Steps, Trims, Serves, OutgoingOf;
  }

  // Main result on straight lines. The first parent, when it is below, goes on in the commit's lane,
  // also when another lane waits for it already.
  lemma FirstParentKeepsLane(cs: History, r: nat)
    requires Proper(cs) && r < |cs|
    requires cs[r].parents != [] && cs[r].parents[0] !in Shas(cs, r)
    ensures |LinesOf(cs, r)| > 0 && Below(cs, r)[0] == cs[r].parents[0]
    ensures LinesOf(cs, r)[0].toLane == RowOf(cs, r).lane
  {
    PrefixIsSound(cs, r);
    RowHolds(cs, r);
    ParentLanes(cs, r);
    OneLinePerParent(cs, r);
    MiddleIs(StateAfter(cs, r), cs[r]);
    hide StateAfter, RowOf, Middle, Claim, AssignRest, Steps, Trims, Shows, Serves, LinesOf, Started, Merged, Sound;
  }

  // A later parent is drawn to the leftmost lane that waits for it below the row.
  lemma LaterParentJoins(cs: History, r: nat, k: nat)
    requires Proper(cs) && r < |cs| && k < |Below(cs, r)| && k < |LinesOf(cs, r)|
    requires k > 0 || cs[r].parents[0] in Shas(cs, r)
    ensures Leftmost(StateAfter(cs, r + 1).targets, LinesOf(cs, r)[k].toLane, Below(cs, r)[k])
  {
    PrefixIsSound(cs, r);
    RowHolds(cs, r);
    ParentLanes(cs, r);
    OneLinePerParent(cs, r);
    hide StateAfter, RowOf, Middle, Claim, AssignRest, Steps, Shows, Serves, LinesOf, Started, Merged, Sound, Leftmost;
    var s, c := StateAfter(cs, r), cs[r];
    LaterLane(s, c, k);
    TrimKeepsLeftmost(Middle(s, c).2, StateAfter(cs, r + 1), LinesOf(cs, r)[k].toLane, Below(cs, r)[k]);
  }

  lemma LaterLane(s: State, c: Commit, k: nat)
    requires s.Paired() && k < |Unseen(c.parents, s.seen)| && k < |Middle(s, c).1|
    requires k > 0 || c.parents[0] in s.seen
    ensures Leftmost(Middle(s, c).2.targets, Middle(s, c).1[k], Unseen(c.parents, s.seen)[k])
  {
    MiddleIs(s, c);
    StartedIs(s, c);
    RestJoins(Started(s, c), Others(c.parents), Merged(s.targets, c.sha));
    hide Middle, Claim, AssignRest, Started, Merged, Leftmost, Settles;
    if c.parents != [] {
      assert Unseen(c.parents, s.seen)
        == (if c.parents[0] in s.seen then [] else [c.parents[0]]) + Unseen(Others(c.parents), s.seen);
    }
  }

  lemma TrimKeepsLeftmost(m: State, t: State, lane: nat, p: Sha)
    requires Trims(m, t) && Leftmost(m.targets, lane, p)
    ensures Leftmost(t.targets, lane, p)
  {
    assert Live(m.targets, lane);
  }

  // The same for one push, before and after.
  ghost predicate GivenInOrder(s: State, s': State, c: Commit, base: Targets) {
    var merged := Merged(s.targets, c.sha);
    var newcomers := Newcomers(Others(c.parents), s.seen + AwaitedIn(base));
    && (forall j :: 0 <= j < |newcomers| ==> WaitsAt(s'.targets, LaneFor(base, merged, j), newcomers[j]))
    && (forall i: nat :: Live(s'.targets, i) ==>
          SameTarget(base, s'.targets, i) || GivenAway(base, merged, |newcomers|, i))
    && s'.nextColor == s.nextColor + (if IsAwaited(s.targets, c.sha) then 0 else 1)
         + (if |newcomers| > |merged| then |newcomers| - |merged| else 0)
  }

  predicate SameTarget(t: Targets, t': Targets, i: nat) { i < |t| && i < |t'| && t'[i] == t[i] }

  lemma PushGivesInOrder(s: State, c: Commit, base: Targets)
    requires s.Paired() && Trims(Middle(s, c).2, Push(s, c).0) && Settles(s.targets, c, s.seen, Middle(s, c).0, base)
    ensures GivenInOrder(s, Push(s, c).0, c, base)
  {
    hide Push, Middle, Claim, AssignRest, Started, Merged, LaneFor, Newcomers, IsAwaited, Trims, Known, AwaitedIn;
    MiddleIs(s, c);
    StartedIs(s, c);
    PushColors(s, c);
    var s2, merged := Started(s, c), Merged(s.targets, c.sha);
    SettlesOnce(s.targets, c, s.seen, Middle(s, c).0, base, s2.targets);
    RestPlaces(s2, Others(c.parents), merged);
    KnownIs(s2);
    TrimmedPlaces(s2, merged, Newcomers(Others(c.parents), Known(s2)), Middle(s, c).2, Push(s, c).0);
  }

  lemma SettlesOnce(t: Targets, c: Commit, seen: set<Sha>, own: nat, base: Targets, other: Targets)
    requires Settles(t, c, seen, own, base) && Settles(t, c, seen, own, other) && own <= |t|
    ensures base == other
  {
  }

  // Main result on opened lanes. Starting from the lanes once the commit has its own, the distinct
  // parents that nobody drew and nobody awaits take the lanes merged here, then the free ones, from
  // the left, then new ones, in the order of the parents; no other lane gets a target, and each lane
  // opened here takes the next color.
  lemma LanesAreGivenInOrder(cs: History, r: nat, base: Targets)
    requires Proper(cs) && r < |cs|
    requires Settles(StateAfter(cs, r).targets, cs[r], Shas(cs, r), RowOf(cs, r).lane, base)
    ensures GivenInOrder(StateAfter(cs, r), StateAfter(cs, r + 1), cs[r], base)
  {
    PrefixIsSound(cs, r);
    RowHolds(cs, r);
    hide Push, Middle, GivenInOrder, Settles, Steps, Shows, Serves, Sound, Trims, Below;
    PushGivesInOrder(StateAfter(cs, r), cs[r], base);
  }

  ghost function AwaitedIn(t: Targets): set<Sha> { set x | x in t && x.Some? :: x.value }

  lemma KnownIs(s: State)
    ensures Known(s) == s.seen + AwaitedIn(s.targets)
  {
  }

  lemma PushColors(s: State, c: Commit)
    requires s.Paired()
    ensures Push(s, c).0.nextColor == Middle(s, c).2.nextColor
  {
    PushIs(s, c);
    hide Push, Middle;
  }

  lemma TrimmedPlaces(s: State, merged: seq<nat>, newcomers: seq<Sha>, m: State, t: State)
    requires Places(s, merged, newcomers, m) && Trims(m, t)
    ensures forall j :: 0 <= j < |newcomers| ==> WaitsAt(t.targets, LaneFor(s.targets, merged, j), newcomers[j])
    ensures forall i: nat :: Live(t.targets, i) ==>
      SameTarget(s.targets, t.targets, i) || GivenAway(s.targets, merged, |newcomers|, i)
  {
    hide LaneFor;
    forall j | 0 <= j < |newcomers| ensures WaitsAt(t.targets, LaneFor(s.targets, merged, j), newcomers[j]) {
      assert Placed(s, merged, newcomers, m, j);
      assert Live(m.targets, LaneFor(s.targets, merged, j));
    }
    forall i: nat | Live(t.targets, i)
      ensures SameTarget(s.targets, t.targets, i) || GivenAway(s.targets, merged, |newcomers|, i)
    {
      assert Untouched(s, m, i) || GivenAway(s.targets, merged, |newcomers|, i);
    }
  }

  // ----- The node -----

  // The node has the commit's name and the color of the lines that leave or enter it on its lane; a
  // commit nobody waited for has the next color, unless its lane is given away; and a merge is
  // marked.
  lemma NodeIs(cs: History, r: nat)
    requires Proper(cs) && r < |cs|
    ensures RowOf(cs, r).sha == cs[r].sha && (RowOf(cs, r).isMerge <==> |cs[r].parents| > 1)
    ensures forall e :: e in RowOf(cs, r).edges && e.kind == Outgoing && e.toLane == RowOf(cs, r).lane ==>
      e.color == RowOf(cs, r).color
    ensures forall e :: e in RowOf(cs, r).edges && e.kind == Incoming && e.fromLane == RowOf(cs, r).lane ==>
      e.color == RowOf(cs, r).color
    ensures !IsAwaited(StateAfter(cs, r).targets, cs[r].sha) && !FirstParentAbove(StateAfter(cs, r), cs[r]) ==>
      RowOf(cs, r).color == StateAfter(cs, r).nextColor % 8
  {
    PrefixIsSound(cs, r);
    RowHolds(cs, r);
    var s, c := StateAfter(cs, r), cs[r];
    hide Middle, Steps, Serves, Sound, IsAwaited, Push, Trims, Below, Shows, FirstParentAbove;
    PushIs(s, c);
    NodeColor(s, c, RowOf(cs, r), Middle(s, c).1, Middle(s, c).2);
    if !IsAwaited(s.targets, c.sha) && !FirstParentAbove(s, c) {
      TipColor(s, c);
    }
  }

  lemma NodeColor(s: State, c: Commit, row: GraphRow, lanes: seq<nat>, m: State)
    requires Shows(s, c, row, lanes, m) && row.lane < |m.colors| && row.color == m.colors[row.lane]
    ensures forall e :: e in row.edges && e.kind == Outgoing && e.toLane == row.lane ==> e.color == row.color
    ensures forall e :: e in row.edges && e.kind == Incoming && e.fromLane == row.lane ==> e.color == row.color
  {
    hide OutgoingOf;
  }

  lemma TipColor(s: State, c: Commit)
    requires s.Paired() && !FirstParentAbove(s, c) && !IsAwaited(s.targets, c.sha)
    ensures var (lane, _, m) := Middle(s, c); lane < |m.colors| && m.colors[lane] == s.nextColor % 8
  {
    hide IsAwaited, Middle, AssignRest, Settles, FirstFree;
    MiddleIs(s, c);
    StartedIs(s, c);
    WaitingIs(s.targets, c.sha);
    var s2 := Started(s, c);
    if c.parents == [] {
      NothingAssigned(s2, []);
    } else {
      AssignRestReserves(s2, Others(c.parents), []);
    }
  }

  // ----- The width -----

  // The width is not wasted: the node or a line touches the last lane of the row.
  lemma RowIsTight(cs: History, r: nat)
    requires Proper(cs) && r < |cs|
    ensures var row := RowOf(cs, r);
      row.laneCount == row.lane + 1
      || exists e :: e in row.edges && (e.fromLane == row.laneCount - 1 || e.toLane == row.laneCount - 1)
  {
    RowHolds(cs, r);
    PrefixIsSound(cs, r);
    PrefixIsSound(cs, r + 1);
    EnteringAreLive(cs, r);
    LeavingAreLive(cs, r);
    hide StateAfter, RowOf, Middle, Steps, Shows, Serves, Trims, Below, Sound, LiveLanes, Entering, Leaving, AllLive;
    LastIsLive(StateAfter(cs, r));
    LastIsLive(StateAfter(cs, r + 1));
    Touches(RowOf(cs, r), RowOf(cs, r).laneCount - 1);
  }

  lemma LastIsLive(s: State)
    requires Sound(s)
    ensures s.targets != [] ==> |s.targets| - 1 in LiveLanes(s.targets)
  {
  }

  lemma Touches(row: GraphRow, lane: int)
    requires lane >= 0
    ensures lane in Entering(row) || lane in Leaving(row) ==>
      exists e :: e in row.edges && (e.fromLane == lane || e.toLane == lane)
  {
  }
}
