// What one commit does to the lanes, and what its row shows.
module GraphStep {
  import opened Wrappers
  import opened Graph

  ghost predicate Live(targets: Targets, i: nat) { i < |targets| && targets[i].Some? }

  // The frontier is paired with its colors, ends in a live lane, and waits for no drawn commit.
  ghost predicate Sound(s: State) {
    && s.Paired()
    && (s.targets != [] ==> s.targets[|s.targets| - 1].Some?)
    && forall i :: 0 <= i < |s.targets| && s.targets[i].Some? ==> s.targets[i].value !in s.seen
  }

  // The parents below the row, in order.
  function Unseen(parents: seq<Sha>, seen: set<Sha>): seq<Sha> {
    if parents == [] then []
    else (if parents[0] in seen then [] else [parents[0]]) + Unseen(parents[1..], seen)
  }

  // A free lane may be given a target; what is live stays.
  ghost predicate Keeps(t: Targets, t': Targets) {
    |t| <= |t'| && forall i :: 0 <= i < |t| && t[i].Some? ==> t'[i] == t[i]
  }

  ghost predicate AllLive(t: Targets) { forall i :: 0 <= i < |t| ==> t[i].Some? }

  // Each lane of the list waits for the parent of the same rank.
  ghost predicate Serves(t: Targets, lanes: seq<nat>, parents: seq<Sha>) {
    && |lanes| == |parents|
    && forall k :: 0 <= k < |lanes| ==> lanes[k] < |t| && t[lanes[k]] == Some(parents[k])
  }

  // Lanes live at the end were live before or are in the list.
  ghost predicate OnlyAdds(t: Targets, t': Targets, lanes: seq<nat>) {
    forall i: nat :: i < |t'| && t'[i].Some? ==> Live(t, i) || i in lanes
  }

  ghost predicate SameColors(s: State, s': State, merged: seq<nat>) {
    forall i: nat :: i < |s.targets| && (s.targets[i].Some? || i in merged) ==>
      i < |s'.colors| && i < |s.colors| && s'.colors[i] == s.colors[i]
  }

  ghost predicate Spare(t: Targets, merged: seq<nat>) {
    && (forall k :: 0 <= k < |merged| ==> merged[k] < |t| && t[merged[k]] == None)
    && forall a, b :: 0 <= a < b < |merged| ==> merged[a] != merged[b]
  }

  ghost predicate Reserves(s: State, s': State, parents: seq<Sha>, lanes: seq<nat>, merged: seq<nat>) {
    && s'.Paired() && s'.seen == s.seen && s'.rowCount == s.rowCount
    && Keeps(s.targets, s'.targets)
    && Serves(s'.targets, lanes, Unseen(parents, s.seen))
    && OnlyAdds(s.targets, s'.targets, lanes)
    && SameColors(s, s', merged)
    && (|s'.targets| > |s.targets| ==> AllLive(s'.targets))
  }

  // Setting one free lane, in a state that may have grown by it.
  ghost predicate Fills(s: State, s1: State, lane: nat, parent: Sha, merged: seq<nat>) {
    && s.Paired() && s1.Paired() && s1.seen == s.seen && s1.rowCount == s.rowCount
    && !Live(s.targets, lane) && lane < |s1.targets| && s1.targets[lane] == Some(parent)
    && |s.targets| <= |s1.targets|
    && (forall i :: 0 <= i < |s1.targets| && i != lane ==> i < |s.targets| && s1.targets[i] == s.targets[i])
    && (|s1.targets| > |s.targets| ==> AllLive(s1.targets))
    && SameColors(s, s1, merged)
  }

  lemma FillThenReserve(
    s: State, s1: State, s2: State, lane: nat, parents: seq<Sha>, lanes: seq<nat>, merged: seq<nat>, merged1: seq<nat>)
    requires parents != [] && parents[0] !in s.seen
    requires Fills(s, s1, lane, parents[0], merged)
    requires forall i :: i in merged ==> i == lane || i in merged1
    requires Reserves(s1, s2, parents[1..], lanes, merged1)
    ensures Reserves(s, s2, parents, [lane] + lanes, merged)
  {
    assert Unseen(parents, s.seen) == [parents[0]] + Unseen(parents[1..], s.seen);
    hide Unseen, Serves, OnlyAdds, SameColors;
    assert Keeps(s.targets, s2.targets) && s2.targets[lane] == Some(parents[0]);
    ServesCons(s2.targets, lane, lanes, parents[0], Unseen(parents[1..], s.seen));
    OnlyAddsCons(s.targets, s1.targets, s2.targets, lane, lanes);
    SameColorsCons(s, s1, s2, lane, merged, merged1);
    if |s2.targets| == |s1.targets| > |s.targets| {
      KeepsLive(s1.targets, s2.targets);
    }
  }

  lemma KeepsLive(t: Targets, t': Targets)
    requires Keeps(t, t') && AllLive(t) && |t'| == |t|
    ensures AllLive(t')
  {
  }

  lemma ServesCons(t: Targets, lane: nat, lanes: seq<nat>, parent: Sha, parents: seq<Sha>)
    requires lane < |t| && t[lane] == Some(parent) && Serves(t, lanes, parents)
    ensures Serves(t, [lane] + lanes, [parent] + parents)
  {
  }

  lemma OnlyAddsCons(t: Targets, t1: Targets, t2: Targets, lane: nat, lanes: seq<nat>)
    requires forall i: nat :: Live(t1, i) ==> Live(t, i) || i == lane
    requires OnlyAdds(t1, t2, lanes)
    ensures OnlyAdds(t, t2, [lane] + lanes)
  {
    forall i: nat | i < |t2| && t2[i].Some? ensures Live(t, i) || i in [lane] + lanes {
      assert Live(t1, i) || i in lanes;
    }
  }

  lemma SameColorsCons(s: State, s1: State, s2: State, lane: nat, merged: seq<nat>, merged1: seq<nat>)
    requires s.Paired() && s1.Paired() && |s.targets| <= |s1.targets|
    requires forall i: nat :: Live(s.targets, i) ==> Live(s1.targets, i)
    requires forall i :: i in merged ==> i == lane || i in merged1
    requires lane < |s1.targets| && s1.targets[lane].Some?
    requires SameColors(s, s1, merged) && SameColors(s1, s2, merged1)
    ensures SameColors(s, s2, merged)
  {
    forall i: nat | i < |s.targets| && (s.targets[i].Some? || i in merged)
      ensures i < |s2.colors| && i < |s.colors| && s2.colors[i] == s.colors[i]
    {
      assert Live(s.targets, i) ==> Live(s1.targets, i);
      assert s1.targets[i].Some? || i in merged1;
    }
  }

  lemma AllocateFills(s: State, parent: Sha)
    requires s.Paired()
    ensures var (a, lane) := Allocate(s);
      Fills(s, a.(targets := a.targets[lane := Some(parent)]), lane, parent, [])
  {
  }

  // The lanes reserved for the parents after the first.
  lemma {:induction false} AssignRestReserves(s: State, parents: seq<Sha>, merged: seq<nat>)
    requires s.Paired() && Inside(merged, |s.targets|) && Spare(s.targets, merged)
    ensures var r := AssignRest(s, parents, merged); Reserves(s, r.0, parents, r.1, merged)
    decreases parents
  {
    hide Allocate, FindFrom, SameColors;
    if parents == [] {
      assert SameColors(s, s, merged) by { SameColorsReflexive(s, merged); }
    } else {
      hide Reserves, Fills, Unseen;
      var parent := parents[0];
      if parent in s.seen {
        AssignRestReserves(s, parents[1..], merged);
        SkipThenReserve(s, AssignRest(s, parents[1..], merged).0, parents, AssignRest(s, parents[1..], merged).1, merged);
      } else if FindFrom(s.targets, parent, 0) < |s.targets| {
        var r := AssignRest(s, parents[1..], merged);
        AssignRestReserves(s, parents[1..], merged);
        JoinThenReserve(s, r.0, FindFrom(s.targets, parent, 0), parents, r.1, merged);
      } else if merged != [] {
        var s1 := s.(targets := s.targets[merged[0] := Some(parent)]);
        AssignRestReserves(s1, parents[1..], merged[1..]);
        ReuseFills(s, merged, parent);
        var r := AssignRest(s1, parents[1..], merged[1..]);
        FillThenReserve(s, s1, r.0, merged[0], parents, r.1, merged, merged[1..]);
      } else {
        var (a, lane) := Allocate(s);
        var s1 := a.(targets := a.targets[lane := Some(parent)]);
        AssignRestReserves(s1, parents[1..], []);
        AllocateFills(s, parent);
        var r := AssignRest(s1, parents[1..], []);
        FillThenReserve(s, s1, r.0, lane, parents, r.1, [], []);
      }
    }
  }

  lemma SameColorsReflexive(s: State, merged: seq<nat>)
    requires s.Paired()
    ensures SameColors(s, s, merged)
  {
  }

  lemma ReuseFills(s: State, merged: seq<nat>, parent: Sha)
    requires s.Paired() && merged != [] && Spare(s.targets, merged)
    ensures Fills(s, s.(targets := s.targets[merged[0] := Some(parent)]), merged[0], parent, merged)
  {
  }

  lemma SkipThenReserve(s: State, s2: State, parents: seq<Sha>, lanes: seq<nat>, merged: seq<nat>)
    requires parents != [] && parents[0] in s.seen && Reserves(s, s2, parents[1..], lanes, merged)
    ensures Reserves(s, s2, parents, lanes, merged)
  {
    assert Unseen(parents, s.seen) == Unseen(parents[1..], s.seen);
  }

  lemma JoinThenReserve(s: State, s2: State, lane: nat, parents: seq<Sha>, lanes: seq<nat>, merged: seq<nat>)
    requires parents != [] && parents[0] !in s.seen && Reserves(s, s2, parents[1..], lanes, merged)
    requires lane < |s.targets| && s.targets[lane] == Some(parents[0])
    ensures Reserves(s, s2, parents, [lane] + lanes, merged)
  {
    assert Unseen(parents, s.seen) == [parents[0]] + Unseen(parents[1..], s.seen);
    hide Unseen, Serves, OnlyAdds, SameColors;
    ServesCons(s2.targets, lane, lanes, parents[0], Unseen(parents[1..], s.seen));
    OnlyAddsCons(s.targets, s.targets, s2.targets, lane, lanes);
  }

  // ----- Claiming -----

  // The lanes waiting for the commit close; its own lane is one of them, or a free one.
  ghost predicate Claims(s: State, sha: Sha, s1: State, lane: nat, merged: seq<nat>) {
    && s1.Paired() && s1.seen == s.seen && s1.rowCount == s.rowCount
    && |s.targets| <= |s1.targets| && lane < |s1.targets| && s1.targets[lane] == None
    && (forall i :: 0 <= i < |s.targets| ==> s1.targets[i] == if s.targets[i] == Some(sha) then None else s.targets[i])
    && (forall i :: 0 <= i < |s.targets| && s.targets[i].Some? ==> i < |s.colors| && s1.colors[i] == s.colors[i])
    && Spare(s1.targets, merged)
    && (forall i: nat :: i < |s.targets| && s.targets[i] == Some(sha) ==> i == lane || i in merged)
    && lane !in merged
    && (|s1.targets| > |s.targets| ==>
          lane == |s.targets| && |s1.targets| == lane + 1 && forall i :: 0 <= i < lane ==> s1.targets[i].Some?)
  }

  lemma ClaimClaims(s: State, sha: Sha)
    requires s.Paired()
    ensures var (s1, lane, merged) := Claim(s, sha); Claims(s, sha, s1, lane, merged)
  {
    hide WaitingFor, Claim, Claims;
    if WaitingFor(s.targets, sha, |s.targets|) == [] {
      FreshClaim(s, sha);
    } else {
      WaitingClaim(s, sha);
    }
  }

  lemma FreshClaim(s: State, sha: Sha)
    requires s.Paired() && WaitingFor(s.targets, sha, |s.targets|) == []
    ensures var (s1, lane, merged) := Claim(s, sha); Claims(s, sha, s1, lane, merged)
  {
    hide WaitingFor, FirstFree;
  }

  lemma WaitingClaim(s: State, sha: Sha)
    requires s.Paired() && WaitingFor(s.targets, sha, |s.targets|) != []
    ensures var (s1, lane, merged) := Claim(s, sha); Claims(s, sha, s1, lane, merged)
  {
    hide WaitingFor, Cleared, Allocate;
    var waiting := WaitingFor(s.targets, sha, |s.targets|);
    assert forall i :: i in waiting ==> i == waiting[0] || i in waiting[1..];
  }

  // ----- One commit -----

  // What Push computes on the way: the commit's lane, the parents' lanes, the state before trimming.
  function Middle(s: State, c: Commit): (r: (nat, seq<nat>, State))
    requires s.Paired()
    ensures r.2.Paired() && |s.targets| <= |r.2.targets| && r.0 < |r.2.targets| && Inside(r.1, |r.2.targets|)
  {
    var (claimed, lane, merged) := Claim(s, c.sha);
    var r := Assign(claimed, lane, c.parents, merged);
    (lane, r.1, r.0)
  }

  // The first parent is drawn above: the lane closes here and may be given away.
  ghost predicate FirstParentAbove(s: State, c: Commit) { c.parents != [] && c.parents[0] in s.seen }

  // The lane is live, and is not closed in a way that may recolor it.
  ghost predicate StaysColored(s: State, c: Commit, i: nat) {
    Live(s.targets, i) && (s.targets[i] == Some(c.sha) ==> !FirstParentAbove(s, c))
  }

  ghost predicate Steps(s: State, c: Commit, lane: nat, lanes: seq<nat>, m: State) {
    && m.Paired() && m.seen == s.seen && m.rowCount == s.rowCount
    && |s.targets| <= |m.targets| && lane < |m.targets| && lane <= |s.targets|
    && (forall i :: 0 <= i < |s.targets| && s.targets[i].Some? && s.targets[i] != Some(c.sha) ==> m.targets[i] == s.targets[i])
    && Serves(m.targets, lanes, Unseen(c.parents, s.seen))
    && (forall i: nat :: i < |m.targets| && m.targets[i].Some? ==>
          (i < |s.targets| && s.targets[i].Some? && s.targets[i] != Some(c.sha)) || i in lanes)
    && (forall i :: 0 <= i < |s.targets| && StaysColored(s, c, i) ==> i < |s.colors| && m.colors[i] == s.colors[i])
    && (|m.targets| > |s.targets| ==> AllLive(m.targets) || m.targets[|s.targets|..] == [None])
  }

  lemma MiddleSteps(s: State, c: Commit)
    requires s.Paired()
    ensures var (lane, lanes, m) := Middle(s, c); Steps(s, c, lane, lanes, m)
  {
    var (claimed, lane, merged) := Claim(s, c.sha);
    ClaimClaims(s, c.sha);
    hide Claim, AssignRest, Claims, Steps, Reserves;
    var (lane', lanes, m) := Middle(s, c);
    if c.parents == [] {
      RootStep(s, c, claimed, lane, merged);
    } else {
      var first := c.parents[0];
      ClaimedLaneIsFree(s, c, claimed, lane, merged);
      if first in s.seen {
        assert claimed.targets[lane := None] == claimed.targets;
        assert claimed.(targets := claimed.targets) == claimed;
        AssignRestReserves(claimed, c.parents[1..], merged);
        assert Unseen(c.parents, s.seen) == Unseen(c.parents[1..], s.seen);
        ClosedStep(s, c, claimed, lane, merged, lanes, m);
      } else {
        var s1 := claimed.(targets := claimed.targets[lane := Some(first)]);
        AssignRestReserves(s1, c.parents[1..], merged);
        var r := AssignRest(s1, c.parents[1..], merged);
        assert Unseen(c.parents, s.seen) == [first] + Unseen(c.parents[1..], s.seen);
        OpenStep(s, c, claimed, lane, merged, r.1, r.0);
      }
    }
  }

  lemma ClaimedLaneIsFree(s: State, c: Commit, s1: State, lane: nat, merged: seq<nat>)
    requires Claims(s, c.sha, s1, lane, merged)
    ensures s1.targets[lane] == None && Spare(s1.targets, merged) && s1.seen == s.seen
    ensures forall p: Sha :: Spare(s1.targets[lane := Some(p)], merged)
  {
    forall p: Sha ensures Spare(s1.targets[lane := Some(p)], merged) {
      assert forall k :: 0 <= k < |merged| ==> merged[k] != lane;
    }
  }

  lemma RootStep(s: State, c: Commit, s1: State, lane: nat, merged: seq<nat>)
    requires s.Paired() && Claims(s, c.sha, s1, lane, merged) && c.parents == []
    ensures Steps(s, c, lane, [], s1.(targets := s1.targets[lane := None]))
  {
  }

  lemma ClosedStep(s: State, c: Commit, s1: State, lane: nat, merged: seq<nat>, lanes: seq<nat>, m: State)
    requires s.Paired() && Claims(s, c.sha, s1, lane, merged)
    requires c.parents != [] && c.parents[0] in s.seen && Unseen(c.parents, s.seen) == Unseen(c.parents[1..], s.seen)
    requires Reserves(s1, m, c.parents[1..], lanes, merged)
    ensures Steps(s, c, lane, lanes, m)
  {
    hide Unseen, Serves;
  }

  lemma OpenStep(s: State, c: Commit, s1: State, lane: nat, merged: seq<nat>, rest: seq<nat>, m: State)
    requires s.Paired() && Claims(s, c.sha, s1, lane, merged)
    requires c.parents != [] && c.parents[0] !in s.seen
    requires Unseen(c.parents, s.seen) == [c.parents[0]] + Unseen(c.parents[1..], s.seen)
    requires Reserves(s1.(targets := s1.targets[lane := Some(c.parents[0])]), m, c.parents[1..], rest, merged)
    ensures Steps(s, c, lane, [lane] + rest, m)
  {
    hide Unseen, Serves, OnlyAdds, SameColors, Spare;
    var s2 := s1.(targets := s1.targets[lane := Some(c.parents[0])]);
    assert m.targets[lane] == Some(c.parents[0]);
    ServesCons(m.targets, lane, rest, c.parents[0], Unseen(c.parents[1..], s.seen));
    OnlyAddsCons(s1.targets, s2.targets, m.targets, lane, rest);
    StepColors(s, c, s1, lane, merged, s2, m);
    NewLanes(s, c, s1, m, [lane] + rest);
  }

  lemma StepColors(s: State, c: Commit, s1: State, lane: nat, merged: seq<nat>, s2: State, m: State)
    requires s.Paired() && Claims(s, c.sha, s1, lane, merged)
    requires c.parents != [] && s2.targets == s1.targets[lane := Some(c.parents[0])] && s2.colors == s1.colors
    requires SameColors(s2, m, merged)
    ensures forall i :: 0 <= i < |s.targets| && Live(s.targets, i) ==> i < |m.colors| && m.colors[i] == s.colors[i]
  {
    forall i | 0 <= i < |s.targets| && Live(s.targets, i) ensures i < |m.colors| && m.colors[i] == s.colors[i] {
      assert s2.targets[i].Some? || i in merged;
    }
  }

  lemma NewLanes(s: State, c: Commit, s1: State, m: State, lanes: seq<nat>)
    requires OnlyAdds(s1.targets, m.targets, lanes)
    requires forall i: nat :: Live(s1.targets, i) ==> Live(s.targets, i) && s.targets[i] != Some(c.sha)
    ensures forall i: nat :: i < |m.targets| && m.targets[i].Some? ==>
      (i < |s.targets| && s.targets[i].Some? && s.targets[i] != Some(c.sha)) || i in lanes
  {
    forall i: nat | i < |m.targets| && m.targets[i].Some? && i !in lanes
      ensures i < |s.targets| && s.targets[i].Some? && s.targets[i] != Some(c.sha)
    {
      assert Live(s1.targets, i);
    }
  }

  // Trimming drops free lanes only.
  ghost predicate Trims(m: State, t: State) {
    && m.Paired() && t.Paired() && |t.targets| <= |m.targets|
    && t.targets == m.targets[..|t.targets|] && t.colors == m.colors[..|t.targets|]
    && (forall i: nat :: Live(m.targets, i) <==> Live(t.targets, i))
    && (t.targets != [] ==> t.targets[|t.targets| - 1].Some?)
  }

  lemma TrimTrims(m: State, rowCount: nat, seen: set<Sha>)
    requires m.Paired()
    ensures Trims(m, Trim(m).(rowCount := rowCount, seen := seen))
  {
    forall i: nat | Live(m.targets, i) ensures i < TrimmedSize(m.targets) {
    }
  }

  lemma TrimServes(m: State, t: State, lanes: seq<nat>, parents: seq<Sha>)
    requires Trims(m, t) && Serves(m.targets, lanes, parents)
    ensures Serves(t.targets, lanes, parents)
  {
    forall k | 0 <= k < |lanes| ensures lanes[k] < |t.targets| && t.targets[lanes[k]] == Some(parents[k]) {
      assert Live(m.targets, lanes[k]);
    }
  }

  // The frontier after the commit waits for nothing that is drawn.
  lemma StepsKeepSound(s: State, c: Commit, lane: nat, lanes: seq<nat>, m: State, t: State)
    requires Sound(s) && c.sha !in s.seen && c.sha !in c.parents && Steps(s, c, lane, lanes, m) && Trims(m, t)
    requires t.seen == s.seen + {c.sha}
    ensures Sound(t)
  {
    var unseen := Unseen(c.parents, s.seen);
    UnseenAreUnseen(c.parents, s.seen);
    hide Unseen;
    forall i | 0 <= i < |t.targets| && t.targets[i].Some? ensures t.targets[i].value !in s.seen + {c.sha} {
      assert m.targets[i].Some?;
      if i in lanes {
        var k :| 0 <= k < |lanes| && lanes[k] == i;
        assert t.targets[i] == Some(unseen[k]) && unseen[k] in unseen;
      }
    }
  }

  lemma GrowthIsLive(s: State, c: Commit, lane: nat, lanes: seq<nat>, m: State, t: State)
    requires Steps(s, c, lane, lanes, m) && Trims(m, t) && |t.targets| > |s.targets|
    ensures AllLive(t.targets)
  {
  }

  lemma PushSteps(s: State, c: Commit)
    requires Sound(s) && c.sha !in s.seen && c.sha !in c.parents
    ensures var (s', row) := Push(s, c);
      var (lane, lanes, m) := Middle(s, c);
      && Sound(s') && s'.seen == s.seen + {c.sha} && s'.rowCount == s.rowCount + 1
      && Steps(s, c, lane, lanes, m) && Trims(m, s')
      && row.lane == lane && row.sha == c.sha
      && row.edges == TopEdges(s.targets, c.sha, lane, m.colors, |s.targets|) + BottomEdges(lane, lanes, m.colors)
      && row.laneCount == Max(Max(|s.targets|, |s'.targets|), lane + 1)
      && Serves(s'.targets, lanes, Unseen(c.parents, s.seen))
      && (|s'.targets| > |s.targets| ==> AllLive(s'.targets))
  {
    hide Push, Trim, TopEdges, BottomEdges, Unseen, Middle, Steps, Serves, Trims, AllLive;
    MiddleSteps(s, c);
    PushIs(s, c);
    MiddleServes(s, c);
    var (lane, lanes, m) := Middle(s, c);
    var s' := Push(s, c).0;
    TrimTrims(m, s.rowCount + 1, s.seen + {c.sha});
    StepsKeepSound(s, c, lane, lanes, m, s');
    TrimServes(m, s', lanes, Unseen(c.parents, s.seen));
    if |s'.targets| > |s.targets| {
      GrowthIsLive(s, c, lane, lanes, m, s');
    }
  }

  lemma PushIs(s: State, c: Commit)
    requires s.Paired()
    ensures var (lane, lanes, m) := Middle(s, c);
      var t := Trim(m);
      && Push(s, c).0 == t.(rowCount := s.rowCount + 1, seen := s.seen + {c.sha})
      && Push(s, c).1 == GraphRow(c.sha, lane, m.colors[lane],
           TopEdges(s.targets, c.sha, lane, m.colors, |s.targets|) + BottomEdges(lane, lanes, m.colors),
           Max(Max(|s.targets|, |t.targets|), lane + 1), |c.parents| > 1)
  {
    hide Claim, Assign, Trim, TopEdges, BottomEdges;
  }

  lemma MiddleServes(s: State, c: Commit)
    requires s.Paired()
    ensures var (lane, lanes, m) := Middle(s, c);
      Serves(m.targets, lanes, Unseen(c.parents, s.seen)) && m.seen == s.seen && m.rowCount == s.rowCount
  {
    MiddleSteps(s, c);
  }

  lemma {:induction false} UnseenAreUnseen(parents: seq<Sha>, seen: set<Sha>)
    ensures forall p :: p in Unseen(parents, seen) <==> p in parents && p !in seen
  {
    if parents != [] {
      UnseenAreUnseen(parents[1..], seen);
      assert forall p :: p in parents <==> p == parents[0] || p in parents[1..];
    }
  }

  // ----- What a row shows -----

  ghost predicate HasPass(row: GraphRow, lane: nat) {
    exists e :: e in row.edges && e.kind == Pass && e.fromLane == lane && e.toLane == lane
  }

  ghost predicate HasIncoming(row: GraphRow, lane: nat) {
    exists e :: e in row.edges && e.kind == Incoming && e.fromLane == lane && e.toLane == row.lane
  }

  function OutgoingOf(edges: seq<Edge>): seq<Edge> {
    if edges == [] then []
    else (if edges[0].kind == Outgoing then [edges[0]] else []) + OutgoingOf(edges[1..])
  }

  lemma {:induction false} OutgoingSplits(a: seq<Edge>, b: seq<Edge>)
    requires forall e :: e in a ==> e.kind != Outgoing
    requires forall e :: e in b ==> e.kind == Outgoing
    ensures OutgoingOf(a + b) == b
    decreases |a| + |b|
  {
    if a == [] {
      assert a + b == b;
      if b != [] {
        OutgoingSplits([], b[1..]);
        assert [] + b[1..] == b[1..];
      }
    } else {
      assert (a + b)[0] == a[0] && (a + b)[1..] == a[1..] + b;
      OutgoingSplits(a[1..], b);
    }
  }

  // The line that enters the row on lane i.
  ghost function TopEdge(before: Targets, sha: Sha, lane: nat, colors: seq<nat>, i: nat): Edge
    requires i < |before| <= |colors|
  {
    if before[i] == Some(sha) then Edge(i, lane, colors[i], Incoming) else Edge(i, i, colors[i], Pass)
  }

  lemma {:induction false} TopEdgesAre(before: Targets, sha: Sha, lane: nat, colors: seq<nat>, n: nat)
    requires n <= |before| <= |colors|
    ensures forall i: nat :: i < n && before[i].Some? ==>
      TopEdge(before, sha, lane, colors, i) in TopEdges(before, sha, lane, colors, n)
    ensures forall e :: e in TopEdges(before, sha, lane, colors, n) ==>
      e.fromLane < n && before[e.fromLane].Some? && e == TopEdge(before, sha, lane, colors, e.fromLane)
  {
    if n > 0 {
      TopEdgesAre(before, sha, lane, colors, n - 1);
    }
  }

  // The row, read edge by edge.
  ghost predicate Shows(s: State, c: Commit, row: GraphRow, lanes: seq<nat>, m: State) {
    && m.Paired() && |s.targets| <= |m.targets| && Inside(lanes, |m.targets|)
    && (forall e :: e in row.edges && e.kind != Outgoing ==>
          Live(s.targets, e.fromLane) && e == TopEdge(s.targets, c.sha, row.lane, m.colors, e.fromLane))
    && (forall i: nat :: Live(s.targets, i) ==> TopEdge(s.targets, c.sha, row.lane, m.colors, i) in row.edges)
    && OutgoingOf(row.edges) == BottomEdges(row.lane, lanes, m.colors)
    && (forall e :: e in row.edges && e.kind == Outgoing ==> e in OutgoingOf(row.edges))
    && (forall e :: e in OutgoingOf(row.edges) ==> e in row.edges && e.kind == Outgoing)
  }

  lemma {:induction false} OutgoingMembers(edges: seq<Edge>)
    ensures forall e :: e in OutgoingOf(edges) <==> e in edges && e.kind == Outgoing
  {
    if edges != [] {
      OutgoingMembers(edges[1..]);
      assert forall e :: e in edges <==> e == edges[0] || e in edges[1..];
    }
  }

  lemma RowShows(s: State, c: Commit)
    requires Sound(s) && c.sha !in s.seen && c.sha !in c.parents
    ensures Shows(s, c, Push(s, c).1, Middle(s, c).1, Middle(s, c).2)
  {
    PushSteps(s, c);
    hide Push, Middle, Steps, TopEdges, BottomEdges, OutgoingOf, Serves, Sound, TopEdge, Shows, Trims, Unseen;
    var (lane, lanes, m) := Middle(s, c);
    EdgesShow(s, c, Push(s, c).1, lanes, m);
  }

  lemma EdgesShow(s: State, c: Commit, row: GraphRow, lanes: seq<nat>, m: State)
    requires m.Paired() && |s.targets| <= |m.targets| && Inside(lanes, |m.targets|)
    requires row.edges == TopEdges(s.targets, c.sha, row.lane, m.colors, |s.targets|) + BottomEdges(row.lane, lanes, m.colors)
    ensures Shows(s, c, row, lanes, m)
  {
    hide TopEdges, BottomEdges, OutgoingOf;
    var top := TopEdges(s.targets, c.sha, row.lane, m.colors, |s.targets|);
    var bottom := BottomEdges(row.lane, lanes, m.colors);
    TopEdgesAre(s.targets, c.sha, row.lane, m.colors, |s.targets|);
    OutgoingSplits(top, bottom);
    OutgoingMembers(row.edges);
    assert forall e :: e in row.edges <==> e in top || e in bottom;
  }
}
