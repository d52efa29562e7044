// When a line keeps its color from row to row (src/gitclient/domain/graph.py).
module GraphColors {
  import opened Wrappers
  import opened Graph
  import opened GraphStep
  import opened GraphAllocator
  import opened GraphRun

  // The later parents that need a lane of their own.
  ghost function NewParents(s: State, parents: seq<Sha>): set<Sha> {
    set p | p in parents && p !in s.seen && Some(p) !in s.targets
  }

  // The free lanes among the first n.
  function FreeBefore(t: Targets, n: nat): nat
    requires n <= |t|
  {
    if n == 0 then 0 else FreeBefore(t, n - 1) + if t[n - 1].None? then 1 else 0
  }

  // The commit closes its lane, because its first parent is drawn above, and the other parents use
  // up the lanes merged into it and the free lanes left of it, so that its own lane is given away,
  // with another color than the line coming in had.
  ghost predicate Repaints(s: State, c: Commit)
    requires s.Paired()
  {
    var waiting := WaitingFor(s.targets, c.sha, |s.targets|);
    waiting != [] && FirstParentAbove(s, c) && (
      var free := FreeBefore(s.targets, waiting[0]);
      && |NewParents(s, c.parents[1..])| > |waiting| - 1 + free
      && (s.nextColor + free) % PALETTE_SIZE != s.colors[waiting[0]])
  }

  // ----- Giving lanes away -----

  lemma {:induction false} FreeBeforeSet(t: Targets, lane: nat, sha: Sha, n: nat)
    requires n <= |t| && lane < |t| && t[lane] == None
    ensures FreeBefore(t, n) == FreeBefore(t[lane := Some(sha)], n) + if lane < n then 1 else 0
  {
    if n > 0 {
      FreeBeforeSet(t, lane, sha, n - 1);
    }
  }

  lemma {:induction false} FreeBeforeAgrees(t: Targets, t': Targets, n: nat)
    requires n <= |t| && n <= |t'| && forall i :: 0 <= i < n ==> t[i] == t'[i]
    ensures FreeBefore(t, n) == FreeBefore(t', n)
  {
    if n > 0 {
      FreeBeforeAgrees(t, t', n - 1);
    }
  }

  lemma {:induction false} NoneFreeBefore(t: Targets, n: nat)
    requires n <= |t| && forall i :: 0 <= i < n ==> t[i].Some?
    ensures FreeBefore(t, n) == 0
  {
    if n > 0 {
      NoneFreeBefore(t, n - 1);
    }
  }

  lemma OldParent(s: State, parents: seq<Sha>)
    requires parents != [] && (parents[0] in s.seen || Some(parents[0]) in s.targets)
    ensures NewParents(s, parents) == NewParents(s, parents[1..])
  {
  }

  lemma NewParent(s: State, s1: State, parents: seq<Sha>, lane: nat)
    requires parents != [] && parents[0] !in s.seen && Some(parents[0]) !in s.targets
    requires lane < |s.targets| && s.targets[lane] == None
    requires s1.seen == s.seen && s1.targets == s.targets[lane := Some(parents[0])]
    ensures |NewParents(s, parents)| == 1 + |NewParents(s1, parents[1..])|
  {
    var p, rest := parents[0], NewParents(s1, parents[1..]);
    assert s1.targets[lane] == Some(p);
    assert forall q :: q != p ==> (Some(q) in s1.targets <==> Some(q) in s.targets) by {
      forall q | q != p ensures Some(q) in s1.targets <==> Some(q) in s.targets {
        if i :| 0 <= i < |s.targets| && s.targets[i] == Some(q) {
          assert s1.targets[i] == Some(q);
        }
      }
    }
    assert NewParents(s, parents) == {p} + rest && p !in rest;
  }

  // The color a free lane ends with, when lanes are given to parents, the merged ones first.
  ghost function FinalColor(s: State, parents: seq<Sha>, spare: nat, lane: nat): nat
    requires s.Paired() && lane < |s.targets|
  {
    if |NewParents(s, parents)| > spare + FreeBefore(s.targets, lane)
    then (s.nextColor + FreeBefore(s.targets, lane)) % PALETTE_SIZE
    else s.colors[lane]
  }

  ghost predicate Ready(s: State, merged: seq<nat>, lane: nat) {
    && s.Paired() && Inside(merged, |s.targets|) && Spare(s.targets, merged)
    && lane < |s.targets| && s.targets[lane] == None && forall k :: 0 <= k < |merged| ==> lane < merged[k]
  }

  lemma {:induction false} RestPaints(s: State, parents: seq<Sha>, merged: seq<nat>, lane: nat)
    requires Ready(s, merged, lane)
    ensures AssignRest(s, parents, merged).0.colors[lane] == FinalColor(s, parents, |merged|, lane)
    decreases parents
  {
    hide FindFrom, NewParents, Allocate, FreeBefore, FinalColor;
    if parents == [] {
      NothingPaints(s, |merged|, lane);
    } else if parents[0] in s.seen {
      OldPaints(s, parents, |merged|, lane);
      RestPaints(s, parents[1..], merged, lane);
    } else if FindFrom(s.targets, parents[0], 0) < |s.targets| {
      assert Some(parents[0]) in s.targets;
      OldPaints(s, parents, |merged|, lane);
      RestPaints(s, parents[1..], merged, lane);
    } else {
      assert Some(parents[0]) !in s.targets;
      if merged != [] {
        MergedPaints(s, parents, merged, lane);
        RestPaints(s.(targets := s.targets[merged[0] := Some(parents[0])]), parents[1..], merged[1..], lane);
      } else {
        AllocatedPaints(s, parents, lane);
        var (a, l) := Allocate(s);
        var s1 := a.(targets := a.targets[l := Some(parents[0])]);
        if l == lane {
          LiveStays(s1, parents[1..], lane);
        } else {
          RestPaints(s1, parents[1..], [], lane);
        }
      }
    }
  }

  lemma NothingPaints(s: State, spare: nat, lane: nat)
    requires s.Paired() && lane < |s.targets|
    ensures FinalColor(s, [], spare, lane) == s.colors[lane]
  {
    assert NewParents(s, []) == {};
  }

  lemma OldPaints(s: State, parents: seq<Sha>, spare: nat, lane: nat)
    requires s.Paired() && lane < |s.targets|
    requires parents != [] && (parents[0] in s.seen || Some(parents[0]) in s.targets)
    ensures FinalColor(s, parents, spare, lane) == FinalColor(s, parents[1..], spare, lane)
  {
    OldParent(s, parents);
  }

  lemma MergedPaints(s: State, parents: seq<Sha>, merged: seq<nat>, lane: nat)
    requires Ready(s, merged, lane) && merged != []
    requires parents != [] && parents[0] !in s.seen && Some(parents[0]) !in s.targets
    ensures var s1 := s.(targets := s.targets[merged[0] := Some(parents[0])]);
      Ready(s1, merged[1..], lane)
      && FinalColor(s, parents, |merged|, lane) == FinalColor(s1, parents[1..], |merged| - 1, lane)
  {
    var s1 := s.(targets := s.targets[merged[0] := Some(parents[0])]);
    NewParent(s, s1, parents, merged[0]);
    FreeBeforeSet(s.targets, merged[0], parents[0], lane);
    hide NewParents, FreeBefore;
  }

  // The leftmost free lane is given away: one left of this one, or this one.
  lemma AllocatedPaints(s: State, parents: seq<Sha>, lane: nat)
    requires Ready(s, [], lane)
    requires parents != [] && parents[0] !in s.seen && Some(parents[0]) !in s.targets
    ensures var (a, l) := Allocate(s);
      var s1 := a.(targets := a.targets[l := Some(parents[0])]);
      && l <= lane && s1.Paired() && |s1.targets| == |s.targets|
      && (if l == lane then s1.targets[lane].Some? && s1.colors[lane] == FinalColor(s, parents, 0, lane)
          else Ready(s1, [], lane) && FinalColor(s, parents, 0, lane) == FinalColor(s1, parents[1..], 0, lane))
  {
    var (a, l) := Allocate(s);
    var s1 := a.(targets := a.targets[l := Some(parents[0])]);
    assert l <= lane;
    NewParent(s, s1, parents, l);
    FreeBeforeSet(s.targets, l, parents[0], lane);
    if l == lane {
      NoneFreeBefore(s.targets, lane);
    }
    hide NewParents, FreeBefore, FirstFree;
  }

  lemma LiveStays(s: State, parents: seq<Sha>, lane: nat)
    requires s.Paired() && lane < |s.targets| && s.targets[lane].Some?
    ensures AssignRest(s, parents, []).0.colors[lane] == s.colors[lane]
  {
    AssignRestReserves(s, parents, []);
  }

  // ----- One commit -----

  ghost predicate KeepsColors(s: State, c: Commit)
    requires s.Paired()
  {
    var m := Middle(s, c).2;
    forall i: nat :: Live(s.targets, i) ==> m.colors[i] == s.colors[i]
  }

  // The commit's own lane, when it closes there.
  lemma OwnColor(s: State, c: Commit)
    requires Sound(s) && c.sha !in c.parents && FirstParentAbove(s, c)
    requires WaitingFor(s.targets, c.sha, |s.targets|) != []
    ensures var waiting := WaitingFor(s.targets, c.sha, |s.targets|);
      var m := Middle(s, c).2;
      && m.colors[waiting[0]] == FinalColor(s, c.parents[1..], |waiting| - 1, waiting[0])
      && forall i :: i in waiting[1..] ==> m.colors[i] == s.colors[i]
  {
    hide FinalColor, AssignRest, WaitingFor;
    var waiting := WaitingFor(s.targets, c.sha, |s.targets|);
    var lane, merged := waiting[0], waiting[1..];
    var closed := s.(targets := Cleared(s.targets, c.sha));
    assert closed.targets[lane := None] == closed.targets;
    assert Middle(s, c).2 == AssignRest(closed, c.parents[1..], merged).0;
    RestPaints(closed, c.parents[1..], merged, lane);
    AssignRestReserves(closed, c.parents[1..], merged);
    ClearedPaints(s, c, lane, |merged|);
  }

  lemma ClearedPaints(s: State, c: Commit, lane: nat, spare: nat)
    requires s.Paired() && lane < |s.targets| && c.sha !in c.parents && c.parents != []
    requires forall i :: 0 <= i < lane ==> s.targets[i] != Some(c.sha)
    ensures FinalColor(s.(targets := Cleared(s.targets, c.sha)), c.parents[1..], spare, lane)
         == FinalColor(s, c.parents[1..], spare, lane)
  {
    var closed := s.(targets := Cleared(s.targets, c.sha));
    FreeBeforeAgrees(s.targets, closed.targets, lane);
    assert forall p :: p != c.sha ==> (Some(p) in closed.targets <==> Some(p) in s.targets) by {
      forall p | p != c.sha ensures Some(p) in closed.targets <==> Some(p) in s.targets {
        if i :| 0 <= i < |s.targets| && s.targets[i] == Some(p) {
          assert closed.targets[i] == Some(p);
        }
      }
    }
    assert NewParents(closed, c.parents[1..]) == NewParents(s, c.parents[1..]);
  }

  // A line keeps its color past a commit unless it comes in there and the lane closes and is lost.
  lemma OthersKeepColor(s: State, c: Commit, i: nat)
    requires Sound(s) && Live(s.targets, i) && (s.targets[i] == Some(c.sha) ==> !FirstParentAbove(s, c))
    ensures Middle(s, c).2.colors[i] == s.colors[i]
  {
    MiddleSteps(s, c);
    hide Middle, Serves, Unseen, AllLive;
    assert StaysColored(s, c, i);
  }

  lemma KeepsColorsIff(s: State, c: Commit)
    requires Sound(s) && c.sha !in s.seen && c.sha !in c.parents
    ensures KeepsColors(s, c) <==> !Repaints(s, c)
  {
    hide Middle, WaitingFor, NewParents, FreeBefore;
    var waiting := WaitingFor(s.targets, c.sha, |s.targets|);
    if FirstParentAbove(s, c) && waiting != [] {
      OwnColor(s, c);
      assert Live(s.targets, waiting[0]);
      forall i: nat | Live(s.targets, i) && i != waiting[0] ensures Middle(s, c).2.colors[i] == s.colors[i] {
        if s.targets[i] == Some(c.sha) {
          assert i in waiting[1..];
        } else {
          OthersKeepColor(s, c, i);
        }
      }
    } else {
      forall i: nat | Live(s.targets, i) ensures Middle(s, c).2.colors[i] == s.colors[i] {
        OthersKeepColor(s, c, i);
      }
    }
  }

  // ----- From row to row -----

  // The line e leaves row r where the line f enters the next row.
  ghost predicate Meets(cs: History, r: nat, e: Edge, f: Edge)
    requires r + 1 < |cs|
  {
    && e in RowOf(cs, r).edges && e.kind != Incoming
    && f in RowOf(cs, r + 1).edges && f.kind != Outgoing && e.toLane == f.fromLane
  }

  // On every lane the line leaving row r and the line entering the next row have one color.
  ghost predicate LinesKeepColor(cs: History, r: nat)
    requires r + 1 < |cs|
  {
    forall e, f :: Meets(cs, r, e, f) ==> e.color == f.color
  }

  // A line is drawn in the color its lane has once the row's lanes are assigned.
  lemma EnteringIsDrawn(cs: History, r: nat, f: Edge)
    requires Proper(cs) && r < |cs| && f in RowOf(cs, r).edges && f.kind != Outgoing
    ensures Live(StateAfter(cs, r).targets, f.fromLane)
    ensures f.color == Middle(StateAfter(cs, r), cs[r]).2.colors[f.fromLane]
  {
    RowHolds(cs, r);
    hide Middle, Below, StateAfter, RowOf, OutgoingOf, Serves, Trims, Steps;
  }

  // The two lines that meet have the lane's color before and after the lower commit.
  lemma MeetingColors(cs: History, r: nat, e: Edge, f: Edge)
    requires Proper(cs) && r + 1 < |cs| && Meets(cs, r, e, f)
    ensures var s := StateAfter(cs, r + 1);
      && Live(s.targets, f.fromLane) && e.color == s.colors[f.fromLane]
      && f.color == Middle(s, cs[r + 1]).2.colors[f.fromLane]
  {
    hide StateAfter, RowOf, Middle;
    EnteringIsDrawn(cs, r + 1, f);
    LeavingColor(cs, r, e);
  }

  // Below a row every live lane has such a pair.
  lemma LinesMeet(cs: History, r: nat, i: nat) returns (e: Edge, f: Edge)
    requires Proper(cs) && r + 1 < |cs| && Live(StateAfter(cs, r + 1).targets, i)
    ensures Meets(cs, r, e, f) && f.fromLane == i
  {
    hide StateAfter, RowOf;
    LeavingAreLive(cs, r);
    EnteringAreLive(cs, r + 1);
    assert i in Leaving(RowOf(cs, r)) && i in Entering(RowOf(cs, r + 1));
    e :| e in RowOf(cs, r).edges && e.kind != Incoming && e.toLane == i;
    f :| f in RowOf(cs, r + 1).edges && f.kind != Outgoing && f.fromLane == i;
  }

  // Main result on colors. Between two rows no line changes its color, exactly when the lower commit
  // does not give its own lane away in another color.
  lemma ColorsJoinIff(cs: History, r: nat)
    requires Proper(cs) && r + 1 < |cs|
    ensures LinesKeepColor(cs, r) <==> !Repaints(StateAfter(cs, r + 1), cs[r + 1])
  {
    PrefixIsSound(cs, r + 1);
    hide StateAfter, RowOf, Repaints, Middle, Sound, Meets;
    var s, c := StateAfter(cs, r + 1), cs[r + 1];
    assert c.sha !in Shas(cs, r + 1);
    KeepsColorsIff(s, c);
    if KeepsColors(s, c) {
      forall e, f | Meets(cs, r, e, f) ensures e.color == f.color {
        MeetingColors(cs, r, e, f);
      }
    }
    if LinesKeepColor(cs, r) {
      forall i: nat | Live(s.targets, i) ensures Middle(s, c).2.colors[i] == s.colors[i] {
        var e, f := LinesMeet(cs, r, i);
        MeetingColors(cs, r, e, f);
      }
    }
  }

  // Children before parents, as the walk delivers them.
  ghost predicate ChildrenFirst(cs: History) {
    forall i, j :: 0 <= i < j < |cs| ==> cs[i].sha !in cs[j].parents
  }

  // Then no line ever changes its color.
  lemma ColorsJoin(cs: History, r: nat, e: Edge, f: Edge)
    requires Proper(cs) && ChildrenFirst(cs) && r + 1 < |cs|
    requires e in RowOf(cs, r).edges && e.kind != Incoming && f in RowOf(cs, r + 1).edges && f.kind != Outgoing
    requires e.toLane == f.fromLane
    ensures e.color == f.color
  {
    hide StateAfter, RowOf, FirstParentAbove, ChildrenFirst;
    FirstParentIsBelow(cs, r + 1);
    ColorsJoinIff(cs, r);
    assert Meets(cs, r, e, f);
  }

  lemma FirstParentIsBelow(cs: History, r: nat)
    requires Proper(cs) && ChildrenFirst(cs) && r < |cs|
    ensures !FirstParentAbove(StateAfter(cs, r), cs[r])
  {
    PrefixIsSound(cs, r);
    hide StateAfter, Sound;
  }

  // It happens. The third commit merges a new parent and one drawn above; its lane
  // closes, is reused for the new parent and takes a new color before the line coming in is drawn.
  lemma ColorMayBreakBelowAParent()
    ensures
      var cs := [Commit("p", []), Commit("c", ["m"]), Commit("m", ["p", "q"])];
      && Proper(cs)
      && RowOf(cs, 1).edges == [Edge(0, 0, 1, Outgoing)]
      && RowOf(cs, 2).edges == [Edge(0, 0, 2, Incoming), Edge(0, 0, 2, Outgoing)]
  {
    var c0, c1, c2 := Commit("p", []), Commit("c", ["m"]), Commit("m", ["p", "q"]);
    var cs := [c0, c1, c2];
    assert Proper(cs) by {
      assert cs[0].sha[0] == 'p' && cs[1].sha[0] == 'c' && cs[2].sha[0] == 'm';
      assert "q"[0] == 'q';
    }
    var s1 := State([], [], 1, 1, {"p"});
    FirstOfAll(c0);
    assert StateAfter(cs, 1) == s1 by { assert StateAfter(cs, 0) == EMPTY; }
    var s2 := State([Some("m")], [1], 2, 2, {"p", "c"});
    SecondOpensALane(s1, c1);
    assert StateAfter(cs, 2) == s2;
    ThirdRepaints(s2, c2);
  }

  lemma FirstOfAll(c: Commit)
    requires c == Commit("p", [])
    ensures Push(EMPTY, c).0 == State([], [], 1, 1, {"p"})
  {
    assert Claim(EMPTY, "p").0.targets == [None] && Claim(EMPTY, "p").0.colors == [0];
    assert Claim(EMPTY, "p") == (State([None], [0], 1, 0, {}), 0, []);
  }

  lemma SecondOpensALane(s: State, c: Commit)
    requires s == State([], [], 1, 1, {"p"}) && c == Commit("c", ["m"])
    ensures Push(s, c).0 == State([Some("m")], [1], 2, 2, {"p", "c"})
    ensures Push(s, c).1.edges == [Edge(0, 0, 1, Outgoing)]
  {
    hide AssignRest, Claim, WaitingFor;
    var claimed := State([None], [1], 2, 1, {"p"});
    SecondClaims(s, claimed);
    assert "m"[0] != "p"[0];
    assert c.parents[1..] == [] && claimed.targets[0 := Some("m")] == [Some("m")];
    AssignEnds(State([Some("m")], [1], 2, 1, {"p"}), []);
  }

  lemma SecondClaims(s: State, claimed: State)
    requires s == State([], [], 1, 1, {"p"}) && claimed == State([None], [1], 2, 1, {"p"})
    ensures Claim(s, "c") == (claimed, 0, [])
  {
    assert Claim(s, "c").0.targets == [None] && Claim(s, "c").0.colors == [1];
  }

  lemma ThirdRepaints(s: State, c: Commit)
    requires s == State([Some("m")], [1], 2, 2, {"p", "c"}) && c == Commit("m", ["p", "q"])
    ensures Push(s, c).1.edges == [Edge(0, 0, 2, Incoming), Edge(0, 0, 2, Outgoing)]
  {
    hide AssignRest, Claim, WaitingFor;
    var claimed := State([None], [1], 2, 2, {"p", "c"});
    ThirdClaims(s, claimed);
    LaneIsGivenAway(claimed);
    assert c.parents[1..] == ["q"] && claimed.targets[0 := None] == [None];
  }

  lemma ThirdClaims(s: State, claimed: State)
    requires s == State([Some("m")], [1], 2, 2, {"p", "c"}) && claimed == State([None], [1], 2, 2, {"p", "c"})
    ensures Claim(s, "m") == (claimed, 0, [])
  {
    assert WaitingFor(s.targets, "m", 1) == [0];
    assert Claim(s, "m").0.targets == [None] && [0][1..] == [];
  }

  lemma LaneIsGivenAway(claimed: State)
    requires claimed == State([None], [1], 2, 2, {"p", "c"})
    ensures AssignRest(claimed, ["q"], []) == (State([Some("q")], [2], 3, 2, {"p", "c"}), [0])
  {
    assert "q"[0] != "p"[0] && "q"[0] != "c"[0] && ["q"][1..] == [];
    var reopened := State([Some("q")], [2], 3, 2, {"p", "c"});
    assert AssignRest(reopened, [], []) == (reopened, []);
    assert FindFrom(claimed.targets, "q", 0) == 1;
    assert Allocate(claimed).0.colors == [2];
    assert [None][0 := Some("q")] == [Some("q")];
    assert Allocate(claimed).0.(targets := [Some("q")]) == reopened;
    assert AssignRest(claimed, ["q"], []).1 == [0];
  }
}
