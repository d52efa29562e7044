// The lane allocator as an object whose methods update its fields in place.
module GraphAllocator {
  import opened Wrappers
  import opened Graph

  lemma AssignSkips(s: State, parent: Sha, rest: seq<Sha>, merged: seq<nat>)
    requires s.Paired() && Inside(merged, |s.targets|) && parent in s.seen
    ensures AssignRest(s, [parent] + rest, merged) == AssignRest(s, rest, merged)
  {
    assert ([parent] + rest)[1..] == rest;
  }

  lemma AssignEnds(s: State, merged: seq<nat>)
    requires s.Paired() && Inside(merged, |s.targets|)
    ensures AssignRest(s, [], merged) == (s, [])
  {
  }

  class LaneAllocator {
    var lanes: seq<Option<Sha>>
    var colors: seq<nat>
    var nextColor: nat
    var rowCount: nat
    var seen: set<Sha>

    constructor ()
      ensures Value() == EMPTY
    {
      lanes, colors, nextColor, rowCount, seen := [], [], 0, 0, {};
    }

    function Value(): State
      reads this
    {
      State(lanes, colors, nextColor, rowCount, seen)
    }

    method TakeColor() returns (color: nat)
      modifies this`nextColor
      ensures color == old(nextColor) % PALETTE_SIZE && nextColor == old(nextColor) + 1
    {
      color := nextColor % PALETTE_SIZE;
      nextColor := nextColor + 1;
    }

    method AllocateLane() returns (lane: nat)
      requires Value().Paired()
      modifies this`lanes, this`colors, this`nextColor
      ensures (Value(), lane) == Allocate(old(Value()))
    {
      for i := 0 to |lanes|
        invariant unchanged(this)
        invariant FirstFree(lanes, i) == FirstFree(lanes, 0)
      {
        if lanes[i].None? {
          var color := TakeColor();
          colors := colors[i := color];
          return i;
        }
      }
      var color := TakeColor();
      lanes := lanes + [None];
      colors := colors + [color];
      return |lanes| - 1;
    }

    method ClaimLane(sha: Sha) returns (lane: nat, merged: seq<nat>)
      requires Value().Paired()
      modifies this`lanes, this`colors, this`nextColor
      ensures (Value(), lane, merged) == Claim(old(Value()), sha)
    {
      hide Allocate, Cleared, WaitingFor;
      var waiting := LanesWaitingFor(sha);
      if waiting == [] {
        lane := AllocateLane();
        return lane, [];
      }
      lane := waiting[0];
      CloseLanes(sha, waiting);
      return lane, waiting[1..];
    }

    method LanesWaitingFor(sha: Sha) returns (waiting: seq<nat>)
      ensures waiting == WaitingFor(lanes, sha, |lanes|)
    {
      waiting := [];
      for i := 0 to |lanes|
        invariant waiting == WaitingFor(lanes, sha, i)
      {
        if lanes[i] == Some(sha) {
          waiting := waiting + [i];
        }
      }
    }

    method CloseLanes(sha: Sha, waiting: seq<nat>)
      requires waiting == WaitingFor(lanes, sha, |lanes|)
      modifies this`lanes
      ensures lanes == Cleared(old(lanes), sha)
    {
      hide WaitingFor, Cleared;
      ghost var was := lanes;
      for k := 0 to |waiting|
        invariant |lanes| == |was|
        invariant forall i :: 0 <= i < |was| ==>
          lanes[i] == if was[i] == Some(sha) && (k < |waiting| ==> i < waiting[k]) then None else was[i]
      {
        lanes := lanes[waiting[k] := None];
      }
    }

    method FindLaneWaitingFor(sha: Sha) returns (lane: Option<nat>)
      ensures lane == var i := FindFrom(lanes, sha, 0); if i < |lanes| then Some(i) else None
    {
      for i := 0 to |lanes|
        invariant FindFrom(lanes, sha, i) == FindFrom(lanes, sha, 0)
      {
        if lanes[i] == Some(sha) {
          return Some(i);
        }
      }
      return None;
    }

    method AssignParents(lane: nat, parents: seq<Sha>, mergedLanes: seq<nat>) returns (parentLanes: seq<nat>)
      requires Value().Paired() && lane < |lanes| && Inside(mergedLanes, |lanes|)
      modifies this`lanes, this`colors, this`nextColor
      ensures (Value(), parentLanes) == Assign(old(Value()), lane, parents, mergedLanes)
    {
      if parents == [] {
        lanes := lanes[lane := None];
        return [];
      }
      parentLanes := [];
      if parents[0] in seen {
        lanes := lanes[lane := None];
      } else {
        lanes := lanes[lane := Some(parents[0])];
        parentLanes := [lane];
      }
      var others := AssignOthers(parents, mergedLanes);
      parentLanes := parentLanes + others;
      assert parentLanes == Assign(old(Value()), lane, parents, mergedLanes).1;
    }

    // The loop over the parents after the first.
    method AssignOthers(parents: seq<Sha>, mergedLanes: seq<nat>) returns (parentLanes: seq<nat>)
      requires Value().Paired() && Inside(mergedLanes, |lanes|) && parents != []
      modifies this`lanes, this`colors, this`nextColor
      ensures (Value(), parentLanes) == AssignRest(old(Value()), parents[1..], mergedLanes)
    {
      hide AssignRest;
      parentLanes := [];
      var merged := mergedLanes;
      ghost var all := AssignRest(Value(), parents[1..], merged);
      for k := 1 to |parents|
        invariant Value().Paired() && Inside(merged, |lanes|)
        invariant rowCount == old(rowCount) && seen == old(seen)
        invariant var r := AssignRest(Value(), parents[k..], merged);
          r.0 == all.0 && parentLanes + r.1 == all.1
      {
        var parent := parents[k];
        assert parents[k..] == [parent] + parents[k + 1..];
        if parent in seen {
          AssignSkips(Value(), parent, parents[k + 1..], merged);
          continue;
        }
        var target: nat;
        target, merged := ReserveLane(parent, merged, parents[k + 1..]);
        parentLanes := parentLanes + [target];
      }
      assert parents[|parents|..] == [];
      AssignEnds(Value(), merged);
      assert parentLanes == parentLanes + [] == all.1;
    }

    // The body of that loop for a parent that is still to come; `rest` are the parents after it.
    method ReserveLane(parent: Sha, merged: seq<nat>, ghost rest: seq<Sha>) returns (target: nat, left: seq<nat>)
      requires Value().Paired() && Inside(merged, |lanes|) && parent !in seen
      modifies this`lanes, this`colors, this`nextColor
      ensures Value().Paired() && Inside(left, |lanes|) && seen == old(seen)
      ensures AssignRest(old(Value()), [parent] + rest, merged)
           == (var r := AssignRest(Value(), rest, left); (r.0, [target] + r.1))
    {
      hide FindFrom, Allocate;
      assert ([parent] + rest)[1..] == rest;
      left := merged;
      var existing := FindLaneWaitingFor(parent);
      if existing.Some? {
        return existing.value, merged;
      }
      if merged != [] {
        target := merged[0];
        left := merged[1..];
      } else {
        target := AllocateLane();
      }
      lanes := lanes[target := Some(parent)];
    }

    method BuildEdges(sha: Sha, lane: nat, before: seq<Option<Sha>>, parentLanes: seq<nat>) returns (edges: seq<Edge>)
      requires |before| <= |colors| && Inside(parentLanes, |colors|)
      ensures edges == TopEdges(before, sha, lane, colors, |before|) + BottomEdges(lane, parentLanes, colors)
    {
      edges := [];
      for i := 0 to |before|
        invariant edges == TopEdges(before, sha, lane, colors, i)
      {
        var target := before[i];
        if target.None? {
          continue;
        }
        if target.value == sha {
          edges := edges + [Edge(i, lane, colors[i], Incoming)];
        } else {
          edges := edges + [Edge(i, i, colors[i], Pass)];
        }
      }
      ghost var top := edges;
      for k := 0 to |parentLanes|
        invariant edges == top + BottomEdges(lane, parentLanes[..k], colors)
      {
        assert parentLanes[..k + 1][..k] == parentLanes[..k];
        edges := edges + [Edge(lane, parentLanes[k], colors[parentLanes[k]], Outgoing)];
      }
      assert parentLanes[..|parentLanes|] == parentLanes;
    }

    method TrimTrailingEmptyLanes()
      requires Value().Paired()
      modifies this`lanes, this`colors
      ensures Value() == Trim(old(Value()))
    {
      while |lanes| > 0 && lanes[|lanes| - 1].None?
        invariant Value().Paired() && |lanes| <= |old(lanes)|
        invariant lanes == old(lanes)[..|lanes|] && colors == old(colors)[..|lanes|]
        invariant TrimmedSize(lanes) == TrimmedSize(old(lanes))
      {
        lanes := lanes[..|lanes| - 1];
        colors := colors[..|colors| - 1];
      }
    }

    method PushCommit(sha: Sha, parents: seq<Sha>) returns (row: GraphRow)
      requires Value().Paired()
      modifies this
      ensures Value().Paired()
      ensures (Value(), row) == Push(old(Value()), Commit(sha, parents))
    {
      hide Claim, Assign, TopEdges, BottomEdges, Trim;
      var before := lanes;
      var lane, merged := ClaimLane(sha);
      var parentLanes := AssignParents(lane, parents, merged);
      var edges := BuildEdges(sha, lane, before, parentLanes);
      var color := colors[lane];
      TrimTrailingEmptyLanes();
      row := GraphRow(sha, lane, color, edges, Max(Max(|before|, |lanes|), lane + 1), |parents| > 1);
      rowCount := rowCount + 1;
      seen := seen + {sha};
    }
  }
}
