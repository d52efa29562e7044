// Lane placement of the commit graph (src/gitclient/domain/graph.py).
//
// The functions give the state after one commit and the row drawn for it; LaneAllocator is the
// object of the source, whose methods update its fields in place and are proved equal to them.
module Graph {
  import opened Wrappers

  type Sha = string

  const PALETTE_SIZE := 8

  datatype EdgeKind = Pass | Incoming | Outgoing

  datatype Edge = Edge(fromLane: nat, toLane: nat, color: nat, kind: EdgeKind)

  datatype GraphRow = GraphRow(sha: Sha, lane: nat, color: nat, edges: seq<Edge>, laneCount: nat, isMerge: bool)

  datatype Commit = Commit(sha: Sha, parents: seq<Sha>)

  // Each lane holds the commit it waits for, or nothing.
  type Targets = seq<Option<Sha>>

  datatype State = State(targets: Targets, colors: seq<nat>, nextColor: nat, rowCount: nat, seen: set<Sha>) {
    predicate Paired() { |targets| == |colors| }
  }

  const EMPTY := State([], [], 0, 0, {})

  function Max(a: nat, b: nat): nat { if a < b then b else a }

  // ----- Claiming a lane -----

  function FirstFree(targets: Targets, i: nat): (lane: nat)
    requires i <= |targets|
    ensures i <= lane <= |targets|
    ensures forall k :: i <= k < lane ==> targets[k].Some?
    ensures lane < |targets| ==> targets[lane] == None
    decreases |targets| - i
  {
    if i < |targets| && targets[i].Some? then FirstFree(targets, i + 1) else i
  }

  // The leftmost free lane, or a new one; it takes the next color.
  function Allocate(s: State): (r: (State, nat))
    requires s.Paired()
    ensures r.0.Paired() && |s.targets| <= |r.0.targets| && r.1 < |r.0.targets|
    ensures r.0.rowCount == s.rowCount && r.0.seen == s.seen
  {
    var lane := FirstFree(s.targets, 0);
    var color := s.nextColor % PALETTE_SIZE;
    if lane < |s.targets| then (s.(colors := s.colors[lane := color], nextColor := s.nextColor + 1), lane)
    else (s.(targets := s.targets + [None], colors := s.colors + [color], nextColor := s.nextColor + 1), lane)
  }

  function WaitingFor(targets: Targets, sha: Sha, n: nat): (lanes: seq<nat>)
    requires n <= |targets|
    ensures forall a :: 0 <= a < |lanes| ==> lanes[a] < n && targets[lanes[a]] == Some(sha)
    ensures forall i :: 0 <= i < n && targets[i] == Some(sha) ==> i in lanes
    ensures forall a, b :: 0 <= a < b < |lanes| ==> lanes[a] < lanes[b]
  {
    if n == 0 then []
    else WaitingFor(targets, sha, n - 1) + if targets[n - 1] == Some(sha) then [n - 1] else []
  }

  function Cleared(targets: Targets, sha: Sha): (r: Targets)
    ensures |r| == |targets|
    ensures forall i :: 0 <= i < |r| ==> r[i] == if targets[i] == Some(sha) then None else targets[i]
  {
    seq(|targets|, i requires 0 <= i < |targets| => if targets[i] == Some(sha) then None else targets[i])
  }

  ghost predicate Inside(lanes: seq<nat>, n: nat) { forall k :: 0 <= k < |lanes| ==> lanes[k] < n }

  // The commit's lane and the lanes merged into it.
  function Claim(s: State, sha: Sha): (r: (State, nat, seq<nat>))
    requires s.Paired()
    ensures r.0.Paired() && |s.targets| <= |r.0.targets| && r.1 < |r.0.targets| && Inside(r.2, |r.0.targets|)
  {
    var waiting := WaitingFor(s.targets, sha, |s.targets|);
    if waiting == [] then
      var (s', lane) := Allocate(s);
      (s', lane, [])
    else (s.(targets := Cleared(s.targets, sha)), waiting[0], waiting[1..])
  }

  // ----- Reserving lanes for the parents -----

  function FindFrom(targets: Targets, sha: Sha, i: nat): (lane: nat)
    requires i <= |targets|
    ensures i <= lane <= |targets|
    ensures forall k :: i <= k < lane ==> targets[k] != Some(sha)
    ensures lane < |targets| ==> targets[lane] == Some(sha)
    decreases |targets| - i
  {
    if i < |targets| && targets[i] != Some(sha) then FindFrom(targets, sha, i + 1) else i
  }

  // The lanes of the parents after the first, given the merged lanes still free for reuse.
  function AssignRest(s: State, parents: seq<Sha>, merged: seq<nat>): (r: (State, seq<nat>))
    requires s.Paired() && Inside(merged, |s.targets|)
    ensures r.0.Paired() && |s.targets| <= |r.0.targets| && Inside(r.1, |r.0.targets|)
    decreases parents
  {
    if parents == [] then (s, [])
    else
      var parent := parents[0];
      if parent in s.seen then AssignRest(s, parents[1..], merged)
      else
        var existing := FindFrom(s.targets, parent, 0);
        if existing < |s.targets| then
          var r := AssignRest(s, parents[1..], merged);
          (r.0, [existing] + r.1)
        else if merged != [] then
          var s' := s.(targets := s.targets[merged[0] := Some(parent)]);
          var r := AssignRest(s', parents[1..], merged[1..]);
          (r.0, [merged[0]] + r.1)
        else
          var (a, lane) := Allocate(s);
          var s' := a.(targets := a.targets[lane := Some(parent)]);
          var r := AssignRest(s', parents[1..], []);
          (r.0, [lane] + r.1)
  }

  function Assign(s: State, lane: nat, parents: seq<Sha>, merged: seq<nat>): (r: (State, seq<nat>))
    requires s.Paired() && lane < |s.targets| && Inside(merged, |s.targets|)
    ensures r.0.Paired() && |s.targets| <= |r.0.targets| && Inside(r.1, |r.0.targets|)
  {
    if parents == [] then (s.(targets := s.targets[lane := None]), [])
    else if parents[0] in s.seen then AssignRest(s.(targets := s.targets[lane := None]), parents[1..], merged)
    else
      var r := AssignRest(s.(targets := s.targets[lane := Some(parents[0])]), parents[1..], merged);
      (r.0, [lane] + r.1)
  }

  // ----- The row -----

  // The lines entering the row from above, for the first n lanes.
  function TopEdges(before: Targets, sha: Sha, lane: nat, colors: seq<nat>, n: nat): seq<Edge>
    requires n <= |before| <= |colors|
  {
    if n == 0 then []
    else
      TopEdges(before, sha, lane, colors, n - 1)
      + match before[n - 1]
        case None => []
        case Some(t) =>
          if t == sha then [Edge(n - 1, lane, colors[n - 1], Incoming)] else [Edge(n - 1, n - 1, colors[n - 1], Pass)]
  }

  // The lines leaving the commit, one for each parent lane.
  function BottomEdges(lane: nat, lanes: seq<nat>, colors: seq<nat>): (es: seq<Edge>)
    requires Inside(lanes, |colors|)
    ensures |es| == |lanes|
    ensures forall k :: 0 <= k < |es| ==> es[k] == Edge(lane, lanes[k], colors[lanes[k]], Outgoing)
  {
    if lanes == [] then []
    else
      BottomEdges(lane, lanes[..|lanes| - 1], colors)
      + [Edge(lane, lanes[|lanes| - 1], colors[lanes[|lanes| - 1]], Outgoing)]
  }

  function TrimmedSize(targets: Targets): (n: nat)
    ensures n <= |targets|
    ensures n > 0 ==> targets[n - 1].Some?
    ensures forall i :: n <= i < |targets| ==> targets[i] == None
  {
    if targets != [] && targets[|targets| - 1] == None then TrimmedSize(targets[..|targets| - 1]) else |targets|
  }

  function Trim(s: State): (r: State)
    requires s.Paired()
    ensures r.Paired() && |r.targets| <= |s.targets|
  {
    var n := TrimmedSize(s.targets);
    s.(targets := s.targets[..n], colors := s.colors[..n])
  }

  // ----- One commit -----

  function Push(s: State, c: Commit): (r: (State, GraphRow))
    requires s.Paired()
    ensures r.0.Paired()
  {
    var (claimed, lane, merged) := Claim(s, c.sha);
    var (reserved, lanes) := Assign(claimed, lane, c.parents, merged);
    var edges := TopEdges(s.targets, c.sha, lane, reserved.colors, |s.targets|)
      + BottomEdges(lane, lanes, reserved.colors);
    var trimmed := Trim(reserved);
    (trimmed.(rowCount := s.rowCount + 1, seen := s.seen + {c.sha}),
     GraphRow(c.sha, lane, reserved.colors[lane], edges,
              Max(Max(|s.targets|, |trimmed.targets|), lane + 1), |c.parents| > 1))
  }
}
