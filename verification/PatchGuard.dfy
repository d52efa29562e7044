// What the guard against ambiguous selections protects (src/gitclient/domain/patch.py:312-375).
//
// A block is a run of changed lines with the end-of-file markers inside it. The guard is meant to
// reject a selection that would leave deleted lines in front of chosen additions of the same
// block. It computes the coordinates of a block's lines by counting, so a marker in the middle
// makes them drift, and it looks at deletions and additions the same way in both directions.
module PatchGuard {
  import opened Wrappers
  import opened Patch
  import opened PatchApply

  // ----- Blocks -----

  // Between the last line outside any run and s there are only markers.
  predicate MarkersOnlyBefore(lines: seq<PatchLine>, s: nat)
    requires s <= |lines|
  {
    s == 0 || !InRun(lines[s - 1]) || (lines[s - 1].IsMarker() && !lines[s - 1].IsChange() && MarkersOnlyBefore(lines, s - 1))
  }

  predicate StartsBlock(lines: seq<PatchLine>, s: nat) {
    s < |lines| && lines[s].IsChange() && MarkersOnlyBefore(lines, s)
  }

  function BlockAt(lines: seq<PatchLine>, s: nat): Block
    requires s <= |lines|
  {
    var e := RunEnd(lines, s);
    Block(s, Pick(lines, s, e, '-'), Pick(lines, s, e, '+'))
  }

  lemma {:induction false} NoBlockStartsInside(lines: seq<PatchLine>, i: nat, s: nat)
    requires i < s <= |lines| && lines[i].IsChange()
    requires forall k :: i <= k < s ==> InRun(lines[k])
    ensures !MarkersOnlyBefore(lines, s)
  {
    if i < s - 1 {
      NoBlockStartsInside(lines, i, s - 1);
    }
  }

  // The list of blocks holds exactly the declared ones.
  lemma {:induction false} BlocksAreListed(lines: seq<PatchLine>, i: nat)
    requires i <= |lines|
    requires i == |lines| || !InRun(lines[i]) || MarkersOnlyBefore(lines, i)
    ensures forall k :: 0 <= k < |BlocksFrom(lines, i)| ==>
      var b := BlocksFrom(lines, i)[k]; StartsBlock(lines, b.start) && b == BlockAt(lines, b.start)
    ensures forall s: nat :: i <= s && StartsBlock(lines, s) ==> BlockAt(lines, s) in BlocksFrom(lines, i)
    decreases |lines| - i
  {
    hide Pick;
    if i < |lines| {
      if !lines[i].IsChange() {
        BlocksAreListed(lines, i + 1);
      } else {
        var e := RunEnd(lines, i);
        BlocksAreListed(lines, e);
        forall s: nat | i < s < e ensures !StartsBlock(lines, s) {
          NoBlockStartsInside(lines, i, s);
        }
      }
    }
  }

  lemma GuardRejectsIff(lines: seq<PatchLine>, h: nat, sel: set<(nat, nat)>)
    ensures GuardRejects(lines, h, Some(sel))
      <==> exists s: nat :: StartsBlock(lines, s) && BlockRejected(BlockAt(lines, s), h, sel)
  {
    BlocksAreListed(lines, 0);
    hide Pick, BlockRejected, BlocksFrom, MarkersOnlyBefore;
    var blocks := BlocksFrom(lines, 0);
    forall s: nat | StartsBlock(lines, s) && BlockRejected(BlockAt(lines, s), h, sel)
      ensures GuardRejects(lines, h, Some(sel))
    {
      var k :| 0 <= k < |blocks| && blocks[k] == BlockAt(lines, s);
    }
    forall k | 0 <= k < |blocks| && BlockRejected(blocks[k], h, sel)
      ensures exists s: nat :: StartsBlock(lines, s) && BlockRejected(BlockAt(lines, s), h, sel)
    {
      assert StartsBlock(lines, blocks[k].start);
    }
  }

  // ----- What the guard is for -----

  // In [s, e) a chosen old line and a chosen new line stand together: neither order of them is
  // the order of a file the user saw.
  ghost predicate Mixes(lines: seq<PatchLine>, h: nat, s: nat, e: nat, sel: Selection, reverse: bool)
    requires s <= e <= |lines|
  {
    exists i: nat, j: nat :: s <= i < e && s <= j < e && lines[i].origin == '-' && lines[j].origin == '+'
      && IsChosen(lines[i], Keeps(sel, h, i), reverse) && IsChosen(lines[j], Keeps(sel, h, j), reverse)
  }

  predicate IsGroup(lines: seq<PatchLine>, s: nat) {
    StartsBlock(lines, s) && |BlockAt(lines, s).deletions| > 1
  }

  // Some block of two or more deletions mixes.
  ghost predicate SomeGroupMixes(lines: seq<PatchLine>, h: nat, sel: Selection, reverse: bool) {
    exists s: nat :: IsGroup(lines, s) && Mixes(lines, h, s, RunEnd(lines, s), sel, reverse)
  }

  // As git writes diffs: within a run, deletions come before additions.
  ghost predicate DeletionsFirst(lines: seq<PatchLine>) {
    forall s: nat, i: nat, j: nat :: StartsBlock(lines, s) && s <= i < j < RunEnd(lines, s) && lines[i].origin == '+'
      ==> lines[j].origin != '-'
  }

  // No marker stands before the last addition of the block at s.
  ghost predicate MarkersLast(lines: seq<PatchLine>, s: nat)
    requires s <= |lines|
  {
    forall k: nat, j: nat :: s <= k < j < RunEnd(lines, s) && lines[k].IsMarker() ==> lines[j].origin != '+'
  }

  // ----- Counting inside a block -----

  ghost predicate OrderedIn(lines: seq<PatchLine>, s: nat, m: nat)
    requires s <= m <= |lines|
  {
    forall i: nat, j: nat :: s <= i < j < m && lines[i].origin == '+' ==> lines[j].origin != '-'
  }

  function PickSize(lines: seq<PatchLine>, s: nat, m: nat, origin: char): nat
    requires s <= m <= |lines|
  {
    |Pick(lines, s, m, origin)|
  }

  lemma {:induction false} PickIsBounded(lines: seq<PatchLine>, s: nat, m: nat)
    requires s <= m <= |lines|
    ensures PickSize(lines, s, m, '-') + PickSize(lines, s, m, '+') <= m - s
    ensures (exists k :: s <= k < m && !lines[k].IsChange())
      ==> PickSize(lines, s, m, '-') + PickSize(lines, s, m, '+') < m - s
    decreases m
  {
    if s < m {
      PickIsBounded(lines, s, m - 1);
    }
  }

  // Without other lines between them, the deletions are the first lines of the block and the
  // additions the next ones.
  lemma {:induction false} PositionsAreCounts(lines: seq<PatchLine>, s: nat, m: nat)
    requires s <= m <= |lines| && OrderedIn(lines, s, m)
    requires forall k :: s <= k < m ==> lines[k].IsChange()
    ensures PickSize(lines, s, m, '-') + PickSize(lines, s, m, '+') == m - s
    ensures forall k :: s <= k < m ==> (lines[k].origin == '-' <==> k < s + PickSize(lines, s, m, '-'))
    decreases m
  {
    if s < m {
      PositionsAreCounts(lines, s, m - 1);
    }
  }

  lemma {:induction false} NothingMoreToPick(lines: seq<PatchLine>, s: nat, m: nat, e: nat, origin: char)
    requires s <= m <= e <= |lines|
    requires forall k :: m <= k < e ==> lines[k].origin != origin
    ensures PickSize(lines, s, e, origin) == PickSize(lines, s, m, origin)
    decreases e
  {
    if m < e {
      NothingMoreToPick(lines, s, m, e - 1, origin);
    }
  }

  // The first `deletions` positions of an ordered block hold no addition.
  lemma {:induction false} AdditionsComeAfter(lines: seq<PatchLine>, s: nat, m: nat, e: nat)
    requires s <= m < e <= |lines| && OrderedIn(lines, s, e) && lines[m].origin == '+'
    ensures s + PickSize(lines, s, e, '-') <= m
  {
    NothingMoreToPick(lines, s, m, e, '-');
    PickIsBounded(lines, s, m);
  }

  lemma {:induction false} LastAddition(lines: seq<PatchLine>, s: nat, e: nat) returns (last: nat)
    requires s <= e <= |lines|
    requires exists j :: s <= j < e && lines[j].origin == '+'
    ensures s <= last < e && lines[last].origin == '+'
    ensures forall k :: last < k < e ==> lines[k].origin != '+'
    decreases e
  {
    last := e - 1;
    if lines[last].origin != '+' {
      last := LastAddition(lines, s, e - 1);
    }
  }

  // With the markers last, the guard's coordinates are those of the block's lines, and the guard
  // rejects exactly the selections that mix.
  lemma BlockGuardIsExact(lines: seq<PatchLine>, h: nat, s: nat, sel: set<(nat, nat)>)
    requires IsGroup(lines, s) && DeletionsFirst(lines) && MarkersLast(lines, s)
    ensures BlockRejected(BlockAt(lines, s), h, sel) <==> Mixes(lines, h, s, RunEnd(lines, s), Some(sel), false)
  {
    hide Pick, MarkersOnlyBefore, RunEnd;
    var e := RunEnd(lines, s);
    assert OrderedIn(lines, s, e);
    var nd, na := PickSize(lines, s, e, '-'), PickSize(lines, s, e, '+');
    if exists j :: s <= j < e && lines[j].origin == '+' {
      var last := LastAddition(lines, s, e);
      PositionsAreCounts(lines, s, last + 1);
      NothingMoreToPick(lines, s, last + 1, e, '-');
      NothingMoreToPick(lines, s, last + 1, e, '+');
      assert s + nd + na == last + 1;
      assert forall k :: s <= k < e ==> (lines[k].origin == '-' <==> k < s + nd);
      assert forall k :: s <= k < e ==> (lines[k].origin == '+' <==> s + nd <= k < s + nd + na);
      GuardPositions(lines, h, s, e, nd, na, sel);
    } else {
      NothingToPick(lines, s, e);
    }
  }

  lemma NothingToPick(lines: seq<PatchLine>, s: nat, e: nat)
    requires s <= e <= |lines| && forall j :: s <= j < e ==> lines[j].origin != '+'
    ensures PickSize(lines, s, e, '+') == 0
  {
    NothingMoreToPick(lines, s, s, e, '+');
  }

  lemma GuardPositions(lines: seq<PatchLine>, h: nat, s: nat, e: nat, nd: nat, na: nat, sel: set<(nat, nat)>)
    requires s <= e <= |lines| && s + nd + na <= e
    requires forall k :: s <= k < e ==> (lines[k].origin == '-' <==> k < s + nd)
    requires forall k :: s <= k < e ==> (lines[k].origin == '+' <==> s + nd <= k < s + nd + na)
    ensures SomeUnselected(sel, h, s, nd) && SomeSelected(sel, h, s + nd, na)
      <==> Mixes(lines, h, s, e, Some(sel), false)
  {
    if SomeUnselected(sel, h, s, nd) && SomeSelected(sel, h, s + nd, na) {
      var i: nat :| s <= i < s + nd && (h, i) !in sel;
      var j: nat :| s + nd <= j < s + nd + na && (h, j) in sel;
      assert IsChosen(lines[i], Keeps(Some(sel), h, i), false) && IsChosen(lines[j], Keeps(Some(sel), h, j), false);
    }
    if Mixes(lines, h, s, e, Some(sel), false) {
      var i: nat, j: nat :| s <= i < e && s <= j < e && lines[i].origin == '-' && lines[j].origin == '+'
        && IsChosen(lines[i], Keeps(Some(sel), h, i), false) && IsChosen(lines[j], Keeps(Some(sel), h, j), false);
      assert (h, i) !in sel && (h, j) in sel;
    }
  }

  // A marker before the last addition: selecting that addition alone mixes, and the guard does
  // not see it.
  lemma DriftedAdditionPasses(lines: seq<PatchLine>, h: nat, s: nat) returns (sel: set<(nat, nat)>)
    requires IsGroup(lines, s) && DeletionsFirst(lines) && !MarkersLast(lines, s)
    ensures Mixes(lines, h, s, RunEnd(lines, s), Some(sel), false)
    ensures forall r: nat :: StartsBlock(lines, r) ==> !BlockRejected(BlockAt(lines, r), h, sel)
  {
    hide Pick, MarkersOnlyBefore;
    var e := RunEnd(lines, s);
    var k: nat, j: nat :| s <= k < j < e && lines[k].IsMarker() && lines[j].origin == '+';
    var last := LastAddition(lines, s, e);
    sel := {(h, last)};
    var del := SomeOf(lines, s, e, '-');
    assert IsChosen(lines[del], Keeps(Some(sel), h, del), false) && IsChosen(lines[last], Keeps(Some(sel), h, last), false);
    forall r: nat | StartsBlock(lines, r) ensures !BlockRejected(BlockAt(lines, r), h, sel) {
      LoneAdditionPasses(lines, h, s, k, last, r);
    }
  }

  // The guard looks for the last addition of a block with a marker at an earlier place.
  lemma LoneAdditionPasses(lines: seq<PatchLine>, h: nat, s: nat, k: nat, last: nat, r: nat)
    requires IsGroup(lines, s) && DeletionsFirst(lines) && StartsBlock(lines, r)
    requires s <= k < last < RunEnd(lines, s) && lines[k].IsMarker()
    requires forall j :: last < j < RunEnd(lines, s) ==> lines[j].origin != '+'
    requires lines[last].origin == '+'
    ensures !BlockRejected(BlockAt(lines, r), h, {(h, last)})
  {
    hide Pick, MarkersOnlyBefore;
    PickIsBounded(lines, r, RunEnd(lines, r));
    if r == s {
      var e := RunEnd(lines, s);
      PickIsBounded(lines, s, last + 1);
      assert OrderedIn(lines, s, e);
      NothingMoreToPick(lines, s, last + 1, e, '-');
      NothingMoreToPick(lines, s, last + 1, e, '+');
    } else {
      BlocksAreDisjoint(lines, r, s, last);
    }
  }

  lemma {:induction false} SomeOf(lines: seq<PatchLine>, s: nat, e: nat, origin: char) returns (i: nat)
    requires s <= e <= |lines| && PickSize(lines, s, e, origin) > 0
    ensures s <= i < e && lines[i].origin == origin
    decreases e
  {
    i := e - 1;
    if lines[i].origin != origin {
      i := SomeOf(lines, s, e - 1, origin);
    }
  }

  lemma BlocksAreDisjoint(lines: seq<PatchLine>, r: nat, s: nat, m: nat)
    requires StartsBlock(lines, r) && StartsBlock(lines, s) && r != s && s <= m < RunEnd(lines, s)
    ensures !(r <= m < RunEnd(lines, r))
  {
    if r <= m < RunEnd(lines, r) {
      if r < s {
        NoBlockStartsInside(lines, r, s);
      } else {
        NoBlockStartsInside(lines, s, r);
      }
    }
  }

  ghost predicate GuardAgrees(lines: seq<PatchLine>, h: nat, sel: set<(nat, nat)>) {
    GuardRejects(lines, h, Some(sel)) <==> SomeGroupMixes(lines, h, Some(sel), false)
  }

  // Main result on the guard, staging: it rejects exactly the selections that mix, whatever the
  // selection, if and only if no marker stands before an addition of a block of two or more
  // deletions.
  lemma GuardIsExactIff(lines: seq<PatchLine>, h: nat)
    requires DeletionsFirst(lines)
    ensures (forall sel: set<(nat, nat)> :: GuardAgrees(lines, h, sel))
      <==> (forall s: nat :: IsGroup(lines, s) ==> MarkersLast(lines, s))
  {
    hide BlockRejected, Mixes, MarkersLast, DeletionsFirst, StartsBlock, GuardRejects;
    if forall s: nat :: IsGroup(lines, s) ==> MarkersLast(lines, s) {
      forall sel: set<(nat, nat)> ensures GuardAgrees(lines, h, sel) {
        GuardRejectsIff(lines, h, sel);
        forall s: nat | StartsBlock(lines, s)
          ensures BlockRejected(BlockAt(lines, s), h, sel)
            <==> IsGroup(lines, s) && Mixes(lines, h, s, RunEnd(lines, s), Some(sel), false)
        {
          RejectedOnlyInGroups(lines, h, s, sel);
          if IsGroup(lines, s) {
            BlockGuardIsExact(lines, h, s, sel);
          }
        }
      }
    } else {
      var s: nat :| IsGroup(lines, s) && !MarkersLast(lines, s);
      var sel := DriftedAdditionPasses(lines, h, s);
      GuardRejectsIff(lines, h, sel);
      assert SomeGroupMixes(lines, h, Some(sel), false);
      assert !GuardAgrees(lines, h, sel);
    }
  }

  lemma RejectedOnlyInGroups(lines: seq<PatchLine>, h: nat, s: nat, sel: set<(nat, nat)>)
    requires StartsBlock(lines, s)
    ensures BlockRejected(BlockAt(lines, s), h, sel) ==> IsGroup(lines, s)
  {
  }

  ghost predicate GuardProtectsReverse(lines: seq<PatchLine>, h: nat, sel: set<(nat, nat)>) {
    !GuardRejects(lines, h, Some(sel)) ==> !SomeGroupMixes(lines, h, Some(sel), true)
  }

  // Main result on the guard, unstaging: it does not look at the direction, so it keeps every
  // accepted selection from mixing only if no block of two or more deletions has an addition.
  lemma GuardProtectsReverseIff(lines: seq<PatchLine>, h: nat)
    requires DeletionsFirst(lines)
    ensures (forall sel: set<(nat, nat)> :: GuardProtectsReverse(lines, h, sel))
      <==> (forall s: nat :: IsGroup(lines, s) ==> |BlockAt(lines, s).additions| == 0)
  {
    hide Pick, MarkersOnlyBefore;
    if s: nat :| IsGroup(lines, s) && |BlockAt(lines, s).additions| > 0 {
      var sel := AllButAdditions(lines, h);
      GuardRejectsIff(lines, h, sel);
      var e := RunEnd(lines, s);
      var del := SomeOf(lines, s, e, '-');
      var add := SomeOf(lines, s, e, '+');
      assert IsChosen(lines[del], Keeps(Some(sel), h, del), true) && IsChosen(lines[add], Keeps(Some(sel), h, add), true);
      assert SomeGroupMixes(lines, h, Some(sel), true);
      assert !GuardProtectsReverse(lines, h, sel);
    } else {
      forall sel: set<(nat, nat)> ensures !SomeGroupMixes(lines, h, Some(sel), true) {
        forall s: nat, j: nat | IsGroup(lines, s) && s <= j < RunEnd(lines, s) ensures lines[j].origin != '+' {
          assert |BlockAt(lines, s).additions| == 0;
          NoneOf(lines, s, RunEnd(lines, s), j, '+');
        }
      }
    }
  }

  // Unstaging removes additions, so there a group is a block of two or more of them.
  predicate IsAddedGroup(lines: seq<PatchLine>, s: nat) {
    StartsBlock(lines, s) && |BlockAt(lines, s).additions| > 1
  }

  ghost predicate SomeAddedGroupMixes(lines: seq<PatchLine>, h: nat, sel: Selection) {
    exists s: nat :: IsAddedGroup(lines, s) && Mixes(lines, h, s, RunEnd(lines, s), sel, true)
  }

  ghost predicate GuardProtectsAdditions(lines: seq<PatchLine>, h: nat, sel: set<(nat, nat)>) {
    !GuardRejects(lines, h, Some(sel)) ==> !SomeAddedGroupMixes(lines, h, Some(sel))
  }

  // The same for the groups of the index side when unstaging: they are protected only if none of
  // them has a deletion.
  lemma GuardProtectsAdditionsIff(lines: seq<PatchLine>, h: nat)
    requires DeletionsFirst(lines)
    ensures (forall sel: set<(nat, nat)> :: GuardProtectsAdditions(lines, h, sel))
      <==> (forall s: nat :: IsAddedGroup(lines, s) ==> |BlockAt(lines, s).deletions| == 0)
  {
    hide Pick, MarkersOnlyBefore;
    if s: nat :| IsAddedGroup(lines, s) && |BlockAt(lines, s).deletions| > 0 {
      var sel := AllButAdditions(lines, h);
      GuardRejectsIff(lines, h, sel);
      var e := RunEnd(lines, s);
      var del := SomeOf(lines, s, e, '-');
      var add := SomeOf(lines, s, e, '+');
      assert IsChosen(lines[del], Keeps(Some(sel), h, del), true) && IsChosen(lines[add], Keeps(Some(sel), h, add), true);
      assert SomeAddedGroupMixes(lines, h, Some(sel));
      assert !GuardProtectsAdditions(lines, h, sel);
    } else {
      forall sel: set<(nat, nat)> ensures !SomeAddedGroupMixes(lines, h, Some(sel)) {
        forall s: nat, j: nat | IsAddedGroup(lines, s) && s <= j < RunEnd(lines, s) ensures lines[j].origin != '-' {
          assert |BlockAt(lines, s).deletions| == 0;
          NoneOf(lines, s, RunEnd(lines, s), j, '-');
        }
      }
    }
  }

  lemma {:induction false} NoneOf(lines: seq<PatchLine>, s: nat, e: nat, j: nat, origin: char)
    requires s <= j < e <= |lines| && PickSize(lines, s, e, origin) == 0
    ensures lines[j].origin != origin
    decreases e
  {
    if j < e - 1 {
      NoneOf(lines, s, e - 1, j, origin);
    }
  }

  // Every coordinate of the hunk but those of additions: no deletion is left out, so the guard
  // accepts.
  lemma AllButAdditions(lines: seq<PatchLine>, h: nat) returns (sel: set<(nat, nat)>)
    requires DeletionsFirst(lines)
    ensures forall i: nat :: i < |lines| ==> ((h, i) in sel <==> lines[i].origin != '+')
    ensures forall r: nat :: StartsBlock(lines, r) ==> !BlockRejected(BlockAt(lines, r), h, sel)
  {
    hide Pick, MarkersOnlyBefore;
    sel := set i: nat | i < |lines| && lines[i].origin != '+' :: (h, i);
    forall r: nat | StartsBlock(lines, r) ensures !BlockRejected(BlockAt(lines, r), h, sel) {
      var f := RunEnd(lines, r);
      PickIsBounded(lines, r, f);
      assert OrderedIn(lines, r, f);
      forall i: nat | r <= i < r + PickSize(lines, r, f, '-') ensures (h, i) in sel {
        if lines[i].origin == '+' {
          AdditionsComeAfter(lines, r, i, f);
        }
      }
    }
  }
}
