// What a clone removes when it does not succeed (src/gitclient/application/remote_workers.py).
//
// The file tree maps each path to what is there. Deleting a path in `stuck` fails.
module CloneCleanup {
  type Path = seq<string>

  datatype Node = Dir | File(size: nat) | Link(alive: bool, toDir: bool)

  type Tree = map<Path, Node>

  // ----- Looking at the tree -----

  predicate Exists(t: Tree, p: Path) { p in t && (t[p].Link? ==> t[p].alive) }

  predicate IsDir(t: Tree, p: Path) { p in t && (t[p].Dir? || (t[p].Link? && t[p].alive && t[p].toDir)) }

  predicate IsChild(p: Path, q: Path) { p <= q && |q| == |p| + 1 }

  function Children(t: Tree, p: Path): set<Path> { set q | q in t && IsChild(p, q) }

  // Everything but the root lies in a directory.
  ghost predicate IsTree(t: Tree) {
    forall p :: p in t && p != [] ==> p[..|p| - 1] in t && t[p[..|p| - 1]].Dir?
  }

  // Strictly below p.
  predicate Below(p: Path, q: Path) { p < q }

  lemma {:induction false} BelowNeedsAChild(t: Tree, p: Path, q: Path)
    requires IsTree(t) && q in t && Below(p, q)
    ensures q[..|p| + 1] in Children(t, p) && p in t && t[p].Dir?
    decreases |q|
  {
    var up := q[..|q| - 1];
    if |up| > |p| {
      BelowNeedsAChild(t, p, up);
      assert up[..|p| + 1] == q[..|p| + 1];
    } else {
      assert up == p && q[..|p| + 1] == q;
    }
  }

  // ----- Deciding, before the clone starts -----

  // Only an absent destination or an empty directory of the user's may be cleaned up later.
  function CleanupPolicy(t: Tree, dest: Path): bool {
    if dest in t && t[dest].Link? then false
    else if !Exists(t, dest) then true
    else if !IsDir(t, dest) then false
    else Children(t, dest) == {}
  }

  // Have refs been written? Git writes them only after all objects have arrived.
  predicate HasCompleteRepository(t: Tree, dest: Path) {
    var gitDir := dest + [".git"];
    var heads := gitDir + ["refs", "heads"];
    var packed := gitDir + ["packed-refs"];
    && Exists(t, gitDir)
    && (Exists(t, heads) ==> IsDir(t, heads)) // listing anything else raises, which counts as incomplete
    && ((Exists(t, heads) && Children(t, heads) != {})
        || (Exists(t, packed) && packed in t && t[packed].File? && t[packed].size > 0))
  }

  // ----- Removing -----

  // A stuck path keeps the directories above it.
  predicate Held(t: Tree, q: Path, stuck: set<Path>) { exists s :: s in stuck && s in t && q <= s }

  function RemoveTree(t: Tree, p: Path, stuck: set<Path>): Tree {
    map q | q in t && (!(p <= q) || Held(t, q, stuck)) :: t[q]
  }

  class CloneWorker {
    var tree: Tree
    const destination: Path
    const createdDestination: bool
    const cleanupAllowed: bool
    var started: bool
    var succeeded: bool

    constructor (t: Tree, dest: Path)
      ensures tree == t && destination == dest && !started && !succeeded
      ensures createdDestination == !Exists(t, dest) && cleanupAllowed == CleanupPolicy(t, dest)
    {
      tree, destination := t, dest;
      started, succeeded := false, false;
      createdDestination := !Exists(t, dest);
      cleanupAllowed := CleanupPolicy(t, dest);
    }

    method RemovePath(p: Path, stuck: set<Path>)
      modifies this`tree
      ensures tree == RemoveTree(old(tree), p, stuck)
    {
      tree := RemoveTree(tree, p, stuck);
    }

    // Removes one entry of the destination; false when that fails, which ends the cleaning.
    method RemoveChild(child: Path, stuck: set<Path>, ghost was: Tree) returns (ok: bool)
      requires child in tree && forall q :: q in tree ==> q in was && tree[q] == was[q]
      modifies this`tree
      ensures forall q :: q in tree ==> q in old(tree) && tree[q] == old(tree)[q]
      ensures forall q :: q in old(tree) && q !in tree ==> child <= q
      ensures stuck == {} && IsTree(was) ==> ok && forall q :: q in tree ==> !(child <= q)
    {
      if tree[child].Dir? {
        RemovePath(child, stuck);
        return true;
      }
      if child in stuck {
        return false;
      }
      if IsTree(was) {
        LeavesAreAlone(was, tree, child);
      }
      tree := map q | q in tree && q != child :: tree[q];
      return true;
    }

    // Empties or removes the destination. `order` is the order in which the directory is listed.
    method CleanPartialClone(order: seq<Path>, stuck: set<Path>)
      requires forall k :: 0 <= k < |order| ==> order[k] in Children(tree, destination)
      requires forall j, k :: 0 <= j < k < |order| ==> order[j] != order[k]
      requires !createdDestination ==> forall q :: q in Children(tree, destination) ==> q in order
      modifies this`tree
      ensures forall q :: q in tree ==> q in old(tree) && tree[q] == old(tree)[q]
      ensures forall q :: q in old(tree) && q !in tree ==>
        Below(destination, q) || (createdDestination && q == destination)
      ensures createdDestination ==> tree == RemoveTree(old(tree), destination, stuck)
      ensures !createdDestination && stuck == {} && IsTree(old(tree)) ==>
        forall q :: q in tree ==> !Below(destination, q)
    {
      hide IsTree;
      if createdDestination {
        RemovePath(destination, stuck);
        return;
      }
      ghost var was := tree;
      for k := 0 to |order|
        invariant forall q :: q in tree ==> q in was && tree[q] == was[q]
        invariant forall q :: q in was && q !in tree ==> Below(destination, q)
        invariant stuck == {} && IsTree(was) ==> forall q, j :: q in tree && 0 <= j < k ==> !(order[j] <= q)
        invariant forall j :: k <= j < |order| ==> order[j] in tree
      {
        assert IsChild(destination, order[k]);
        assert forall j :: k < j < |order| ==> !(order[k] <= order[j]) by {
          forall j | k < j < |order| ensures !(order[k] <= order[j]) {
            assert IsChild(destination, order[j]);
          }
        }
        var ok := RemoveChild(order[k], stuck, was);
        if !ok {
          return;
        }
      }
      if stuck == {} && IsTree(was) {
        forall q | q in tree ensures !Below(destination, q) {
          if Below(destination, q) {
            BelowNeedsAChild(was, destination, q);
          }
        }
      }
    }

    // The end of run(), after the worker has retired.
    method FinishRun(order: seq<Path>, stuck: set<Path>)
      requires forall k :: 0 <= k < |order| ==> order[k] in Children(tree, destination)
      requires forall j, k :: 0 <= j < k < |order| ==> order[j] != order[k]
      requires forall q :: q in Children(tree, destination) ==> q in order
      modifies this`tree
      ensures forall q :: q in tree ==> q in old(tree) && tree[q] == old(tree)[q]
      ensures forall q :: q in old(tree) && q !in tree ==>
        cleanupAllowed && !succeeded && (Below(destination, q) || (createdDestination && q == destination))
      ensures HasCompleteRepository(old(tree), destination) && started ==> tree == old(tree)
      ensures !started && !IsDir(old(tree), destination) ==> tree == old(tree)
      ensures !started && Children(old(tree), destination) != {} ==> tree == old(tree)
      ensures (cleanupAllowed && !started && !succeeded && createdDestination && destination in old(tree)
               && old(tree)[destination].Dir? && Children(old(tree), destination) == {} && stuck == {})
        ==> destination !in tree
      ensures (cleanupAllowed && started && !succeeded && !HasCompleteRepository(old(tree), destination)
               && Exists(old(tree), destination) && stuck == {} && IsTree(old(tree)))
        ==> forall q :: q in tree ==> !Below(destination, q) && (createdDestination ==> q != destination)
    {
      if succeeded || !cleanupAllowed {
        return;
      }
      if !started {
        if Exists(tree, destination) && IsDir(tree, destination) && Children(tree, destination) == {} {
          CleanPartialClone(order, stuck);
        }
        return;
      }
      if Exists(tree, destination) && !HasCompleteRepository(tree, destination) {
        CleanPartialClone(order, stuck);
      }
    }
  }

  // What is not in the tree as a directory has nothing below it.
  lemma LeavesAreAlone(was: Tree, t: Tree, child: Path)
    requires IsTree(was) && child in t && !t[child].Dir?
    requires forall q :: q in t ==> q in was && t[q] == was[q]
    ensures forall q :: q in t && child <= q ==> q == child
  {
    forall q | q in t && child < q ensures false {
      BelowNeedsAChild(was, child, q);
    }
  }

  // ----- A whole clone -----

  // What git and the operating system do between construction and the end of the run: nothing
  // that was there is touched, and new paths appear, if git was started at all.
  ghost predicate OnlyAdds(before: Tree, after: Tree, dest: Path, started: bool) {
    && IsTree(after)
    && (dest in after && dest !in before ==> after[dest].Dir?)
    && (forall p :: p in before ==> p in after && after[p] == before[p])
    && (!started ==> after == before)
  }

  // Main result. Whatever happens to the clone - success, failure, an early or a late cancel,
  // deletions that fail - every path present when the worker was made is there afterwards. When
  // the clone fails without refs and deletions work, the destination is absent or empty as it
  // was; when refs were written, or cleaning up is not allowed, everything stays.
  method CloneOnce(
    before: Tree, dest: Path, after: Tree, started: bool, succeeded: bool, order: seq<Path>, stuck: set<Path>)
    returns (result: Tree)
    requires IsTree(before) && OnlyAdds(before, after, dest, started) && (succeeded ==> started)
    requires forall j, k :: 0 <= j < k < |order| ==> order[j] != order[k]
    requires forall q :: q in order <==> q in Children(after, dest)
    ensures forall p :: p in before ==> p in result && result[p] == before[p]
    ensures forall p :: p in result ==> p in after && result[p] == after[p]
    ensures succeeded || !CleanupPolicy(before, dest) || HasCompleteRepository(after, dest) ==> result == after
    ensures !succeeded && CleanupPolicy(before, dest) && !HasCompleteRepository(after, dest) && stuck == {} ==>
      && (forall q :: q in result ==> !Below(dest, q))
      && (dest in result <==> dest in before)
  {
    hide CleanupPolicy, HasCompleteRepository;
    var worker := new CloneWorker(before, dest);
    worker.tree, worker.started, worker.succeeded := after, started, succeeded;
    PolicyMeansNothingBelow(before, dest);
    assert forall k :: 0 <= k < |order| ==> order[k] in order;
    worker.FinishRun(order, stuck);
    result := worker.tree;
    if !succeeded && CleanupPolicy(before, dest) && !HasCompleteRepository(after, dest) && stuck == {} {
      NothingBelowWhatIsAbsent(after, dest);
    }
  }

  // Where cleaning up is allowed, nothing of the user's lies below the destination.
  lemma PolicyMeansNothingBelow(t: Tree, dest: Path)
    requires IsTree(t)
    ensures CleanupPolicy(t, dest) ==> forall q :: q in t ==> !Below(dest, q)
    ensures CleanupPolicy(t, dest) && dest in t ==> Exists(t, dest) && t[dest].Dir?
  {
    forall q | q in t && Below(dest, q) && CleanupPolicy(t, dest) ensures false {
      BelowNeedsAChild(t, dest, q);
    }
  }

  lemma NothingBelowWhatIsAbsent(t: Tree, dest: Path)
    requires IsTree(t)
    ensures !Exists(t, dest) ==> forall q :: q in t ==> !Below(dest, q)
  {
    forall q | q in t && Below(dest, q) && !Exists(t, dest) ensures false {
      BelowNeedsAChild(t, dest, q);
    }
  }

  // ----- The two decisions -----

  // Only nothing at all, or a directory with nothing in it, may be cleaned up later.
  lemma CleanableIs(t: Tree, dest: Path)
    requires IsTree(t)
    ensures CleanupPolicy(t, dest) <==> dest !in t || (t[dest] == Dir && forall q :: q in t ==> !Below(dest, q))
  {
    PolicyMeansNothingBelow(t, dest);
    if q :| q in Children(t, dest) {
      assert Below(dest, q);
    }
  }

  // A repository is complete when it has a branch, or packed references that are not empty.
  lemma CompleteIs(t: Tree, dest: Path)
    requires IsTree(t)
    requires dest + [".git", "refs", "heads"] in t ==> !t[dest + [".git", "refs", "heads"]].Link?
    ensures var heads, packed := dest + [".git", "refs", "heads"], dest + [".git", "packed-refs"];
      HasCompleteRepository(t, dest)
      <==> (|| (exists q :: q in t && Below(heads, q))
            || (packed in t && t[packed].File? && t[packed].size > 0 && (heads in t ==> t[heads].Dir?)))
  {
    var git, heads, packed := dest + [".git"], dest + [".git", "refs", "heads"], dest + [".git", "packed-refs"];
    assert git + ["refs"] + ["heads"] == git + ["refs", "heads"] == heads && git + ["packed-refs"] == packed;
    SomethingBelow(t, heads);
    if heads in t {
      assert Below(git, heads);
      BelowNeedsAChild(t, git, heads);
    }
    if packed in t {
      assert Below(git, packed);
      BelowNeedsAChild(t, git, packed);
    }
    hide IsTree;
  }

  lemma SomethingBelow(t: Tree, p: Path)
    requires IsTree(t)
    ensures (exists q :: q in t && Below(p, q)) <==> Children(t, p) != {}
    ensures Children(t, p) != {} ==> p in t && t[p].Dir?
  {
    if q :| q in t && Below(p, q) {
      BelowNeedsAChild(t, p, q);
    }
    if q :| q in Children(t, p) {
      assert Below(p, q);
      BelowNeedsAChild(t, p, q);
    }
  }

  // Main result in plain terms. A clone that fails before the references are written, into a place
  // where there was nothing, leaves nothing; into an empty directory, leaves it empty.
  method FailedClone(before: Tree, dest: Path, after: Tree, started: bool, order: seq<Path>) returns (result: Tree)
    requires IsTree(before) && OnlyAdds(before, after, dest, started)
    requires dest !in before || (before[dest] == Dir && forall q :: q in before ==> !Below(dest, q))
    requires forall q :: q in after ==> !Below(dest + [".git", "refs", "heads"], q)
    requires dest + [".git", "refs", "heads"] in after ==> !after[dest + [".git", "refs", "heads"]].Link?
    requires dest + [".git", "packed-refs"] !in after
    requires forall j, k :: 0 <= j < k < |order| ==> order[j] != order[k]
    requires forall q :: q in order <==> q in Children(after, dest)
    ensures forall q :: q in result ==> !Below(dest, q)
    ensures dest in result <==> dest in before
    ensures forall p :: p in before ==> p in result && result[p] == before[p]
  {
    CleanableIs(before, dest);
    CompleteIs(after, dest);
    hide CleanupPolicy, HasCompleteRepository;
    result := CloneOnce(before, dest, after, started, false, order, {});
  }
}
