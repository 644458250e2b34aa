/**
 * Building a schema on disk: the prebuild hooks, then a walk of the tree that
 * creates each directory before queueing its children for the next depth
 * pass and holds back each file whose `defer` exceeds the current level until
 * that level is reached, then the postbuild hooks.
 */
module Materialize {
  import opened Wrappers
  import opened Content
  import opened Schema
  import opened Effects

  // ---------------------------------------------------------------------------
  // Inner paths

  /** A root entry's path is its name; a child's is its parent's path, a slash and its name. */
  function EntryPath(prefix: Option<string>, name: string): string {
    if prefix.None? then name else prefix.value + "/" + name
  }

  /** `x` is the entry of `contents` named by what follows `prefix` in its path. */
  predicate InDir(x: Item, contents: map<string, Node>, prefix: Option<string>) {
    match prefix
    case None => x.path in contents && contents[x.path] == x.node
    case Some(p) =>
      && |x.path| > |p|
      && x.path[..|p| + 1] == p + "/"
      && x.path[|p| + 1..] in contents
      && contents[x.path[|p| + 1..]] == x.node
  }

  lemma EntryInDir(contents: map<string, Node>, prefix: Option<string>, name: string, depth: nat)
    requires name in contents
    ensures InDir(Item(EntryPath(prefix, name), contents[name], depth), contents, prefix)
  {
    if prefix.Some? {
      var path := EntryPath(prefix, name);
      assert path[..|prefix.value| + 1] == prefix.value + "/";
      assert path[|prefix.value| + 1..] == name;
    }
  }

  /** `x` is an entry of the root, at depth 0. */
  ghost predicate IsEntry(x: Item, root: map<string, Node>) {
    InDir(x, root, None) && x.depth == 0
  }

  /** `x` is an entry of the directory `parent`, one level below it. */
  ghost predicate IsChild(x: Item, parent: Item) {
    parent.node.Directory? && InDir(x, parent.node.contents, Some(parent.path)) && x.depth == parent.depth + 1
  }

  // ---------------------------------------------------------------------------
  // The items of a tree, as a multiset

  ghost function Pick(keys: set<string>): (k: string)
    requires keys != {}
    ensures k in keys
  {
    var k :| k in keys; k
  }

  /** An item and, for a directory, everything below it. */
  ghost function Tree(x: Item): multiset<Item>
    decreases x.node, 1
  {
    multiset{x} + (if x.node.Directory? then Forest(x.node, x.node.contents.Keys, Some(x.path), x.depth + 1) else multiset{})
  }

  /** The trees of the entries of `d` named by `keys`, the entries being at `depth`. */
  ghost function Forest(d: Node, keys: set<string>, prefix: Option<string>, depth: nat): multiset<Item>
    requires d.Directory? && keys <= d.contents.Keys
    decreases d, 0, |keys|
  {
    if keys == {} then multiset{}
    else
      var k := Pick(keys);
      Tree(Item(EntryPath(prefix, k), d.contents[k], depth)) + Forest(d, keys - {k}, prefix, depth)
  }

  /** Every item of the schema's tree: each directory, file and comment at its inner path and depth. */
  ghost function AllItems(schema: FSchema): multiset<Item> {
    Forest(RootDirectory(schema), schema.root.Keys, None, 0)
  }

  /** The items a work list stands for: its own and everything below them. */
  ghost function Pending(list: seq<Item>): multiset<Item> {
    if list == [] then multiset{}
    else Pending(list[..|list| - 1]) + Tree(list[|list| - 1])
  }

  lemma PendingSnoc(list: seq<Item>, x: Item)
    ensures Pending(list + [x]) == Pending(list) + Tree(x)
  {
    assert (list + [x])[..|list|] == list;
  }

  /** The trees of a directory's entries can be taken in any order. */
  lemma {:induction false} ForestRemove(d: Node, keys: set<string>, prefix: Option<string>, depth: nat, k: string)
    requires d.Directory? && keys <= d.contents.Keys && k in keys
    ensures Forest(d, keys, prefix, depth)
            == Tree(Item(EntryPath(prefix, k), d.contents[k], depth)) + Forest(d, keys - {k}, prefix, depth)
    decreases |keys|
  {
    var k0 := Pick(keys);
    if k != k0 {
      var t0 := Tree(Item(EntryPath(prefix, k0), d.contents[k0], depth));
      var t := Tree(Item(EntryPath(prefix, k), d.contents[k], depth));
      var rest := Forest(d, keys - {k0} - {k}, prefix, depth);
      assert Forest(d, keys - {k0}, prefix, depth) == t + rest by {
        ForestRemove(d, keys - {k0}, prefix, depth, k);
      }
      assert Forest(d, keys - {k}, prefix, depth) == t0 + rest by {
        ForestRemove(d, keys - {k}, prefix, depth, k0);
        assert keys - {k} - {k0} == keys - {k0} - {k};
      }
      assert Forest(d, keys, prefix, depth) == t0 + Forest(d, keys - {k0}, prefix, depth);
      SwapSum(t0, t, rest);
    }
  }

  lemma SwapSum(a: multiset<Item>, b: multiset<Item>, c: multiset<Item>)
    ensures a + (b + c) == b + (a + c)
  {
  }

  lemma PushStep(r: seq<Item>, d: Node, remaining: set<string>, prefix: Option<string>, depth: nat, k: string)
    requires d.Directory? && remaining <= d.contents.Keys && k in remaining
    ensures Pending(r + [Item(EntryPath(prefix, k), d.contents[k], depth)]) + Forest(d, remaining - {k}, prefix, depth)
            == Pending(r) + Forest(d, remaining, prefix, depth)
  {
    ForestRemove(d, remaining, prefix, depth, k);
    PendingSnoc(r, Item(EntryPath(prefix, k), d.contents[k], depth));
  }

  /** `x` is an entry of `contents`, at `depth`. */
  ghost predicate EntryOf(x: Item, contents: map<string, Node>, prefix: Option<string>, depth: nat) {
    InDir(x, contents, prefix) && x.depth == depth
  }

  lemma EntryOfSnoc(r: seq<Item>, from: nat, x: Item, contents: map<string, Node>, prefix: Option<string>, depth: nat)
    requires forall i :: from <= i < |r| ==> EntryOf(r[i], contents, prefix, depth)
    requires EntryOf(x, contents, prefix, depth)
    ensures forall i :: from <= i < |r + [x]| ==> EntryOf((r + [x])[i], contents, prefix, depth)
  {
  }

  /** Part way through appending the entries of `d`: those named in `remaining` are still to come. */
  ghost predicate Pushing(list: seq<Item>, r: seq<Item>, d: Node, remaining: set<string>, prefix: Option<string>, depth: nat)
    requires d.Directory?
  {
    && remaining <= d.contents.Keys
    && |r| >= |list| && r[..|list|] == list
    && Pending(r) + Forest(d, remaining, prefix, depth) == Pending(list) + Forest(d, d.contents.Keys, prefix, depth)
    && forall i :: |list| <= i < |r| ==> EntryOf(r[i], d.contents, prefix, depth)
  }

  lemma PushNext(list: seq<Item>, r: seq<Item>, d: Node, remaining: set<string>, prefix: Option<string>, depth: nat, k: string)
    requires d.Directory? && Pushing(list, r, d, remaining, prefix, depth) && k in remaining
    ensures Pushing(list, r + [Item(EntryPath(prefix, k), d.contents[k], depth)], d, remaining - {k}, prefix, depth)
    ensures |remaining - {k}| < |remaining|
  {
    var x := Item(EntryPath(prefix, k), d.contents[k], depth);
    var r' := r + [x];
    assert Pending(r') + Forest(d, remaining - {k}, prefix, depth) == Pending(list) + Forest(d, d.contents.Keys, prefix, depth) by {
      PushStep(r, d, remaining, prefix, depth, k);
    }
    assert forall i :: |list| <= i < |r'| ==> EntryOf(r'[i], d.contents, prefix, depth) by {
      EntryInDir(d.contents, prefix, k, depth);
      EntryOfSnoc(r, |list|, x, d.contents, prefix, depth);
    }
    assert r'[..|list|] == list by {
      assert r'[..|list|] == r[..|list|];
    }
  }

  /**
   * Appending a directory's entries to a work list, in the iteration order of
   * its map, chosen here arbitrarily. The entries are at `depth`.
   */
  method PushEntries(list: seq<Item>, d: Node, prefix: Option<string>, ghost depth: nat) returns (r: seq<Item>)
    requires d.Directory?
    ensures |r| >= |list| && r[..|list|] == list
    ensures Pending(r) == Pending(list) + Forest(d, d.contents.Keys, prefix, depth)
    ensures forall i :: |list| <= i < |r| ==> EntryOf(r[i], d.contents, prefix, depth)
  {
    r := list;
    var remaining := d.contents.Keys;
    assert r[..|list|] == list;
    while remaining != {}
      invariant Pushing(list, r, d, remaining, prefix, depth)
      decreases |remaining|
    {
      var k :| k in remaining;
      PushNext(list, r, d, remaining, prefix, depth, k);
      r := r + [Item(EntryPath(prefix, k), d.contents[k], depth)];
      remaining := remaining - {k};
    }
    assert Forest(d, {}, prefix, depth) == multiset{};
  }

  // ---------------------------------------------------------------------------
  // What the walk keeps true

  /** Every item reached is a root entry or a child of an item already processed. */
  ghost predicate Introduced(x: Item, visited: seq<Item>, root: map<string, Node>) {
    IsEntry(x, root) || exists p :: p in visited && IsChild(x, p)
  }

  /** An item waiting in the current or the next-depth list. */
  ghost predicate Waiting(x: Item, visited: seq<Item>, root: map<string, Node>, level: nat) {
    && NodeValid(x.node)
    && Introduced(x, visited, root)
    && (x.node.File? ==> x.node.options.defer as int >= level)
    && (level > 0 ==> x.node.File?)
  }

  /** A popped file whose `defer` is above the current level: it is held back, not processed. */
  predicate HeldBack(x: Item, level: nat) {
    x.node.File? && x.node.options.defer as int > level
  }

  /** A file held back to a later level. */
  ghost predicate Held(x: Item, visited: seq<Item>, root: map<string, Node>, level: nat) {
    && x.node.File?
    && NodeValid(x.node)
    && Introduced(x, visited, root)
    && x.node.options.defer as int > level
  }

  ghost predicate AllWaiting(list: seq<Item>, visited: seq<Item>, root: map<string, Node>, level: nat) {
    forall j :: 0 <= j < |list| ==> Waiting(list[j], visited, root, level)
  }

  ghost predicate AllHeld(list: seq<Item>, visited: seq<Item>, root: map<string, Node>, level: nat) {
    forall j :: 0 <= j < |list| ==> Held(list[j], visited, root, level)
  }

  /** Each processed item is a root entry or the child of a directory processed before it. */
  ghost predicate ParentsFirst(visited: seq<Item>, root: map<string, Node>) {
    forall j :: 0 <= j < |visited| ==> IsEntry(visited[j], root) || exists i :: 0 <= i < j && IsChild(visited[j], visited[i])
  }

  /** Files are processed in non-decreasing order of `defer`. */
  ghost predicate FilesInDeferOrder(visited: seq<Item>) {
    forall i, j :: 0 <= i < j < |visited| && visited[i].node.File? && visited[j].node.File? ==>
      visited[i].node.options.defer <= visited[j].node.options.defer
  }

  /** No file with a positive `defer` is processed before a directory. */
  ghost predicate DirectoriesBeforeDeferredFiles(visited: seq<Item>) {
    forall i, j :: 0 <= i < j < |visited| && visited[j].node.Directory? ==>
      !(visited[i].node.File? && visited[i].node.options.defer > 0)
  }

  /**
   * An item the walk processes at level 0, as soon as its depth pass reaches
   * it: a directory, a comment, or a file whose `defer` is 0.
   */
  ghost predicate Immediate(x: Item) {
    !(x.node.File? && x.node.options.defer > 0)
  }

  /** The items processed at level 0 come in non-decreasing order of depth: breadth first. */
  ghost predicate ImmediateByDepth(visited: seq<Item>) {
    forall i, j :: 0 <= i < j < |visited| && Immediate(visited[i]) && Immediate(visited[j]) ==>
      visited[i].depth <= visited[j].depth
  }

  /**
   * `x` may be processed after `prior`: it is a root entry or the
   * child of a directory already processed, a file comes after every file
   * with a larger `defer`, a directory after no file with a positive one,
   * and an item processed at level 0 after no such item deeper than itself.
   */
  ghost predicate Visitable(x: Item, prior: seq<Item>, root: map<string, Node>) {
    && (IsEntry(x, root) || exists i :: 0 <= i < |prior| && IsChild(x, prior[i]))
    && (x.node.File? ==> forall i :: 0 <= i < |prior| && prior[i].node.File? ==> prior[i].node.options.defer <= x.node.options.defer)
    && (x.node.Directory? ==> forall i :: 0 <= i < |prior| ==> !(prior[i].node.File? && prior[i].node.options.defer > 0))
    && (Immediate(x) ==> forall i :: 0 <= i < |prior| && Immediate(prior[i]) ==> prior[i].depth <= x.depth)
  }

  /** The processed items, each visitable after the ones before it. */
  ghost predicate Visited(visited: seq<Item>, root: map<string, Node>)
    decreases |visited|
  {
    visited != [] ==> Visited(visited[..|visited| - 1], root) && Visitable(visited[|visited| - 1], visited[..|visited| - 1], root)
  }

  lemma {:induction false} VisitedParent(visited: seq<Item>, root: map<string, Node>, j: nat)
    requires Visited(visited, root) && j < |visited|
    ensures IsEntry(visited[j], root) || exists i :: 0 <= i < j && IsChild(visited[j], visited[i])
    decreases |visited|
  {
    var prior := visited[..|visited| - 1];
    if j < |prior| {
      VisitedParent(prior, root, j);
      assert visited[j] == prior[j];
      if !IsEntry(visited[j], root) {
        var i :| 0 <= i < j && IsChild(prior[j], prior[i]);
        assert visited[i] == prior[i];
      }
    } else if !IsEntry(visited[j], root) {
      var i :| 0 <= i < |prior| && IsChild(visited[j], prior[i]);
      assert visited[i] == prior[i];
    }
  }

  lemma VisitedParentsFirst(visited: seq<Item>, root: map<string, Node>)
    requires Visited(visited, root)
    ensures ParentsFirst(visited, root)
  {
    forall j | 0 <= j < |visited|
      ensures IsEntry(visited[j], root) || exists i :: 0 <= i < j && IsChild(visited[j], visited[i])
    {
      VisitedParent(visited, root, j);
    }
  }

  lemma {:induction false} VisitedInDeferOrder(visited: seq<Item>, root: map<string, Node>)
    requires Visited(visited, root)
    ensures FilesInDeferOrder(visited)
    ensures DirectoriesBeforeDeferredFiles(visited)
    decreases |visited|
  {
    if visited != [] {
      var prior := visited[..|visited| - 1];
      VisitedInDeferOrder(prior, root);
      assert forall i :: 0 <= i < |prior| ==> visited[i] == prior[i];
    }
  }

  lemma {:induction false} VisitedByDepth(visited: seq<Item>, root: map<string, Node>)
    requires Visited(visited, root)
    ensures ImmediateByDepth(visited)
    decreases |visited|
  {
    if visited != [] {
      var prior := visited[..|visited| - 1];
      VisitedByDepth(prior, root);
      assert forall i :: 0 <= i < |prior| ==> visited[i] == prior[i];
    }
  }

  /**
   * What the walk promises about the order of the items it processed:
   * parents before children, files by `defer`, directories before every
   * deferred file, and the items of level 0 breadth first.
   */
  ghost predicate InWalkOrder(visited: seq<Item>, root: map<string, Node>) {
    && ParentsFirst(visited, root)
    && FilesInDeferOrder(visited)
    && DirectoriesBeforeDeferredFiles(visited)
    && ImmediateByDepth(visited)
  }

  lemma WalkOrder(visited: seq<Item>, root: map<string, Node>, level: nat)
    requires Processed(visited, root, level)
    ensures forall i :: 0 <= i < |visited| ==> ItemValid(visited[i])
    ensures InWalkOrder(visited, root)
  {
    VisitedParentsFirst(visited, root);
    VisitedInDeferOrder(visited, root);
    VisitedByDepth(visited, root);
  }

  ghost predicate Processed(visited: seq<Item>, root: map<string, Node>, level: nat) {
    && Visited(visited, root)
    && (forall i :: 0 <= i < |visited| ==> ItemValid(visited[i]))
    && (forall i :: 0 <= i < |visited| && visited[i].node.File? ==> visited[i].node.options.defer as int <= level)
  }

  lemma ProcessStep(visited: seq<Item>, x: Item, root: map<string, Node>, level: nat)
    requires Processed(visited, root, level) && Waiting(x, visited, root, level)
    requires x.node.File? ==> x.node.options.defer as int <= level
    requires Immediate(x) ==> forall i :: 0 <= i < |visited| && Immediate(visited[i]) ==> visited[i].depth <= x.depth
    ensures Processed(visited + [x], root, level)
  {
    var v := visited + [x];
    assert v[..|visited|] == visited;
    if !IsEntry(x, root) {
      var p :| p in visited && IsChild(x, p);
      var i :| 0 <= i < |visited| && visited[i] == p;
    }
    assert Visitable(x, visited, root);
    assert ItemValid(x);
  }

  lemma WaitingGrow(list: seq<Item>, visited: seq<Item>, y: Item, root: map<string, Node>, level: nat)
    requires AllWaiting(list, visited, root, level)
    ensures AllWaiting(list, visited + [y], root, level)
  {
    forall j | 0 <= j < |list| ensures Introduced(list[j], visited + [y], root) {
      if !IsEntry(list[j], root) {
        var p :| p in visited && IsChild(list[j], p);
        assert p in visited + [y];
      }
    }
  }

  lemma HeldGrow(list: seq<Item>, visited: seq<Item>, y: Item, root: map<string, Node>, level: nat)
    requires AllHeld(list, visited, root, level)
    ensures AllHeld(list, visited + [y], root, level)
  {
    forall j | 0 <= j < |list| ensures Introduced(list[j], visited + [y], root) {
      if !IsEntry(list[j], root) {
        var p :| p in visited && IsChild(list[j], p);
        assert p in visited + [y];
      }
    }
  }

  /** The children of a processed directory wait for the next depth pass. */
  lemma ChildrenWaiting(list: seq<Item>, r: seq<Item>, x: Item, visited: seq<Item>, root: map<string, Node>)
    requires x.node.Directory? && NodeValid(x.node) && x in visited
    requires AllWaiting(list, visited, root, 0)
    requires |r| >= |list| && r[..|list|] == list
    requires forall i :: |list| <= i < |r| ==> EntryOf(r[i], x.node.contents, Some(x.path), x.depth + 1)
    ensures AllWaiting(r, visited, root, 0)
  {
    forall j | 0 <= j < |r| ensures Waiting(r[j], visited, root, 0) {
      if j < |list| {
        assert r[j] == list[j];
      } else {
        assert IsChild(r[j], x);
      }
    }
  }

  /**
   * At level 0 the pass over the items at depth `cur` is under way: the
   * current list holds items at depth `cur`, the next-depth list items at
   * `cur + 1`, and nothing processed at level 0 is deeper than `cur`.
   */
  ghost predicate Layered(stack: seq<Item>, backstack: seq<Item>, visited: seq<Item>, level: nat, cur: nat) {
    level == 0 ==>
      && (forall j :: 0 <= j < |stack| ==> stack[j].depth == cur)
      && (forall j :: 0 <= j < |backstack| ==> backstack[j].depth == cur + 1)
      && (forall i :: 0 <= i < |visited| && Immediate(visited[i]) ==> visited[i].depth <= cur)
  }

  /**
   * The state of a pass: every item of the tree is processed, stands in
   * exactly one list, or is in `extra`, the entries of a directory just
   * processed and not yet queued.
   */
  ghost predicate PassInvPlus(all: multiset<Item>, extra: multiset<Item>, stack: seq<Item>, backstack: seq<Item>,
                              defered: seq<Item>, visited: seq<Item>, root: map<string, Node>, level: nat, cur: nat) {
    && multiset(visited) + Pending(stack) + Pending(backstack) + Pending(defered) + extra == all
    && AllWaiting(stack, visited, root, level)
    && AllWaiting(backstack, visited, root, level)
    && AllHeld(defered, visited, root, level)
    && Processed(visited, root, level)
    && Layered(stack, backstack, visited, level, cur)
  }

  ghost predicate PassInv(all: multiset<Item>, stack: seq<Item>, backstack: seq<Item>, defered: seq<Item>,
                          visited: seq<Item>, root: map<string, Node>, level: nat, cur: nat) {
    PassInvPlus(all, multiset{}, stack, backstack, defered, visited, root, level, cur)
  }

  /** The entries of a directory, one level below it. */
  ghost function Below(x: Item): multiset<Item> {
    if x.node.Directory? then Forest(x.node, x.node.contents.Keys, Some(x.path), x.depth + 1) else multiset{}
  }

  lemma AllWaitingPrefix(list: seq<Item>, visited: seq<Item>, root: map<string, Node>, level: nat)
    requires |list| > 0 && AllWaiting(list, visited, root, level)
    ensures AllWaiting(list[..|list| - 1], visited, root, level) && Waiting(list[|list| - 1], visited, root, level)
  {
  }

  lemma AllHeldSnoc(list: seq<Item>, x: Item, visited: seq<Item>, root: map<string, Node>, level: nat)
    requires AllHeld(list, visited, root, level) && Held(x, visited, root, level)
    ensures AllHeld(list + [x], visited, root, level)
  {
  }

  /** Holding back the popped file keeps the invariant. */
  lemma HoldStep(all: multiset<Item>, stack: seq<Item>, backstack: seq<Item>, defered: seq<Item>,
                 visited: seq<Item>, root: map<string, Node>, level: nat, cur: nat)
    requires |stack| > 0 && PassInv(all, stack, backstack, defered, visited, root, level, cur)
    requires stack[|stack| - 1].node.File? && stack[|stack| - 1].node.options.defer as int > level
    ensures PassInv(all, stack[..|stack| - 1], backstack, defered + [stack[|stack| - 1]], visited, root, level, cur)
  {
    var x := stack[|stack| - 1];
    var stack' := stack[..|stack| - 1];
    assert Pending(stack) == Pending(stack') + Tree(x);
    PendingSnoc(defered, x);
    HoldCount(multiset(visited), Pending(stack), Pending(stack'), Pending(backstack), Pending(defered),
              Pending(defered + [x]), Tree(x), all);
    AllWaitingPrefix(stack, visited, root, level);
    AllHeldSnoc(defered, x, visited, root, level);
    LayeredPop(stack, backstack, visited, level, cur);
    PassInvPlusOf(all, multiset{}, stack', backstack, defered + [x], visited, root, level, cur);
  }

  /** The held tree `t` moves from the current list, `b`, to the held files, `d`. */
  lemma HoldCount(a: multiset<Item>, b: multiset<Item>, b': multiset<Item>, c: multiset<Item>, d: multiset<Item>,
                  d': multiset<Item>, t: multiset<Item>, all: multiset<Item>)
    requires a + b + c + d == all && b == b' + t && d' == d + t
    ensures a + b' + c + d' + multiset{} == all
  {
  }

  lemma LayeredPop(stack: seq<Item>, backstack: seq<Item>, visited: seq<Item>, level: nat, cur: nat)
    requires |stack| > 0 && Layered(stack, backstack, visited, level, cur)
    ensures Layered(stack[..|stack| - 1], backstack, visited, level, cur)
  {
  }

  /** Processing the popped item keeps the invariant, with its entries still to be queued. */
  lemma VisitStep(all: multiset<Item>, stack: seq<Item>, backstack: seq<Item>, defered: seq<Item>,
                  visited: seq<Item>, root: map<string, Node>, level: nat, cur: nat)
    requires |stack| > 0 && PassInv(all, stack, backstack, defered, visited, root, level, cur)
    requires !(stack[|stack| - 1].node.File? && stack[|stack| - 1].node.options.defer as int > level)
    ensures var x := stack[|stack| - 1];
            && PassInvPlus(all, Below(x), stack[..|stack| - 1], backstack, defered, visited + [x], root, level, cur)
            && multiset(visited + [x]) <= all
            && (x.node.Directory? ==> level == 0 && NodeValid(x.node) && x.depth == cur)
  {
    var x := stack[|stack| - 1];
    var stack' := stack[..|stack| - 1];
    AllWaitingPrefix(stack, visited, root, level);
    assert Immediate(x) ==> level == 0 && x.depth == cur;
    ProcessStep(visited, x, root, level);
    WaitingGrow(stack', visited, x, root, level);
    WaitingGrow(backstack, visited, x, root, level);
    HeldGrow(defered, visited, x, root, level);
    LayeredVisit(stack, backstack, visited, level, cur);
    VisitCount(all, stack, backstack, defered, visited);
    PassInvPlusOf(all, Below(x), stack', backstack, defered, visited + [x], root, level, cur);
  }

  /** The popped item moves from the current list to the processed ones, its entries to `Below`. */
  lemma VisitCount(all: multiset<Item>, stack: seq<Item>, backstack: seq<Item>, defered: seq<Item>, visited: seq<Item>)
    requires |stack| > 0 && multiset(visited) + Pending(stack) + Pending(backstack) + Pending(defered) == all
    ensures var x := stack[|stack| - 1];
            && multiset(visited + [x]) + Pending(stack[..|stack| - 1]) + Pending(backstack) + Pending(defered) + Below(x) == all
            && multiset(visited + [x]) <= all
  {
    var x := stack[|stack| - 1];
    assert Pending(stack) == Pending(stack[..|stack| - 1]) + (multiset{x} + Below(x));
  }

  lemma LayeredVisit(stack: seq<Item>, backstack: seq<Item>, visited: seq<Item>, level: nat, cur: nat)
    requires |stack| > 0 && Layered(stack, backstack, visited, level, cur)
    ensures Layered(stack[..|stack| - 1], backstack, visited + [stack[|stack| - 1]], level, cur)
  {
    if level == 0 {
      var v := visited + [stack[|stack| - 1]];
      assert forall i :: 0 <= i < |visited| ==> v[i] == visited[i];
    }
  }

  lemma PassInvPlusOf(all: multiset<Item>, extra: multiset<Item>, stack: seq<Item>, backstack: seq<Item>, defered: seq<Item>,
                      visited: seq<Item>, root: map<string, Node>, level: nat, cur: nat)
    requires multiset(visited) + Pending(stack) + Pending(backstack) + Pending(defered) + extra == all
    requires AllWaiting(stack, visited, root, level) && AllWaiting(backstack, visited, root, level)
    requires AllHeld(defered, visited, root, level) && Processed(visited, root, level)
    requires Layered(stack, backstack, visited, level, cur)
    ensures PassInvPlus(all, extra, stack, backstack, defered, visited, root, level, cur)
  {
  }

  /** A file or comment has nothing below it, so processing it keeps the invariant as it is. */
  lemma LeafStep(all: multiset<Item>, x: Item, stack: seq<Item>, backstack: seq<Item>, defered: seq<Item>,
                 visited: seq<Item>, root: map<string, Node>, level: nat, cur: nat)
    requires !x.node.Directory?
    requires PassInvPlus(all, Below(x), stack, backstack, defered, visited, root, level, cur)
    ensures PassInv(all, stack, backstack, defered, visited, root, level, cur)
  {
    assert Below(x) == multiset{};
  }

  /** Queueing the entries of the directory just processed restores the invariant. */
  lemma QueueStep(all: multiset<Item>, x: Item, stack: seq<Item>, backstack: seq<Item>, backstack': seq<Item>,
                  defered: seq<Item>, visited: seq<Item>, root: map<string, Node>, cur: nat)
    requires x.node.Directory? && NodeValid(x.node) && x in visited && x.depth == cur
    requires PassInvPlus(all, Below(x), stack, backstack, defered, visited, root, 0, cur)
    requires |backstack'| >= |backstack| && backstack'[..|backstack|] == backstack
    requires Pending(backstack') == Pending(backstack) + Forest(x.node, x.node.contents.Keys, Some(x.path), x.depth + 1)
    requires forall i :: |backstack| <= i < |backstack'| ==> EntryOf(backstack'[i], x.node.contents, Some(x.path), x.depth + 1)
    ensures PassInv(all, stack, backstack', defered, visited, root, 0, cur)
  {
    ChildrenWaiting(backstack, backstack', x, visited, root);
    ChildrenDepth(backstack, backstack', x);
    LayeredQueue(stack, backstack, backstack', visited, cur);
    QueueCount(x, multiset(visited), Pending(stack), Pending(backstack), Pending(defered), Pending(backstack'), all);
    PassInvPlusOf(all, multiset{}, stack, backstack', defered, visited, root, 0, cur);
  }

  /** The entries of `x` move from `Below(x)` to the next-depth list, which was `c` and is now `c'`. */
  lemma QueueCount(x: Item, a: multiset<Item>, b: multiset<Item>, c: multiset<Item>, d: multiset<Item>,
                   c': multiset<Item>, all: multiset<Item>)
    requires x.node.Directory?
    requires a + b + c + d + Below(x) == all
    requires c' == c + Forest(x.node, x.node.contents.Keys, Some(x.path), x.depth + 1)
    ensures a + b + c' + d + multiset{} == all
  {
  }

  lemma LayeredQueue(stack: seq<Item>, backstack: seq<Item>, backstack': seq<Item>, visited: seq<Item>, cur: nat)
    requires Layered(stack, backstack, visited, 0, cur)
    requires forall j :: 0 <= j < |backstack'| ==> backstack'[j].depth == cur + 1
    ensures Layered(stack, backstack', visited, 0, cur)
  {
  }

  lemma ChildrenDepth(list: seq<Item>, r: seq<Item>, x: Item)
    requires x.node.Directory?
    requires forall j :: 0 <= j < |list| ==> list[j].depth == x.depth + 1
    requires |r| >= |list| && r[..|list|] == list
    requires forall i :: |list| <= i < |r| ==> EntryOf(r[i], x.node.contents, Some(x.path), x.depth + 1)
    ensures forall j :: 0 <= j < |r| ==> r[j].depth == x.depth + 1
  {
    forall j | 0 <= j < |r| ensures r[j].depth == x.depth + 1 {
      if j < |list| {
        assert r[j] == list[j];
      }
    }
  }

  /** The root's entries, queued, start the first pass at level 0. */
  lemma StartPass(schema: FSchema, stack: seq<Item>)
    requires SchemaValid(schema)
    requires Pending(stack) == Pending([]) + Forest(RootDirectory(schema), schema.root.Keys, None, 0)
    requires forall i :: 0 <= i < |stack| ==> EntryOf(stack[i], schema.root, None, 0)
    ensures PassInv(AllItems(schema), stack, [], [], [], schema.root, 0, 0)
  {
    forall j | 0 <= j < |stack| ensures Waiting(stack[j], [], schema.root, 0) {
      assert IsEntry(stack[j], schema.root);
    }
  }

  /**
   * After a pass the next-depth list becomes the current one, one level
   * deeper; when it is empty, the level rises by one and the held files
   * become the current list.
   */
  lemma NextPass(all: multiset<Item>, backstack: seq<Item>, defered: seq<Item>, visited: seq<Item>, root: map<string, Node>,
                 level: nat, cur: nat)
    requires PassInv(all, [], backstack, defered, visited, root, level, cur)
    ensures var rises := backstack == [];
            PassInv(all, if rises then defered else backstack, [], if rises then [] else defered, visited, root,
                    if rises then level + 1 else level, if rises then 0 else cur + 1)
    ensures multiset(visited) <= all && |visited| <= |all|
  {
    PassBound(all, [], backstack, defered, visited, root, level, cur);
    if backstack != [] {
      NextDepth(all, backstack, defered, visited, root, level, cur);
    } else {
      NextLevel(all, defered, visited, root, level, cur);
    }
  }

  /** The next-depth list becomes the current one, a depth further down. */
  lemma NextDepth(all: multiset<Item>, backstack: seq<Item>, defered: seq<Item>, visited: seq<Item>, root: map<string, Node>,
                  level: nat, cur: nat)
    requires backstack != [] && PassInv(all, [], backstack, defered, visited, root, level, cur)
    ensures PassInv(all, backstack, [], defered, visited, root, level, cur + 1)
  {
  }

  /** With both lists empty, the level rises and the held files become the current list. */
  lemma NextLevel(all: multiset<Item>, defered: seq<Item>, visited: seq<Item>, root: map<string, Node>,
                  level: nat, cur: nat)
    requires PassInv(all, [], [], defered, visited, root, level, cur)
    ensures PassInv(all, defered, [], [], visited, root, level + 1, 0)
  {
  }

  /** A non-empty current list bounds the level by the largest `defer`. */
  lemma LevelBound(all: multiset<Item>, stack: seq<Item>, defered: seq<Item>, visited: seq<Item>, root: map<string, Node>,
                   level: nat, cur: nat)
    requires |stack| > 0 && PassInv(all, stack, [], defered, visited, root, level, cur)
    ensures level < 0x1_0000_0000_0000_0000
    ensures multiset(visited) <= all && |visited| <= |all|
  {
    assert Waiting(stack[0], visited, root, level);
  }

  lemma PassBound(all: multiset<Item>, stack: seq<Item>, backstack: seq<Item>, defered: seq<Item>, visited: seq<Item>,
                  root: map<string, Node>, level: nat, cur: nat)
    requires PassInv(all, stack, backstack, defered, visited, root, level, cur)
    ensures multiset(visited) <= all && |visited| <= |all|
    ensures stack == [] && backstack == [] && defered == [] ==> multiset(visited) == all
  {
  }

  lemma AppendAssoc(a: seq<Op>, b: seq<Op>, c: seq<Op>)
    ensures a + b + c == a + (b + c)
  {
  }

  /**
   * One `stack.pop()` and what follows it: a file above the current level is
   * held back; anything else is processed, and a directory's entries go to
   * the next-depth list. On an error the walk stops with the item processed.
   */
  method Pop(w: World, root: Path, stack: seq<Item>, backstack: seq<Item>, defered: seq<Item>, level: nat, log: seq<Op>,
             ghost all: multiset<Item>, ghost rootItems: map<string, Node>, ghost preOps: seq<Op>,
             ghost walkOps: seq<Op>, ghost visited: seq<Item>, ghost cur: nat)
    returns (stack': seq<Item>, backstack': seq<Item>, defered': seq<Item>, log': seq<Op>, err: Option<Error>,
             ghost walkOps': seq<Op>, ghost visited': seq<Item>)
    requires |stack| > 0 && PassInv(all, stack, backstack, defered, visited, rootItems, level, cur)
    requires log == preOps + walkOps && Replay(w, preOps, root, visited) == Outcome(walkOps, None)
    ensures stack' == stack[..|stack| - 1]
    ensures log' == preOps + walkOps'
    ensures visited' == if HeldBack(stack[|stack| - 1], level) then visited else visited + [stack[|stack| - 1]]
    ensures defered' == if HeldBack(stack[|stack| - 1], level) then defered + [stack[|stack| - 1]] else defered
    ensures |visited'| == |visited| ==> visited' == visited && backstack' == backstack && |defered'| == |defered| + 1
    ensures |visited'| >= |visited|
    ensures err.None? ==> PassInv(all, stack', backstack', defered', visited', rootItems, level, cur)
    ensures err.None? ==> Replay(w, preOps, root, visited') == Outcome(walkOps', None)
    ensures err.Some? ==>
              && visited' == visited + [stack[|stack| - 1]]
              && Processed(visited', rootItems, level)
              && multiset(visited') <= all
              && Replay(w, preOps, root, visited') == Outcome(walkOps', err)
              && Blames(err.value, stack[|stack| - 1], root)
  {
    var x := stack[|stack| - 1];
    stack' := stack[..|stack| - 1];
    if HeldBack(x, level) {
      HoldStep(all, stack, backstack, defered, visited, rootItems, level, cur);
      backstack', defered', log', err, walkOps', visited' := backstack, defered + [x], log, None, walkOps, visited;
    } else {
      VisitStep(all, stack, backstack, defered, visited, rootItems, level, cur);
      defered' := defered;
      backstack', log', err, walkOps', visited' :=
        Visit(w, root, x, stack', backstack, defered, level, log, all, rootItems, preOps, walkOps, visited, cur);
    }
  }

  /**
   * Processing the popped item `x`: creating a directory, writing a file or
   * passing over a comment; a directory created without error has its
   * entries appended to the next-depth list.
   */
  method Visit(w: World, root: Path, x: Item, stack: seq<Item>, backstack: seq<Item>, defered: seq<Item>, level: nat,
               log: seq<Op>, ghost all: multiset<Item>, ghost rootItems: map<string, Node>, ghost preOps: seq<Op>,
               ghost walkOps: seq<Op>, ghost visited: seq<Item>, ghost cur: nat)
    returns (backstack': seq<Item>, log': seq<Op>, err: Option<Error>, ghost walkOps': seq<Op>, ghost visited': seq<Item>)
    requires PassInvPlus(all, Below(x), stack, backstack, defered, visited + [x], rootItems, level, cur)
    requires multiset(visited + [x]) <= all
    requires x.node.Directory? ==> level == 0 && NodeValid(x.node) && x.depth == cur
    requires log == preOps + walkOps && Replay(w, preOps, root, visited) == Outcome(walkOps, None)
    ensures visited' == visited + [x]
    ensures log' == preOps + walkOps'
    ensures Replay(w, preOps, root, visited') == Outcome(walkOps', err)
    ensures err.None? ==> PassInv(all, stack, backstack', defered, visited', rootItems, level, cur)
    ensures err.Some? ==> Blames(err.value, x, root)
  {
    var out := ProcessItem(w, log, root, x);
    AppendAssoc(preOps, walkOps, out.ops);
    assert Replay(w, preOps, root, visited + [x]) == Outcome(walkOps + out.ops, out.err) by {
      ReplaySnoc(w, preOps, root, visited, x);
    }
    visited' := visited + [x];
    log' := log + out.ops;
    walkOps' := walkOps + out.ops;
    err := out.err;
    if x.node.Directory? && err.None? {
      backstack' := PushEntries(backstack, x.node, Some(x.path), x.depth + 1);
      QueueStep(all, x, stack, backstack, backstack', defered, visited', rootItems, cur);
    } else {
      backstack' := backstack;
      if !x.node.Directory? {
        LeafStep(all, x, stack, backstack, defered, visited', rootItems, level, cur);
      }
    }
  }

  /**
   * The walk stopped at its last item: the items before it succeeded, it
   * failed with `e`, and `e` names it.
   */
  ghost predicate FailedAt(w: World, history: seq<Op>, root: Path, visited: seq<Item>, ops: seq<Op>, e: Error)
    requires forall i :: 0 <= i < |visited| ==> ItemValid(visited[i])
  {
    && |visited| > 0
    && Replay(w, history, root, visited) == Outcome(ops, Some(e))
    && Replay(w, history, root, visited[..|visited| - 1]).err.None?
    && Blames(e, visited[|visited| - 1], root)
  }

  /**
   * One depth pass, the inner `while let Some(..) = stack.pop()` loop: pops
   * items until the current list is empty or an item fails.
   */
  method Pass(w: World, root: Path, stack: seq<Item>, defered: seq<Item>, level: nat, log: seq<Op>,
              ghost all: multiset<Item>, ghost rootItems: map<string, Node>, ghost preOps: seq<Op>,
              ghost walkOps: seq<Op>, ghost visited: seq<Item>, ghost cur: nat)
    returns (backstack': seq<Item>, defered': seq<Item>, log': seq<Op>, err: Option<Error>,
             ghost walkOps': seq<Op>, ghost visited': seq<Item>)
    requires PassInv(all, stack, [], defered, visited, rootItems, level, cur)
    requires log == preOps + walkOps && Replay(w, preOps, root, visited) == Outcome(walkOps, None)
    ensures log' == preOps + walkOps'
    ensures err.None? ==> PassInv(all, [], backstack', defered', visited', rootItems, level, cur)
    ensures err.None? ==> Replay(w, preOps, root, visited') == Outcome(walkOps', None)
    ensures |visited'| >= |visited|
    ensures |visited'| == |visited| ==> visited' == visited && backstack' == [] && |defered'| == |defered| + |stack|
    ensures err.Some? ==>
              && Processed(visited', rootItems, level)
              && multiset(visited') <= all
              && FailedAt(w, preOps, root, visited', walkOps', err.value)
  {
    var stack' := stack;
    backstack', defered', log', err, walkOps', visited' := [], defered, log, None, walkOps, visited;
    while |stack'| > 0
      invariant err.None?
      invariant PassInv(all, stack', backstack', defered', visited', rootItems, level, cur)
      invariant log' == preOps + walkOps' && Replay(w, preOps, root, visited') == Outcome(walkOps', None)
      invariant |visited'| >= |visited|
      invariant |visited'| == |visited| ==> visited' == visited && backstack' == [] && |defered'| + |stack'| == |defered| + |stack|
      decreases |stack'|
    {
      ghost var before := visited';
      stack', backstack', defered', log', err, walkOps', visited' :=
        Pop(w, root, stack', backstack', defered', level, log', all, rootItems, preOps, walkOps', visited', cur);
      if err.Some? {
        assert visited'[..|visited'| - 1] == before;
        return;
      }
    }
  }

  /**
   * One round of the outer loop of the walk: a pass over the current list,
   * then the next-depth list becomes the current one and, when it is empty,
   * the level rises and the held files become the current list. Unless it
   * fails, a round processes an item or raises the level. The ghost `cur`
   * is the depth of the pass, which the next round takes one deeper.
   */
  method Round(w: World, root: Path, stack: seq<Item>, defered: seq<Item>, level: nat, log: seq<Op>,
               ghost all: multiset<Item>, ghost rootItems: map<string, Node>, ghost preOps: seq<Op>,
               ghost walkOps: seq<Op>, ghost visited: seq<Item>, ghost cur: nat)
    returns (stack': seq<Item>, defered': seq<Item>, level': nat, log': seq<Op>, err: Option<Error>,
             ghost walkOps': seq<Op>, ghost visited': seq<Item>, ghost cur': nat)
    requires |stack| > 0 && PassInv(all, stack, [], defered, visited, rootItems, level, cur)
    requires log == preOps + walkOps && Replay(w, preOps, root, visited) == Outcome(walkOps, None)
    ensures log' == preOps + walkOps'
    ensures err.None? ==>
              && PassInv(all, stack', [], defered', visited', rootItems, level', cur')
              && Replay(w, preOps, root, visited') == Outcome(walkOps', None)
              && (|stack'| == 0 ==> defered' == [])
              && |visited'| <= |all|
              && level' <= 0x1_0000_0000_0000_0000
              && (|visited'| > |visited| || level' == level + 1)
              && |visited'| >= |visited|
              && (level' == level ==> |stack'| > 0)
              && (level' != level ==> level' == level + 1 && defered' == [])
    ensures err.Some? ==>
              && Processed(visited', rootItems, level)
              && multiset(visited') <= all
              && FailedAt(w, preOps, root, visited', walkOps', err.value)
  {
    LevelBound(all, stack, defered, visited, rootItems, level, cur);
    var backstack;
    backstack, defered', log', err, walkOps', visited' :=
      Pass(w, root, stack, defered, level, log, all, rootItems, preOps, walkOps, visited, cur);
    stack' := [];
    level' := level;
    cur' := cur;
    if err.Some? {
      return;
    }
    NextPass(all, backstack, defered', visited', rootItems, level, cur);
    stack', backstack := backstack, stack';
    var rises := |stack'| == 0;
    stack', defered' := if rises then defered' else stack', if rises then stack' else defered';
    level' := if rises then level + 1 else level;
    cur' := if rises then 0 else cur + 1;
  }

  /**
   * The walk of `FSchema::create`: depth pass by depth pass, each directory
   * is created and its entries queued for the next pass, each file whose
   * `defer` is at most the current level is written and the others are held
   * back; when a pass leaves nothing for the next one, the level rises and
   * the held files are taken up. The ghost `visited` lists the items
   * processed, in order; `log` is what was done before the walk.
   */
  method Walk(schema: FSchema, root: Path, w: World, log: seq<Op>)
    returns (log': seq<Op>, err: Option<Error>, ghost walkOps: seq<Op>, ghost visited: seq<Item>)
    requires SchemaValid(schema)
    ensures log' == log + walkOps
    ensures forall i :: 0 <= i < |visited| ==> ItemValid(visited[i])
    ensures Replay(w, log, root, visited) == Outcome(walkOps, err)
    ensures multiset(visited) <= AllItems(schema)
    ensures InWalkOrder(visited, schema.root)
    ensures err.None? ==> multiset(visited) == AllItems(schema)
    ensures err.Some? ==> FailedAt(w, log, root, visited, walkOps, err.value)
  {
    visited := [];
    walkOps := [];
    log' := log;
    ghost var all := AllItems(schema);
    ghost var rootItems := schema.root;

    var stack := PushEntries([], RootDirectory(schema), None, 0);
    var defered: seq<Item> := [];
    var level: nat := 0;
    ghost var cur: nat := 0;
    StartPass(schema, stack);

    while |stack| != 0
      invariant |stack| == 0 ==> defered == []
      invariant level <= 0x1_0000_0000_0000_0000 && |visited| <= |all|
      invariant PassInv(all, stack, [], defered, visited, rootItems, level, cur)
      invariant log' == log + walkOps && Replay(w, log, root, visited) == Outcome(walkOps, None)
      decreases |all| - |visited|, 0x1_0000_0000_0000_0000 - level
    {
      ghost var level0 := level;
      stack, defered, level, log', err, walkOps, visited, cur :=
        Round(w, root, stack, defered, level, log', all, rootItems, log, walkOps, visited, cur);
      if err.Some? {
        WalkOrder(visited, rootItems, level0);
        return;
      }
    }

    PassBound(all, stack, [], defered, visited, rootItems, level, cur);
    WalkOrder(visited, rootItems, level);
    err := None;
  }

  /**
   * `FSchema::create`: run the prebuild hooks, then the walk, then the
   * postbuild hooks, stopping at the first error.
   * The ghost `visited` lists the items processed, in order.
   */
  method Create(schema: FSchema, root: Path, w: World) returns (log: seq<Op>, res: Result<(), Error>, ghost visited: seq<Item>)
    requires SchemaValid(schema)
    ensures forall i :: 0 <= i < |visited| ==> ItemValid(visited[i])
    ensures multiset(visited) <= AllItems(schema)
    ensures InWalkOrder(visited, schema.root)
    ensures var pre := Hooks(w, [], schema.prebuild);
            pre.err.Some? ==> log == pre.ops && res == Err(pre.err.value) && visited == []
    ensures var pre := Hooks(w, [], schema.prebuild);
            var walk := Replay(w, pre.ops, root, visited);
            pre.err.None? && walk.err.Some? ==>
              && log == pre.ops + walk.ops
              && res == Err(walk.err.value)
              && Replay(w, pre.ops, root, visited[..|visited| - 1]).err.None?
              && Blames(walk.err.value, visited[|visited| - 1], root)
    ensures var pre := Hooks(w, [], schema.prebuild);
            var walk := Replay(w, pre.ops, root, visited);
            var post := Hooks(w, pre.ops + walk.ops, schema.postbuild);
            pre.err.None? && walk.err.None? ==>
              && multiset(visited) == AllItems(schema)
              && log == pre.ops + walk.ops + post.ops
              && res == if post.err.Some? then Err(post.err.value) else Ok(())
  {
    var preOps, preErr := RunHooks(w, [], schema.prebuild);
    log := preOps;
    if preErr.Some? {
      res := Err(preErr.value);
      visited := [];
      return;
    }
    var err;
    ghost var walkOps;
    log, err, walkOps, visited := Walk(schema, root, w, log);
    if err.Some? {
      res := Err(err.value);
      return;
    }
    var postOps, postErr := RunHooks(w, log, schema.postbuild);
    log := log + postOps;
    res := if postErr.Some? then Err(postErr.value) else Ok(());
  }

  /**
   * A mode never reaches the disk: whatever the schema and the world, no
   * operation of a build, hooks and walk included, changes permissions.
   * The log of `Create` is always a prefix of this sequence.
   */
  lemma NoPermissionChange(w: World, root: Path, schema: FSchema, visited: seq<Item>)
    requires forall i :: 0 <= i < |visited| ==> ItemValid(visited[i])
    ensures var pre := Hooks(w, [], schema.prebuild);
            var walk := Replay(w, pre.ops, root, visited);
            var post := Hooks(w, pre.ops + walk.ops, schema.postbuild);
            forall op :: op in pre.ops + walk.ops + post.ops ==> !op.SetPermissions?
  {
    var pre := Hooks(w, [], schema.prebuild);
    var walk := Replay(w, pre.ops, root, visited);
    HooksOnlyRun(w, [], schema.prebuild);
    HooksOnlyRun(w, pre.ops + walk.ops, schema.postbuild);
  }

  // ---------------------------------------------------------------------------
  // An example

  lemma OnlyItem(visited: seq<Item>, x: Item)
    requires multiset(visited) <= multiset{x} && |visited| > 0
    ensures visited == [x]
  {
    var rest := visited[1..];
    assert visited == [visited[0]] + rest;
    assert multiset(visited) == multiset{visited[0]} + multiset(rest);
    assert visited[0] == x;
    assert multiset(rest) == multiset{};
    assert |rest| == |multiset(rest)| == 0;
  }

  const OneFile: FSchema := FSchema(map["f" := File("", DefaultOptions)], ["f"], [], [])

  lemma OneFileItems()
    ensures AllItems(OneFile) == multiset{Item("f", File("", DefaultOptions), 0)}
  {
    var d := RootDirectory(OneFile);
    assert OneFile.root.Keys == {"f"};
    ForestRemove(d, {"f"}, None, 0, "f");
    assert {"f"} - {"f"} == {};
    assert Forest(d, {}, None, 0) == multiset{};
    assert EntryPath(None, "f") == "f" && d.contents["f"] == File("", DefaultOptions);
    assert Tree(Item("f", File("", DefaultOptions), 0)) == multiset{Item("f", File("", DefaultOptions), 0)};
  }

  lemma OneFileReplay(w: World)
    requires w.succeeds([], CreateEmpty("R/f"))
    ensures Replay(w, [], "R", [Item("f", File("", DefaultOptions), 0)]) == Outcome([CreateEmpty("R/f")], None)
  {
    var x := Item("f", File("", DefaultOptions), 0);
    assert [x][..0] == [];
    OneFileProcess(w);
    assert [] + [CreateEmpty("R/f")] == [CreateEmpty("R/f")];
  }

  lemma OneFileProcess(w: World)
    requires w.succeeds([], CreateEmpty("R/f"))
    ensures ProcessItem(w, [], "R", Item("f", File("", DefaultOptions), 0)) == Outcome([CreateEmpty("R/f")], None)
  {
    assert Join("R", "f") == "R/f";
    assert WriteContent(w, [], "R", "f", "", DefaultOptions) == Outcome([CreateEmpty("R/f")], None);
  }

  /**
   * A schema holding one empty Text file `f`, built under `R` where every
   * filesystem operation succeeds: the one operation is creating `R/f`
   * empty, and the build succeeds.
   */
  method CreateOneFile(w: World) returns (log: seq<Op>, res: Result<(), Error>)
    requires forall h, op :: w.succeeds(h, op)
    ensures log == [CreateEmpty("R/f")] && res == Ok(())
  {
    ghost var visited;
    log, res, visited := Create(OneFile, "R", w);
    OneFileItems();
    OneFileReplay(w);
    assert Hooks(w, [], []) == Outcome([], None);
    if |visited| > 0 {
      OnlyItem(visited, Item("f", File("", DefaultOptions), 0));
    }
  }
}
