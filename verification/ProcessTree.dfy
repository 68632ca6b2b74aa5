/** The process-tree search: a worklist over the child relation, capped at 4096 processes. */
module ProcessTree {
  type Pid = nat

  /** The children `child_pids` reports. */
  type Graph = Pid -> seq<Pid>

  const MAX_TRACKED_PROCESSES: nat := 4096

  /** `path` leads from `root` along the child relation. */
  ghost predicate IsPath(children: Graph, root: Pid, path: seq<Pid>) {
    && |path| > 0 && path[0] == root
    && forall i :: 0 < i < |path| ==> path[i] in children(path[i - 1])
  }

  ghost predicate LeadsTo(children: Graph, root: Pid, pid: Pid, path: seq<Pid>) {
    IsPath(children, root, path) && path[|path| - 1] == pid
  }

  ghost predicate Reachable(children: Graph, root: Pid, pid: Pid) {
    exists path :: LeadsTo(children, root, pid, path)
  }

  /** `pid` is reached by a path that stays in `within`, except perhaps for its end. */
  ghost predicate LeadsThrough(children: Graph, root: Pid, pid: Pid, within: set<Pid>, path: seq<Pid>) {
    LeadsTo(children, root, pid, path) && forall i :: 0 <= i < |path| - 1 ==> path[i] in within
  }

  ghost predicate ReachableThrough(children: Graph, root: Pid, pid: Pid, within: set<Pid>) {
    exists path :: LeadsThrough(children, root, pid, within, path)
  }

  lemma RootReached(children: Graph, root: Pid, within: set<Pid>)
    ensures ReachableThrough(children, root, root, within)
  {
    assert LeadsThrough(children, root, root, within, [root]);
  }

  lemma ChildReached(children: Graph, root: Pid, pid: Pid, child: Pid, within: set<Pid>)
    requires ReachableThrough(children, root, pid, within) && pid in within && child in children(pid)
    ensures ReachableThrough(children, root, child, within)
  {
    var path :| LeadsThrough(children, root, pid, within, path);
    assert LeadsThrough(children, root, child, within, path + [child]);
  }

  lemma ReachedStays(children: Graph, root: Pid, pid: Pid, within: set<Pid>, more: set<Pid>)
    requires ReachableThrough(children, root, pid, within) && within <= more
    ensures ReachableThrough(children, root, pid, more)
  {
    var path :| LeadsThrough(children, root, pid, within, path);
    assert LeadsThrough(children, root, pid, more, path);
  }

  /** A set closed under children that has the root has everything reachable. */
  lemma {:induction false} ClosedHoldsPath(children: Graph, root: Pid, closed: set<Pid>, path: seq<Pid>)
    requires root in closed && IsPath(children, root, path)
    requires forall p, c :: p in closed && c in children(p) ==> c in closed
    ensures path[|path| - 1] in closed
    decreases |path|
  {
    if |path| > 1 {
      ClosedHoldsPath(children, root, closed, path[..|path| - 1]);
    }
  }

  /** What the search has established before each turn. */
  ghost predicate Searching(children: Graph, root: Pid, visited: set<Pid>, toVisit: seq<Pid>) {
    && |visited| <= MAX_TRACKED_PROCESSES
    && (root in visited || root in toVisit)
    && (forall p :: p in visited || p in toVisit ==> ReachableThrough(children, root, p, visited))
    && (forall p, c :: p in visited && c in children(p) ==> c in visited || c in toVisit)
  }

  /** The children of `pid` that were not visited, pushed on the stack. */
  method PushNew(children: seq<Pid>, visited: set<Pid>, stack: seq<Pid>) returns (r: seq<Pid>)
    ensures forall p :: p in r <==> p in stack || (p in children && p !in visited)
  {
    r := stack;
    for i := 0 to |children|
      invariant forall p :: p in r <==> p in stack || (p in children[..i] && p !in visited)
    {
      assert children[..i + 1] == children[..i] + [children[i]];
      if children[i] !in visited {
        r := r + [children[i]];
      }
    }
    assert children[..|children|] == children;
  }

  lemma Skipped(children: Graph, root: Pid, visited: set<Pid>, toVisit: seq<Pid>)
    requires |toVisit| > 0 && Searching(children, root, visited, toVisit) && toVisit[|toVisit| - 1] in visited
    ensures Searching(children, root, visited, toVisit[..|toVisit| - 1])
  {
    var rest, pid := toVisit[..|toVisit| - 1], toVisit[|toVisit| - 1];
    assert toVisit == rest + [pid];
  }

  lemma Visited(children: Graph, root: Pid, visited: set<Pid>, toVisit: seq<Pid>, next: seq<Pid>)
    requires |toVisit| > 0 && Searching(children, root, visited, toVisit) && |visited| < MAX_TRACKED_PROCESSES
    requires var pid := toVisit[|toVisit| - 1];
             forall p :: p in next <==> p in toVisit[..|toVisit| - 1] || (p in children(pid) && p !in visited + {pid})
    ensures Searching(children, root, visited + {toVisit[|toVisit| - 1]}, next)
  {
    var rest, pid := toVisit[..|toVisit| - 1], toVisit[|toVisit| - 1];
    assert toVisit == rest + [pid];
    var more := visited + {pid};
    forall p | p in more || p in next ensures ReachableThrough(children, root, p, more) {
      if p in visited || p in toVisit {
        ReachedStays(children, root, p, visited, more);
      } else {
        ReachedStays(children, root, pid, visited, more);
        ChildReached(children, root, pid, p, more);
      }
    }
  }

  /** What a finished search returns: the root, only processes reached through others it
      returns, never more than the cap, and fewer than the cap only when nothing is missing. */
  ghost predicate IsTree(children: Graph, root: Pid, tree: set<Pid>) {
    && root in tree && |tree| <= 4096
    && (forall p :: p in tree ==> ReachableThrough(children, root, p, tree))
    && (|tree| < 4096 ==> forall p :: Reachable(children, root, p) ==> p in tree)
  }

  lemma Finished(children: Graph, root: Pid, visited: set<Pid>, toVisit: seq<Pid>)
    requires Searching(children, root, visited, toVisit)
    requires toVisit == [] || (|visited| == MAX_TRACKED_PROCESSES && root in visited)
    ensures IsTree(children, root, visited)
  {
    if toVisit == [] {
      forall p | Reachable(children, root, p) ensures p in visited {
        var path :| LeadsTo(children, root, p, path);
        ClosedHoldsPath(children, root, visited, path);
      }
    }
  }

  /** `get_process_tree`, outside Windows */
  method GetProcessTree(children: Graph, root: Pid) returns (visited: set<Pid>)
    ensures IsTree(children, root, visited)
  {
    visited := {};
    var toVisit := [root];
    RootReached(children, root, {});
    while |toVisit| > 0
      invariant Searching(children, root, visited, toVisit)
      invariant |visited| > 0 ==> root in visited
      decreases MAX_TRACKED_PROCESSES - |visited|, |toVisit|
    {
      var pid := toVisit[|toVisit| - 1];
      ghost var before := toVisit;
      toVisit := toVisit[..|toVisit| - 1];
      if |visited| >= MAX_TRACKED_PROCESSES {
        Finished(children, root, visited, before);
        return;
      }
      if pid in visited {
        Skipped(children, root, visited, before);
        continue;
      }
      ghost var seen := visited;
      visited := visited + {pid};
      toVisit := PushNew(children(pid), visited, toVisit);
      Visited(children, root, seen, before, toVisit);
      assert |visited| == |seen| + 1;
      assert |seen| == 0 ==> before == [root];
    }
    Finished(children, root, visited, toVisit);
  }

  /** The processes reachable from the root, when there are no more than `n` of them. */
  ghost predicate HasAtMost(children: Graph, root: Pid, n: nat, all: set<Pid>) {
    |all| <= n && forall p :: p in all <==> Reachable(children, root, p)
  }

  lemma SubsetOfSameSize<T>(a: set<T>, b: set<T>)
    requires a <= b && |a| >= |b|
    ensures a == b
  {
    if a != b {
      var x :| x in b && x !in a;
      CardinalityOfSubset(a, b - {x});
    }
  }

  lemma {:induction false} CardinalityOfSubset<T>(a: set<T>, b: set<T>)
    requires a <= b
    ensures |a| <= |b|
    decreases |a|
  {
    if a != {} {
      var x :| x in a;
      CardinalityOfSubset(a - {x}, b - {x});
    }
  }

  /** When at most 4096 processes are reachable, the result is all of them; otherwise it has
      exactly 4096 members. */
  lemma TreeIsExact(children: Graph, root: Pid, tree: set<Pid>)
    requires IsTree(children, root, tree)
    ensures forall all :: HasAtMost(children, root, 4096, all) ==> tree == all
    ensures (exists all :: HasAtMost(children, root, 4096, all)) || |tree| == 4096
  {
    forall p | p in tree ensures Reachable(children, root, p) {
      var path :| LeadsThrough(children, root, p, tree, path);
      assert LeadsTo(children, root, p, path);
    }
    forall all | HasAtMost(children, root, MAX_TRACKED_PROCESSES, all) ensures tree == all {
      if |tree| == MAX_TRACKED_PROCESSES {
        SubsetOfSameSize(tree, all);
      }
    }
    if |tree| < MAX_TRACKED_PROCESSES {
      assert HasAtMost(children, root, MAX_TRACKED_PROCESSES, tree);
    }
  }
}
