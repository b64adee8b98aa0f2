/**
  The process-tree walk of system/process_windows.go: a depth-first, post-order walk over
  a snapshot of the process table, which may hold cycles when pids are reused.
 */
module ProcessTree {
  import opened Prelude

  type Pid = int

  // One snapshot row.
  datatype Entry = Entry(pid: Pid, parent: Pid)

  type Table = map<Pid, seq<Pid>>

  function Children(t: Table, p: Pid): seq<Pid> {
    if p in t then t[p] else []
  }

  // The children of p in snapshot order.
  function ChildrenIn(entries: seq<Entry>, p: Pid): seq<Pid> {
    if entries == [] then []
    else
      var front := ChildrenIn(entries[..|entries| - 1], p);
      var e := entries[|entries| - 1];
      if e.parent == p then front + [e.pid] else front
  }

  // A chain of parent-to-child links.
  ghost predicate Chain(t: Table, path: seq<Pid>) {
    |path| > 0 && forall i | 0 <= i < |path| - 1 :: path[i + 1] in Children(t, path[i])
  }

  ghost predicate Reaches(t: Table, a: Pid, b: Pid) {
    exists path :: Chain(t, path) && path[0] == a && path[|path| - 1] == b
  }

  // No process reachable from root is its own descendant.
  ghost predicate Acyclic(t: Table, root: Pid) {
    forall u, v | Reaches(t, root, u) && v in Children(t, u) :: !Reaches(t, v, u)
  }

  ghost predicate Distinct(s: seq<Pid>) {
    forall i, j | 0 <= i < j < |s| :: s[i] != s[j]
  }

  ghost predicate Precedes(s: seq<Pid>, a: Pid, b: Pid) {
    exists i, j :: 0 <= i < j < |s| && s[i] == a && s[j] == b
  }

  // A child comes before its parent unless the link closes a cycle.
  ghost predicate PostOrder(t: Table, s: seq<Pid>) {
    forall u, v | u in s && v in Children(t, u) :: Precedes(s, v, u) || Reaches(t, v, u)
  }

  lemma ReachesSelf(t: Table, a: Pid)
    ensures Reaches(t, a, a)
  {
    assert Chain(t, [a]);
  }

  lemma ReachesChild(t: Table, a: Pid, b: Pid, c: Pid)
    requires Reaches(t, a, b) && c in Children(t, b)
    ensures Reaches(t, a, c)
  {
    var path :| Chain(t, path) && path[0] == a && path[|path| - 1] == b;
    var longer := path + [c];
    assert Chain(t, longer) && longer[0] == a && longer[|longer| - 1] == c;
  }

  lemma ChainSuffix(t: Table, path: seq<Pid>, i: nat)
    requires Chain(t, path) && i < |path|
    ensures Reaches(t, path[i], path[|path| - 1])
  {
    var tail := path[i..];
    assert Chain(t, tail) && tail[0] == path[i] && tail[|tail| - 1] == path[|path| - 1];
  }

  lemma {:induction false} ReachesFrom(t: Table, a: Pid, b: Pid, path: seq<Pid>)
    requires Reaches(t, a, b) && Chain(t, path) && path[0] == b
    ensures Reaches(t, a, path[|path| - 1])
    decreases |path|
  {
    if |path| > 1 {
      ReachesChild(t, a, b, path[1]);
      ReachesFrom(t, a, path[1], path[1..]);
    }
  }

  lemma ReachesTransitive(t: Table, a: Pid, b: Pid, c: Pid)
    requires Reaches(t, a, b) && Reaches(t, b, c)
    ensures Reaches(t, a, c)
  {
    var path :| Chain(t, path) && path[0] == b && path[|path| - 1] == c;
    ReachesFrom(t, a, b, path);
  }

  // A set closed under children holds everything reachable from its members.
  lemma {:induction false} ClosedHoldsReachable(t: Table, s: set<Pid>, path: seq<Pid>)
    requires forall u, v | u in s && v in Children(t, u) :: v in s
    requires Chain(t, path) && path[0] in s
    ensures path[|path| - 1] in s
    decreases |path|
  {
    if |path| > 1 { ClosedHoldsReachable(t, s, path[1..]); }
  }

  lemma PostOrderExtends(t: Table, s: seq<Pid>, p: Pid)
    requires PostOrder(t, s)
    requires forall v | v in Children(t, p) :: v in s || Reaches(t, v, p)
    ensures PostOrder(t, s + [p])
  {
    var s' := s + [p];
    forall u, v | u in s' && v in Children(t, u) ensures Precedes(s', v, u) || Reaches(t, v, u) {
      if u in s && Precedes(s, v, u) {
        var i, j :| 0 <= i < j < |s| && s[i] == v && s[j] == u;
        assert s'[i] == v && s'[j] == u;
      } else if u !in s && v in s {
        var i :| 0 <= i < |s| && s[i] == v;
        assert s'[i] == v && s'[|s|] == u;
      }
    }
  }

  // The whole snapshot as a parent-to-children table.
  function TableOf(entries: seq<Entry>): Table {
    map p | p in (set e | e in entries :: e.parent) :: ChildrenIn(entries, p)
  }

  // A table that holds the children of the entries seen so far.
  ghost predicate Tabulates(children: Table, entries: seq<Entry>) {
    && children.Keys == (set e | e in entries :: e.parent)
    && forall p :: Children(children, p) == ChildrenIn(entries, p)
  }

  lemma TabulatesNext(children: Table, entries: seq<Entry>, e: Entry)
    requires Tabulates(children, entries)
    ensures Tabulates(children[e.parent := Children(children, e.parent) + [e.pid]], entries + [e])
  {
    var next := children[e.parent := Children(children, e.parent) + [e.pid]];
    assert (entries + [e])[..|entries|] == entries;
    forall p ensures Children(next, p) == ChildrenIn(entries + [e], p) {
      assert Children(children, p) == ChildrenIn(entries, p);
    }
  }

  lemma TabulatesAll(children: Table, entries: seq<Entry>)
    requires Tabulates(children, entries)
    ensures children == TableOf(entries)
  {
    assert forall p | p in children :: children[p] == Children(children, p);
  }

  method BuildChildren(entries: seq<Entry>) returns (children: Table)
    ensures children == TableOf(entries)
  {
    children := map[];
    for i := 0 to |entries|
      invariant Tabulates(children, entries[..i])
    {
      var e := entries[i];
      assert entries[..i + 1] == entries[..i] + [e];
      TabulatesNext(children, entries[..i], e);
      children := children[e.parent := Children(children, e.parent) + [e.pid]];
    }
    assert entries[..|entries|] == entries;
    TabulatesAll(children, entries);
  }

  // ---- The walk's bookkeeping, on values ----

  ghost predicate ClosedUniverse(t: Table, universe: set<Pid>) {
    forall u, v | u in universe && v in Children(t, u) :: v in universe
  }

  // Every visited process is finished or on the stack of active calls.
  ghost predicate Consistent(t: Table, root: Pid, visited: set<Pid>, order: seq<Pid>, stack: seq<Pid>) {
    && Distinct(order)
    && (forall x | x in order :: x in visited && x != root && x !in stack)
    && (forall x | x in visited :: x in order || x in stack)
    && (forall x | x in stack :: x in visited)
    && PostOrder(t, order)
  }

  // The set grew by processes reachable from `from` whose children were visited too,
  // those of `open` excepted.
  ghost predicate Explored(t: Table, seen: set<Pid>, visited: set<Pid>, from: Pid, open: set<Pid>) {
    && seen <= visited
    && (forall x | x in visited - seen :: Reaches(t, from, x))
    && (forall u, v | u in visited - seen - open && v in Children(t, u) :: v in visited)
  }

  lemma ExploredChild(t: Table, seen: set<Pid>, mid: set<Pid>, visited: set<Pid>, parent: Pid, child: Pid)
    requires Explored(t, seen, mid, parent, {parent}) && Explored(t, mid, visited, child, {})
    requires child in Children(t, parent)
    ensures Explored(t, seen, visited, parent, {parent})
  {
    forall x | x in visited - seen ensures Reaches(t, parent, x) {
      if x !in mid {
        ReachesSelf(t, parent);
        ReachesChild(t, parent, parent, child);
        ReachesTransitive(t, parent, child, x);
      }
    }
  }

  // The call on `parent` is over: its children are finished or are its ancestors.
  lemma Finish(t: Table, root: Pid, visited: set<Pid>, order: seq<Pid>, stack: seq<Pid>, parent: Pid)
    requires Consistent(t, root, visited, order, stack + [parent]) && Chain(t, stack + [parent])
    requires forall v | v in Children(t, parent) :: v in visited
    requires parent !in stack && parent != root
    ensures Consistent(t, root, visited, order + [parent], stack)
  {
    var active := stack + [parent];
    assert parent !in order by { assert active[|stack|] == parent; }
    forall v | v in Children(t, parent) ensures v in order || Reaches(t, v, parent) {
      if v !in order {
        var i :| 0 <= i < |active| && active[i] == v;
        ChainSuffix(t, active, i);
      }
    }
    PostOrderExtends(t, order, parent);
  }

  class TreeWalk {
    const table: Table
    const root: Pid
    var visited: set<Pid>
    var order: seq<Pid>

    constructor (table: Table, root: Pid)
      ensures this.table == table && this.root == root
      ensures visited == {} && order == []
    {
      this.table, this.root := table, root;
      visited, order := {}, [];
    }

    // The recursive closure `walk`. `stack` lists the active calls, outermost first, and
    // `universe` every process the walk can meet.
    method Walk(parent: Pid, ghost stack: seq<Pid>, ghost universe: set<Pid>)
      requires ClosedUniverse(table, universe) && parent in universe && visited <= universe
      requires Consistent(table, root, visited, order, stack) && Chain(table, stack + [parent])
      requires if stack == [] then parent == root else stack[0] == root
      modifies this`visited, this`order
      ensures visited <= universe && parent in visited
      ensures Consistent(table, root, visited, order, if stack == [] then [root] else stack)
      ensures Explored(table, old(visited), visited, parent, {})
      decreases universe - visited
    {
      if parent in visited { return; }
      ghost var seen := visited;
      ghost var active := stack + [parent];
      visited := visited + {parent};
      ReachesSelf(table, parent);
      var kids := Children(table, parent);
      for i := 0 to |kids|
        invariant seen + {parent} <= visited <= universe
        invariant Consistent(table, root, visited, order, active)
        invariant Explored(table, seen, visited, parent, {parent})
        invariant forall j | 0 <= j < i :: kids[j] in visited
      {
        ghost var mid := visited;
        assert Chain(table, active + [kids[i]]);
        Walk(kids[i], active, universe);
        ExploredChild(table, seen, mid, visited, parent, kids[i]);
      }
      if parent != root {
        Finish(table, root, visited, order, stack, parent);
        order := order + [parent];
      }
    }
  }

  /**
    processTreeIDs; without a snapshot the table is empty. The result lists exactly
    the processes reachable from the root, each once, the root last, and without cycles
    every process stands before its parent.
   */
  method ProcessTreeIDs(snapshot: Option<seq<Entry>>, pid: Pid) returns (order: seq<Pid>)
    ensures var t := if snapshot.Some? then TableOf(snapshot.value) else map[];
      && (forall x :: x in order <==> Reaches(t, pid, x))
      && (Acyclic(t, pid) ==> forall u, v | u in order && v in Children(t, u) :: Precedes(order, v, u))
    ensures Distinct(order) && |order| > 0 && order[|order| - 1] == pid
  {
    if snapshot.None? {
      OnlyRoot(pid);
      return [pid];
    }
    var children := BuildChildren(snapshot.value);
    var walk := new TreeWalk(children, pid);
    walk.Walk(pid, [], {pid} + set p, c | p in children && c in children[p] :: c);
    TreeIsComplete(children, pid, walk.visited, walk.order);
    order := walk.order + [pid];
  }

  lemma OnlyRoot(pid: Pid)
    ensures forall x :: Reaches(map[], pid, x) <==> x == pid
  {
    forall x ensures Reaches(map[], pid, x) <==> x == pid {
      ReachesSelf(map[], pid);
      if Reaches(map[], pid, x) {
        var path :| Chain(map[], path) && path[0] == pid && path[|path| - 1] == x;
        assert |path| > 1 ==> path[1] in Children(map[], path[0]);
      }
    }
  }

  // What a finished walk from the root amounts to.
  lemma TreeIsComplete(t: Table, root: Pid, visited: set<Pid>, order: seq<Pid>)
    requires Consistent(t, root, visited, order, [root]) && Explored(t, {}, visited, root, {})
    ensures forall x :: x in order + [root] <==> Reaches(t, root, x)
    ensures Distinct(order + [root])
    ensures Acyclic(t, root) ==>
      forall u, v | u in order + [root] && v in Children(t, u) :: Precedes(order + [root], v, u)
  {
    assert root in [root];
    forall x ensures x in order + [root] <==> Reaches(t, root, x) {
      if Reaches(t, root, x) {
        var path :| Chain(t, path) && path[0] == root && path[|path| - 1] == x;
        ClosedHoldsReachable(t, visited, path);
      }
    }
    forall v | v in Children(t, root) ensures v in order || Reaches(t, v, root) {
      if v !in order { ReachesSelf(t, root); }
    }
    PostOrderExtends(t, order, root);
  }
}
