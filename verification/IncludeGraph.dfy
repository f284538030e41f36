// The graph of `file:` includes: how it is scanned and how its cycles are found
// (internal/config/config.go).
module IncludeGraph {
  import opened GoStrings

  type Path = string

  // A configured path exists with readable lines, exists but cannot be read, or is
  // not in the map at all.
  datatype File = Readable(lines: seq<string>) | Unreadable

  type FileSystem = map<Path, File>

  // What path handling contributes: filepath.Join(filepath.Dir(base), rel), or rel
  // itself when it is absolute.
  type Resolver = (Path, string) -> Path

  const FILE_PREFIX := "file:"

  // A line that is neither blank nor a comment.
  predicate Significant(line: string) {
    var t := TrimSpace(line);
    t != "" && !HasPrefix(t, "#")
  }

  // utils.ReadLinesFromFile; a missing or unreadable file counts as empty.
  function ReadLines(fs: FileSystem, p: Path): seq<string> {
    if p in fs && fs[p].Readable? then SignificantLines(fs[p].lines) else []
  }

  function SignificantLines(lines: seq<string>): seq<string> {
    if lines == [] then []
    else (if Significant(lines[0]) then [lines[0]] else []) + SignificantLines(lines[1..])
  }

  // The includes of a file read as plain text: the path is taken as it stands.
  function TextDirectives(resolve: Resolver, p: Path, lines: seq<string>): seq<Path> {
    if lines == [] then []
    else
      var rest := TextDirectives(resolve, p, lines[1..]);
      var rel := TrimPrefix(lines[0], FILE_PREFIX);
      if Significant(lines[0]) && HasPrefix(lines[0], FILE_PREFIX) && rel != "" then
        [resolve(p, rel)] + rest
      else rest
  }

  // The includes of the main file, whose YAML scalars are searched: here the path
  // is trimmed.
  function MainDirectives(resolve: Resolver, p: Path, scalars: seq<string>): seq<Path> {
    if scalars == [] then []
    else
      var rest := MainDirectives(resolve, p, scalars[1..]);
      var rel := TrimSpace(TrimPrefix(scalars[0], FILE_PREFIX));
      if HasPrefix(scalars[0], FILE_PREFIX) && rel != "" then [resolve(p, rel)] + rest else rest
  }

  // findFileDirectives
  function Directives(resolve: Resolver, fs: FileSystem, p: Path, isMain: bool, scalars: seq<string>): seq<Path> {
    if p !in fs || fs[p].Unreadable? then []
    else if isMain then MainDirectives(resolve, p, scalars)
    else TextDirectives(resolve, p, fs[p].lines)
  }

  type Edges = map<Path, seq<Path>>

  // The graph is exactly what the scan of root finds: every scanned file has its
  // directives as edges, a missing file has none, every edge leads to a node, and
  // every node is reached from the root.
  ghost predicate ScanOf(g: Edges, resolve: Resolver, fs: FileSystem, root: Path, scalars: seq<string>) {
    && root in g && root in fs
    && (forall p :: p in g ==> g[p] == if p in fs then Directives(resolve, fs, p, p == root, scalars) else [])
    && Closed(g)
    && AllReached(g, root)
  }

  ghost predicate Closed(g: Edges) {
    forall p, i :: p in g && 0 <= i < |g[p]| ==> g[p][i] in g
  }

  // ------------------------------------------------------------------ paths

  // A real path in the graph.
  ghost predicate EdgePath(g: Edges, path: seq<Path>) {
    && (forall i :: 0 <= i < |path| ==> path[i] in g)
    && (forall i :: 0 <= i < |path| - 1 ==> path[i + 1] in g[path[i]])
  }

  ghost predicate LeadsFrom(g: Edges, root: Path, p: Path, path: seq<Path>) {
    path != [] && path[0] == root && path[|path| - 1] == p && EdgePath(g, path)
  }

  ghost predicate Reached(g: Edges, root: Path, p: Path) {
    exists path :: LeadsFrom(g, root, p, path)
  }

  ghost predicate AllReached(g: Edges, root: Path) {
    forall p {:trigger Reached(g, root, p)} :: p in g ==> Reached(g, root, p)
  }

  // More nodes and edges keep everything reached that was.
  lemma ReachedStays(g: Edges, more: Edges, root: Path, p: Path)
    requires AllReached(g, root) && p in g
    requires g.Keys <= more.Keys && forall q, d :: q in g && d in g[q] ==> d in more[q]
    ensures Reached(more, root, p)
  {
    assert Reached(g, root, p);
    var path :| LeadsFrom(g, root, p, path);
    assert LeadsFrom(more, root, p, path);
  }

  // The target of a new edge is reached through its source.
  lemma EdgeReaches(g: Edges, root: Path, from: Path, to: Path)
    requires from in g && to in g && to in g[from] && Reached(g, root, from)
    ensures Reached(g, root, to)
  {
    var path :| LeadsFrom(g, root, from, path);
    assert LeadsFrom(g, root, to, path + [to]);
  }

  // A path from root that ends where it has been before.
  ghost predicate CyclePath(g: Edges, root: Path, path: seq<Path>) {
    && |path| >= 2 && path[0] == root
    && EdgePath(g, path)
    && path[|path| - 1] in path[..|path| - 1]
  }

  // Every edge from a listed file leads to an earlier one.
  ghost predicate Topological(g: Edges, order: seq<Path>) {
    && (forall i :: 0 <= i < |order| ==> order[i] in g)
    && (forall i, j :: 0 <= i < j < |order| ==> order[i] != order[j])
    && (forall i, d :: 0 <= i < |order| && d in g[order[i]] ==> d in order[..i])
  }

  lemma TopologicalAppend(g: Edges, order: seq<Path>, p: Path)
    requires Topological(g, order) && p in g && p !in order && forall d :: d in g[p] ==> d in order
    ensures Topological(g, order + [p])
  {
    var longer := order + [p];
    forall i, d | 0 <= i < |longer| && d in g[longer[i]] ensures d in longer[..i] {
      assert longer[..i] == order[..i];
      if i == |order| { assert order[..i] == order; }
    }
  }

  // Where a file stands in the order.
  function Rank(order: seq<Path>, p: Path): (i: nat)
    requires p in order
    ensures i < |order| && order[i] == p
    ensures p !in order[..i]
  {
    if order[0] == p then 0
    else
      var i := 1 + Rank(order[1..], p);
      assert order[..i] == [order[0]] + order[1..][..i - 1];
      i
  }

  // Along an edge the rank drops.
  lemma RankDrops(g: Edges, order: seq<Path>, p: Path, d: Path)
    requires Topological(g, order) && p in order && d in g[p]
    ensures d in order && Rank(order, d) < Rank(order, p)
  {
    var i := Rank(order, p);
    assert d in order[..i];
    var j :| 0 <= j < i && order[j] == d;
    assert order[Rank(order, d)] == order[j];
  }

  // So along a path it drops at every step, and no file can occur twice.
  lemma {:induction false} RankDropsAlong(g: Edges, order: seq<Path>, path: seq<Path>, i: nat, j: nat)
    requires Topological(g, order) && EdgePath(g, path) && i < j < |path| && path[i] in order
    ensures path[j] in order && Rank(order, path[j]) < Rank(order, path[i])
    decreases j
  {
    if j == i + 1 {
      RankDrops(g, order, path[i], path[j]);
    } else {
      RankDropsAlong(g, order, path, i, j - 1);
      RankDrops(g, order, path[j - 1], path[j]);
    }
  }

  // A topological order with the root in it excludes every cycle.
  lemma OrderedGraphHasNoCycle(g: Edges, order: seq<Path>, root: Path, path: seq<Path>)
    requires Topological(g, order) && root in order
    ensures !CyclePath(g, root, path)
  {
    if CyclePath(g, root, path) {
      var n := |path| - 1;
      var i :| 0 <= i < n && path[i] == path[n];
      if i > 0 { RankDropsAlong(g, order, path, 0, i); }
      RankDropsAlong(g, order, path, i, n);
    }
  }

  // ------------------------------------------------------------- the graph

  datatype BuildResult = Built | RootMissing

  // depGraph, with the flags of the depth-first search.
  class DepGraph {
    var nodes: Edges
    var scannedFiles: set<Path>
    var visiting: set<Path>
    var visited: set<Path>
    ghost var order: seq<Path>   // visited files, as the search left them

    constructor ()
      ensures nodes == map[] && scannedFiles == {} && visiting == {} && visited == {} && order == []
    {
      nodes, scannedFiles, visiting, visited, order := map[], {}, {}, {}, [];
    }

    method AddNode(p: Path)
      modifies this`nodes
      ensures nodes == if p in old(nodes) then old(nodes) else old(nodes)[p := []]
    {
      if p !in nodes { nodes := nodes[p := []]; }
    }

    method AddEdge(from: Path, to: Path)
      modifies this`nodes
      ensures var n1 := if from in old(nodes) then old(nodes) else old(nodes)[from := []];
              var n2 := if to in n1 then n1 else n1[to := []];
              nodes == n2[from := n2[from] + [to]]
    {
      AddNode(from);
      AddNode(to);
      nodes := nodes[from := nodes[from] + [to]];
    }

    // Scanned files exist and, apart from the ones still open, carry exactly their
    // directives; other nodes carry no edges.
    ghost predicate Scanning(resolve: Resolver, fs: FileSystem, root: Path, scalars: seq<string>, open: set<Path>)
      reads this`nodes, this`scannedFiles
    {
      && open <= scannedFiles <= nodes.Keys && scannedFiles <= fs.Keys
      && (forall p :: p in nodes && p !in scannedFiles ==> nodes[p] == [])
      && (forall p :: p in scannedFiles - open ==> nodes[p] == Directives(resolve, fs, p, p == root, scalars))
      && Closed(nodes)
    }

    // The existing files among the nodes that were not scanned yet.
    ghost function Pending(fs: FileSystem): set<Path>
      reads this`nodes, this`scannedFiles
    {
      nodes.Keys * fs.Keys - scannedFiles
    }

    lemma EdgeKeepsScanning(before: Edges, resolve: Resolver, fs: FileSystem, root: Path, scalars: seq<string>,
            open: set<Path>, from: Path, to: Path)
      requires from in open && from in before && Closed(before)
      requires open <= scannedFiles <= before.Keys && scannedFiles <= fs.Keys
      requires forall p :: p in before && p !in scannedFiles ==> before[p] == []
      requires forall p :: p in scannedFiles - open ==> before[p] == Directives(resolve, fs, p, p == root, scalars)
      requires var n2 := if to in before then before else before[to := []];
               nodes == n2[from := n2[from] + [to]]
      ensures Scanning(resolve, fs, root, scalars, open)
    {
      forall p, i | p in nodes && 0 <= i < |nodes[p]| ensures nodes[p][i] in nodes {
        if p == from {
          if i < |before[from]| { assert before[from][i] in before; }
        } else if p in before {
          assert before[p][i] in before;
        }
      }
    }

    // buildGraphRecursive
    method Scan(resolve: Resolver, fs: FileSystem, root: Path, scalars: seq<string>, current: Path,
            ghost open: set<Path>)
      requires Scanning(resolve, fs, root, scalars, open)
      requires Pending(fs) <= {current}
      requires AllReached(nodes, root) && (current in nodes || (nodes == map[] && current == root))
      modifies this`nodes, this`scannedFiles
      ensures Scanning(resolve, fs, root, scalars, open)
      ensures AllReached(nodes, root) && old(nodes).Keys <= nodes.Keys
      ensures Pending(fs) == {}
      ensures old(scannedFiles) <= scannedFiles
      ensures current in fs ==> current in scannedFiles
      ensures forall p :: p in open ==> nodes[p] == old(nodes)[p]
      decreases fs.Keys - scannedFiles, 0
    {
      if current in scannedFiles || current !in fs { return; }
      scannedFiles := scannedFiles + {current};
      AddNode(current);
      assert old(nodes) == map[] ==> LeadsFrom(nodes, root, root, [root]) && Reached(nodes, root, root);
      ScanDependencies(resolve, fs, root, scalars, current, open + {current});
    }

    lemma NewEdgeReaches(before: Edges, root: Path, from: Path, to: Path)
      requires AllReached(before, root) && from in before
      requires var n2 := if to in before then before else before[to := []];
               nodes == n2[from := n2[from] + [to]]
      ensures AllReached(nodes, root)
    {
      ReachedStays(before, nodes, root, from);
      EdgeReaches(nodes, root, from, to);
      forall p | p in nodes ensures Reached(nodes, root, p) {
        if p in before { ReachedStays(before, nodes, root, p); }
      }
    }

    // One more edge of an open file, whose target may have to be scanned.
    method AddDependency(resolve: Resolver, fs: FileSystem, root: Path, scalars: seq<string>, current: Path, to: Path,
            ghost open: set<Path>)
      requires Scanning(resolve, fs, root, scalars, open) && current in open && Pending(fs) == {}
      requires AllReached(nodes, root)
      modifies this`nodes
      ensures AllReached(nodes, root) && old(nodes).Keys + {to} <= nodes.Keys
      ensures Scanning(resolve, fs, root, scalars, open) && Pending(fs) <= {to}
      ensures nodes[current] == old(nodes)[current] + [to]
      ensures forall p :: p in open && p != current ==> nodes[p] == old(nodes)[p]
    {
      ghost var before := nodes;
      AddEdge(current, to);
      EdgeKeepsScanning(before, resolve, fs, root, scalars, open, current, to);
      NewEdgeReaches(before, root, current, to);
    }

    method FollowDependency(resolve: Resolver, fs: FileSystem, root: Path, scalars: seq<string>, current: Path,
            to: Path, ghost open: set<Path>)
      requires Scanning(resolve, fs, root, scalars, open) && current in open && Pending(fs) == {}
      requires AllReached(nodes, root)
      modifies this`nodes, this`scannedFiles
      ensures Scanning(resolve, fs, root, scalars, open) && Pending(fs) == {}
      ensures AllReached(nodes, root) && old(nodes).Keys <= nodes.Keys
      ensures old(scannedFiles) <= scannedFiles
      ensures nodes[current] == old(nodes)[current] + [to]
      ensures forall p :: p in open && p != current ==> nodes[p] == old(nodes)[p]
      decreases fs.Keys - scannedFiles, 1
    {
      AddDependency(resolve, fs, root, scalars, current, to, open);
      Scan(resolve, fs, root, scalars, to, open);
    }

    // The loop over the directives of a file that was just opened.
    method FollowAll(resolve: Resolver, fs: FileSystem, root: Path, scalars: seq<string>, current: Path,
            dependencies: seq<Path>, ghost open: set<Path>)
      requires Scanning(resolve, fs, root, scalars, open) && current in open
      requires Pending(fs) == {} && nodes[current] == []
      requires AllReached(nodes, root)
      modifies this`nodes, this`scannedFiles
      ensures Scanning(resolve, fs, root, scalars, open) && nodes[current] == dependencies
      ensures AllReached(nodes, root) && old(nodes).Keys <= nodes.Keys
      ensures Pending(fs) == {}
      ensures old(scannedFiles) <= scannedFiles
      ensures forall p :: p in open && p != current ==> nodes[p] == old(nodes)[p]
      decreases fs.Keys - scannedFiles, 2
    {
      for k := 0 to |dependencies|
        invariant Scanning(resolve, fs, root, scalars, open)
        invariant Pending(fs) == {}
        invariant AllReached(nodes, root) && old(nodes).Keys <= nodes.Keys
        invariant old(scannedFiles) <= scannedFiles
        invariant nodes[current] == dependencies[..k]
        invariant forall p :: p in open && p != current ==> nodes[p] == old(nodes)[p]
      {
        assert dependencies[..k + 1] == dependencies[..k] + [dependencies[k]];
        FollowDependency(resolve, fs, root, scalars, current, dependencies[k], open);
      }
      assert dependencies[..|dependencies|] == dependencies;
    }

    // A file that was just opened gets its directives as edges, and is closed.
    method ScanDependencies(resolve: Resolver, fs: FileSystem, root: Path, scalars: seq<string>, current: Path,
            ghost open: set<Path>)
      requires Scanning(resolve, fs, root, scalars, open) && current in open
      requires Pending(fs) == {} && nodes[current] == []
      requires AllReached(nodes, root)
      modifies this`nodes, this`scannedFiles
      ensures AllReached(nodes, root) && old(nodes).Keys <= nodes.Keys
      ensures Scanning(resolve, fs, root, scalars, open - {current})
      ensures Pending(fs) == {}
      ensures old(scannedFiles) <= scannedFiles
      ensures forall p :: p in open && p != current ==> nodes[p] == old(nodes)[p]
      decreases fs.Keys - scannedFiles, 3
    {
      FollowAll(resolve, fs, root, scalars, current, Directives(resolve, fs, current, current == root, scalars), open);
    }

    // buildDependencyGraph
    method Build(resolve: Resolver, fs: FileSystem, root: Path, scalars: seq<string>) returns (r: BuildResult)
      requires nodes == map[] && scannedFiles == {}
      modifies this`nodes, this`scannedFiles
      ensures r == if root in fs then Built else RootMissing
      ensures r == Built ==> ScanOf(nodes, resolve, fs, root, scalars)
    {
      if root !in fs { return RootMissing; }
      Scan(resolve, fs, root, scalars, root, {});
      assert forall p :: p in nodes && p in fs ==> p !in Pending(fs);
      return Built;
    }

    // -------------------------------------------------------------- cycles

    // The flags of the search: path is the branch being explored, order the files
    // that are done, and everything a done file includes is done before it.
    ghost predicate Searching(path: seq<Path>)
      reads this
    {
      && Closed(nodes)
      && visiting == (set p | p in path)
      && visited == (set p | p in order)
      && visiting !! visited
      && (forall i, j :: 0 <= i < j < |path| ==> path[i] != path[j])
      && EdgePath(nodes, path)
      && Topological(nodes, order)
    }

    // dfs: explores p below the branch path.  A cycle comes back as the branch that
    // closed it.
    method Dfs(p: Path, path: seq<Path>) returns (cycle: seq<Path>)
      requires Searching(path) && p in nodes && p !in visiting && p !in visited
      requires path != [] ==> p in nodes[path[|path| - 1]]
      modifies this`visiting, this`visited, this`order
      ensures cycle == [] ==> Searching(path) && p in visited && old(visited) <= visited
      ensures cycle == [] ==> order != [] && order[|order| - 1] == p
      ensures cycle != [] ==> path + [p] <= cycle && CyclePath(nodes, cycle[0], cycle)
      decreases nodes.Keys - visited - visiting, 0
    {
      visiting := visiting + {p};
      var branch := path + [p];
      assert Searching(branch);
      cycle := ExploreDependencies(p, branch);
      if cycle == [] {
        TopologicalAppend(nodes, order, p);
        visiting := visiting - {p};
        visited := visited + {p};
        order := order + [p];
        assert path == branch[..|path|];
      }
    }

    method ExploreDependencies(p: Path, branch: seq<Path>) returns (cycle: seq<Path>)
      requires Searching(branch) && branch != [] && branch[|branch| - 1] == p
      modifies this`visiting, this`visited, this`order
      ensures cycle == [] ==> Searching(branch) && old(visited) <= visited && forall d :: d in nodes[p] ==> d in visited
      ensures cycle != [] ==> branch <= cycle && CyclePath(nodes, cycle[0], cycle)
      decreases nodes.Keys - visited - visiting, 1
    {
      var dependencies := nodes[p];
      for k := 0 to |dependencies|
        invariant Searching(branch) && old(visited) <= visited
        invariant forall i :: 0 <= i < k ==> dependencies[i] in visited
      {
        var d := dependencies[k];
        if d in visiting {
          return branch + [d];
        }
        if d !in visited {
          cycle := Dfs(d, branch);
          if cycle != [] { return; }
        }
      }
      return [];
    }

    // detectCycle: a report is a real path from the root that bites its tail, and
    // no report means that no such path exists, because the files reached by the
    // search can be listed so that includes always lead backwards.
    method DetectCycle(root: Path) returns (cycle: seq<Path>)
      requires Closed(nodes) && root in nodes && visiting == {} && visited == {} && order == []
      modifies this`visiting, this`visited, this`order
      ensures cycle != [] ==> CyclePath(nodes, root, cycle)
      ensures cycle == [] ==> Topological(nodes, order) && order != [] && order[|order| - 1] == root
      ensures cycle == [] <==> forall path :: !CyclePath(nodes, root, path)
    {
      cycle := Dfs(root, []);
      if cycle == [] {
        forall path ensures !CyclePath(nodes, root, path) {
          OrderedGraphHasNoCycle(nodes, order, root, path);
        }
      } else {
        assert cycle[0] == root;
      }
    }
  }
}
