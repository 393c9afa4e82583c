/**
 What the rings of a link hold and in which order, said of the map's own lists of nodes and edges: each
 edge counted as often as it is listed, and nothing cut before something that ranks after it.
 */
module MapRings {
  import opened Wrappers
  import opened JsonText
  import opened KeyOrder
  import opened Sorting
  import opened MapLink

  // ---- Nodes ----

  /** The node stands at this place, and no later one has its id. */
  ghost predicate LastAt(nodes: seq<Node>, i: int, id: Text, node: Node) {
    && 0 <= i < |nodes| && nodes[i] == node && node.id == id
    && forall j :: i < j < |nodes| ==> nodes[j].id != id
  }

  /** The last node listed under an id. */
  ghost predicate Knows(m: ProjectMap, id: Text, node: Node) {
    exists i :: LastAt(m.nodes, i, id, node)
  }

  lemma {:induction false} NodeHasPlace(nodes: seq<Node>, id: Text, node: Node) returns (i: int)
    requires NodeOf(nodes, id) == Some(node)
    ensures LastAt(nodes, i, id, node)
  {
    var n := |nodes| - 1;
    if nodes[n].id == id {
      i := n;
    } else {
      i := NodeHasPlace(nodes[..n], id, node);
      assert nodes[..n][i] == nodes[i];
    }
  }

  lemma {:induction false} PlaceIsNode(nodes: seq<Node>, i: int, id: Text, node: Node)
    requires LastAt(nodes, i, id, node)
    ensures NodeOf(nodes, id) == Some(node)
  {
    var n := |nodes| - 1;
    if i < n {
      assert nodes[..n][i] == nodes[i];
      PlaceIsNode(nodes[..n], i, id, node);
    }
  }

  lemma KnowsIff(m: ProjectMap, id: Text, node: Node)
    ensures NodeOf(m.nodes, id) == Some(node) <==> Knows(m, id, node)
  {
    if NodeOf(m.nodes, id) == Some(node) {
      var i := NodeHasPlace(m.nodes, id, node);
    } else if Knows(m, id, node) {
      var i :| LastAt(m.nodes, i, id, node);
      PlaceIsNode(m.nodes, i, id, node);
    }
  }

  /**
   The file node of a changed file: the last node listed in its repository's map under its path, if that
   is a file's. A linked worktree's repository is its main one.
   */
  lemma NodeAtIff(maps: map<Text, ProjectMap>, location: Location, node: Node)
    ensures NodeAt(maps, location) == Some(node) <==>
              && location.At?
              && var repository :=
                   if location.mainRoot.Some? then location.mainRoot.value else location.root;
                 && repository in maps && node.kind.FileNode?
                 && Knows(maps[repository], Chars("file:") + location.path, node)
  {
    if location.At? && RepositoryOf(location) in maps {
      var m := maps[RepositoryOf(location)];
      KnowsIff(m, FileNodeId(location.path), node);
      hide NodeOf;
    }
  }

  // ---- Edges ----

  lemma CountsAdd<T>(a: seq<T>, b: seq<T>, x: T)
    ensures multiset(a + b)[x] == multiset(a)[x] + multiset(b)[x]
  {
  }

  lemma {:induction false} TouchingCounted(edges: seq<Edge>, id: Text, outgoing: bool, e: Edge)
    ensures multiset(Touching(edges, id, outgoing))[e]
            == if (if outgoing then e.from else e.to) == id then multiset(edges)[e] else 0
  {
    if edges != [] {
      TouchingCounted(edges[..|edges| - 1], id, outgoing, e);
      assert edges == edges[..|edges| - 1] + [edges[|edges| - 1]];
    }
  }

  /** A known node of this id is a module. */
  ghost predicate KnownModule(m: ProjectMap, id: Text, node: Node) {
    Knows(m, id, node) && node.kind.ModuleNode?
  }

  lemma {:induction false} DependentsByCounted(nodes: seq<Node>, edges: seq<Edge>, o: Owner)
    ensures multiset(DependentsBy(nodes, edges))[o]
            == if o in DependentBy(nodes, o.edge) then multiset(edges)[o.edge] else 0
  {
    if edges != [] {
      var front, last := edges[..|edges| - 1], edges[|edges| - 1];
      DependentsByCounted(nodes, front, o);
      assert edges == front + [last];
      assert o in DependentBy(nodes, last) ==> o.edge == last;
    }
  }

  /**
   The dependents of a module: each `depends-on` edge to it that starts at a known module, as often as it
   is listed, and nothing else.
   */
  lemma DependentsIff(m: ProjectMap, id: Text, o: Owner)
    ensures multiset(DependentsOf(m, id))[o] ==
            if o.edge.kind.DependsOn? && o.edge.to == id && KnownModule(m, o.edge.from, o.owner)
            then multiset(m.edges)[o.edge] else 0
  {
    DependentsByCounted(m.nodes, Touching(m.edges, id, false), o);
    TouchingCounted(m.edges, id, false, o.edge);
    KnowsIff(m, o.edge.from, o.owner);
    hide Touching, NodeOf;
  }

  lemma {:induction false} OwnersByCounted(nodes: seq<Node>, edges: seq<Edge>, o: Owner)
    ensures multiset(OwnersBy(nodes, edges))[o]
            == if o in OwnerBy(nodes, o.edge) then multiset(edges)[o.edge] else 0
  {
    if edges != [] {
      var front, last := edges[..|edges| - 1], edges[|edges| - 1];
      OwnersByCounted(nodes, front, o);
      assert edges == front + [last];
      assert o in OwnerBy(nodes, last) ==> o.edge == last;
    }
  }

  /** The owners of a node: each `contains` or `compiles` edge to it from a known module, as listed. */
  lemma OwnersCounted(m: ProjectMap, id: Text, o: Owner)
    ensures multiset(OwnersOf(m, id))[o] ==
            if (o.edge.kind.Contains? || o.edge.kind.Compiles?) && o.edge.to == id
               && KnownModule(m, o.edge.from, o.owner)
            then multiset(m.edges)[o.edge] else 0
  {
    OwnersByCounted(m.nodes, Touching(m.edges, id, false), o);
    TouchingCounted(m.edges, id, false, o.edge);
    KnowsIff(m, o.edge.from, o.owner);
    hide Touching, NodeOf;
  }

  lemma AcrossCounted(nodes: seq<Node>, changed: set<Text>, e: Edge, direction: Direction, n: Neighbour)
    ensures multiset(Across(nodes, changed, e, direction))[n]
            == if n.edge == e && n in Across(nodes, changed, n.edge, direction) then 1 else 0
  {
    hide NodeOf;
  }

  lemma OneMoreCounted(before: seq<Neighbour>, added: seq<Neighbour>, front: seq<Edge>, last: Edge,
                       n: Neighbour, given: bool)
    requires multiset(before)[n] == if given then multiset(front)[n.edge] else 0
    requires multiset(added)[n] == if n.edge == last && given then 1 else 0
    ensures multiset(before + added)[n] == if given then multiset(front + [last])[n.edge] else 0
  {
    CountsAdd(before, added, n);
    CountsAdd(front, [last], n.edge);
  }

  lemma {:induction false} AcrossAllCounted(nodes: seq<Node>, changed: set<Text>, edges: seq<Edge>,
                                            direction: Direction, n: Neighbour)
    ensures multiset(AcrossAll(nodes, changed, edges, direction))[n]
            == if n in Across(nodes, changed, n.edge, direction) then multiset(edges)[n.edge] else 0
  {
    hide Across;
    if edges != [] {
      var front, last := edges[..|edges| - 1], edges[|edges| - 1];
      AcrossAllCounted(nodes, changed, front, direction, n);
      AcrossCounted(nodes, changed, last, direction, n);
      assert edges == front + [last];
      OneMoreCounted(AcrossAll(nodes, changed, front, direction),
                     Across(nodes, changed, last, direction), front, last, n,
                     n in Across(nodes, changed, n.edge, direction));
    }
  }

  /** What a reader sees of a node: its path or name, or else its id. */
  function Shown(n: Node): Text {
    match n.text
    case Some(text) => text
    case None => n.id
  }

  /** Kinds by which one file names another. */
  predicate BetweenFiles(kind: EdgeKind) {
    kind.Imports? || kind.ImportsType? || kind.ReExports? || kind.ImportsDynamic? || kind.Requires?
  }

  /**
   The neighbours of a file: each edge between files that starts at it, and each that ends at it, as often
   as listed, with the known node at its other end, marked changed exactly when that is a changed file.
   */
  lemma AroundCounted(m: ProjectMap, changed: set<Text>, id: Text, n: Neighbour)
    ensures multiset(Around(m, changed, id))[n] ==
            if BetweenFiles(n.edge.kind)
               && (if n.direction.ImportsIt? then n.edge.from else n.edge.to) == id
               && Knows(m, if n.direction.ImportsIt? then n.edge.to else n.edge.from, n.node)
               && n.changed == (n.node.kind.FileNode? && Shown(n.node) in changed)
            then multiset(m.edges)[n.edge] else 0
  {
    AcrossAllCounted(m.nodes, changed, Touching(m.edges, id, true), ImportsIt, n);
    AcrossAllCounted(m.nodes, changed, Touching(m.edges, id, false), ImportedBy, n);
    TouchingCounted(m.edges, id, true, n.edge);
    TouchingCounted(m.edges, id, false, n.edge);
    hide Touching, NodeOf, AcrossAll, Knows;
    KnowsIff(m, n.edge.to, n.node);
    KnowsIff(m, n.edge.from, n.node);
  }

  // ---- Orders ----

  /** The first unit that differs is smaller, or the text ends there. */
  predicate Precedes(a: Text, b: Text) {
    exists k :: 0 <= k <= |a| && k < |b| && a[..k] == b[..k] && (k == |a| || a[k] < b[k])
  }

  lemma {:induction false} LessIff(a: Text, b: Text)
    ensures Less(a, b) <==> Precedes(a, b)
  {
    if Less(a, b) {
      if a == [] || a[0] < b[0] {
        assert a[..0] == b[..0];
      } else {
        LessIff(a[1..], b[1..]);
        var k :| 0 <= k <= |a[1..]| && k < |b[1..]| && a[1..][..k] == b[1..][..k]
                 && (k == |a[1..]| || a[1..][k] < b[1..][k]);
        assert a[..k + 1] == [a[0]] + a[1..][..k] && b[..k + 1] == [b[0]] + b[1..][..k];
      }
    }
    if k :| 0 <= k <= |a| && k < |b| && a[..k] == b[..k] && (k == |a| || a[k] < b[k]) {
      if k > 0 {
        assert a[0] == a[..k][0] == b[..k][0] == b[0];
        assert a[1..][..k - 1] == a[..k][1..] && b[1..][..k - 1] == b[..k][1..];
        LessIff(a[1..], b[1..]);
      }
    }
  }

  lemma ByTextIff(a: Text, b: Text)
    ensures ByText(a, b) < 0 <==> Precedes(a, b)
    ensures ByText(a, b) == 0 <==> a == b
  {
    LessIff(a, b);
    ByTextOrders(a, b, b);
    hide Less, Precedes;
  }

  /** Files rank before modules, these before packages, and these before built-in modules. */
  predicate KindPrecedes(a: NodeKind, b: NodeKind) {
    || (a.FileNode? && !b.FileNode?)
    || (a.ModuleNode? && (b.PackageNode? || b.BuiltinNode?))
    || (a.PackageNode? && b.BuiltinNode?)
  }

  /** What a file imports ranks before what imports it, then by kind of node, label and kind of edge. */
  predicate NeighbourPrecedes(a: Neighbour, b: Neighbour) {
    || (a.direction.ImportsIt? && b.direction.ImportedBy?)
    || (a.direction == b.direction
        && (|| KindPrecedes(a.node.kind, b.node.kind)
            || (a.node.kind == b.node.kind
                && (|| Precedes(Shown(a.node), Shown(b.node))
                    || (Shown(a.node) == Shown(b.node)
                        && Precedes(a.edge.kind.Name(), b.edge.kind.Name()))))))
  }

  /** The kinds of edge between files rank in the order of their names. */
  lemma FileKindsInOrder()
    ensures Precedes(Imports.Name(), ImportsDynamic.Name())
    ensures Precedes(ImportsDynamic.Name(), ImportsType.Name())
    ensures Precedes(ImportsType.Name(), ReExports.Name())
    ensures Precedes(ReExports.Name(), Requires.Name())
  {
    PrecedesAt(Imports.Name(), ImportsDynamic.Name(), 7);
    PrecedesAt(ImportsDynamic.Name(), ImportsType.Name(), 8);
    PrecedesAt(ImportsType.Name(), ReExports.Name(), 0);
    PrecedesAt(ReExports.Name(), Requires.Name(), 2);
  }

  lemma PrecedesAt(a: Text, b: Text, k: int)
    requires 0 <= k <= |a| && k < |b| && (k == |a| || a[k] < b[k])
    requires forall i :: 0 <= i < k ==> a[i] == b[i]
    ensures Precedes(a, b)
  {
    assert a[..k] == b[..k];
  }

  lemma NeighboursCompareIff(a: Neighbour, b: Neighbour)
    ensures CompareNeighbours(a, b) < 0 <==> NeighbourPrecedes(a, b)
  {
    ByTextIff(a.node.Label(), b.node.Label());
    ByTextIff(a.edge.kind.Name(), b.edge.kind.Name());
    hide ByText, Precedes, EdgeKind.Name;
  }

  /** More changed files rank first, then the smaller module id. */
  predicate ModulePrecedes(a: ModuleLink, b: ModuleLink) {
    || |a.changedFiles| > |b.changedFiles|
    || (|a.changedFiles| == |b.changedFiles| && Precedes(a.owner, b.owner))
  }

  lemma ModulesCompareIff(a: ModuleLink, b: ModuleLink)
    ensures CompareModules(a, b) < 0 <==> ModulePrecedes(a, b)
  {
    ByTextIff(a.owner, b.owner);
    hide ByText, Precedes;
  }

  /**
   No neighbour of a link ranks after one that was cut, or after one listed later: the ring is the front of
   all neighbours in order.
   */
  lemma NeighboursInOrder(m: ProjectMap, changed: set<Text>, id: Text, all: seq<Neighbour>)
    requires Ranked(m, changed, id, all)
    ensures forall i, j :: 0 <= i < j < |all| ==> !NeighbourPrecedes(all[j], all[i])
  {
    forall i, j | 0 <= i < j < |all| ensures !NeighbourPrecedes(all[j], all[i]) {
      assert CompareNeighbours(all[i], all[j]) <= 0;
      NeighboursCompareIff(all[j], all[i]);
      NeighboursCompareIff(all[i], all[j]);
      NeighboursAsymmetric(all[i], all[j]);
    }
  }

  lemma NeighboursAsymmetric(a: Neighbour, b: Neighbour)
    requires CompareNeighbours(a, b) <= 0
    ensures !(CompareNeighbours(b, a) < 0)
  {
    hide ByText, EdgeKind.Name, Node.Label;
    ByTextOrders(a.node.Label(), b.node.Label(), b.node.Label());
    ByTextOrders(b.node.Label(), a.node.Label(), a.node.Label());
    ByTextOrders(a.edge.kind.Name(), b.edge.kind.Name(), b.edge.kind.Name());
    ByTextOrders(b.edge.kind.Name(), a.edge.kind.Name(), a.edge.kind.Name());
  }

  /** The same of owners and of dependents, which rank by module id. */
  lemma OwnersInOrder(all: seq<Owner>)
    requires SortedBy(CompareOwners, all)
    ensures forall i, j :: 0 <= i < j < |all| ==> !Precedes(all[j].owner.id, all[i].owner.id)
  {
    hide Precedes, ByText;
    forall i, j | 0 <= i < j < |all| ensures !Precedes(all[j].owner.id, all[i].owner.id) {
      assert CompareOwners(all[i], all[j]) <= 0;
      ByTextIff(all[j].owner.id, all[i].owner.id);
      ByTextOrders(all[i].owner.id, all[j].owner.id, all[j].owner.id);
      ByTextOrders(all[j].owner.id, all[i].owner.id, all[i].owner.id);
    }
  }

  /** And of the module ring. */
  lemma ModulesInOrder(all: seq<ModuleLink>)
    requires SortedBy(CompareModules, all)
    ensures forall i, j :: 0 <= i < j < |all| ==> !ModulePrecedes(all[j], all[i])
  {
    hide Precedes, ByText;
    forall i, j | 0 <= i < j < |all| ensures !ModulePrecedes(all[j], all[i]) {
      assert CompareModules(all[i], all[j]) <= 0;
      ModulesCompareIff(all[j], all[i]);
      ByTextOrders(all[i].owner, all[j].owner, all[j].owner);
      ByTextOrders(all[j].owner, all[i].owner, all[i].owner);
    }
  }

  // ---- Files carried ----

  /** Carried files keep their order: they stand at ascending places, which are all representable ones. */
  lemma {:induction false} CarriedInOrder(printable: Text -> bool, files: seq<ChangedFile>)
    returns (places: seq<int>)
    ensures |places| == |Carried(printable, files)|
    ensures forall i, j :: 0 <= i < j < |places| ==> places[i] < places[j]
    ensures forall i :: 0 <= i < |places| ==>
              0 <= places[i] < |files| && Carried(printable, files)[i] == files[places[i]]
    ensures forall n :: 0 <= n < |files| ==> (n in places <==> Representable(printable, files[n]))
  {
    hide Representable;
    if files == [] {
      places := [];
    } else {
      var n := |files| - 1;
      var front := CarriedInOrder(printable, files[..n]);
      places := front + if Representable(printable, files[n]) then [n] else [];
      forall k | 0 <= k < |files| ensures k in places <==> Representable(printable, files[k]) {
        if k < n {
          assert files[..n][k] == files[k];
        } else {
          assert n !in front;
        }
      }
    }
  }

  /** The changed paths of a repository: those of the kept files that lie in it or a worktree of it. */
  lemma ChangedInIff(kept: seq<ChangedFile>, repository: Text, path: Text)
    ensures path in ChangedIn(kept, repository) <==>
              exists i :: 0 <= i < |kept| && kept[i].location.At? && kept[i].location.path == path
                          && repository == if kept[i].location.mainRoot.Some?
                                           then kept[i].location.mainRoot.value
                                           else kept[i].location.root
  {
    if path in ChangedIn(kept, repository) {
      var f :| f in kept && f.location.At? && RepositoryOf(f.location) == repository
               && f.location.path == path;
      var i :| 0 <= i < |kept| && kept[i] == f;
    }
  }

  /** A clipped list is the front of the whole, as long as the limit allows. */
  lemma ClippedIsFront<T>(s: seq<T>, limit: nat)
    ensures Clipped(s, limit) <= s
    ensures |Clipped(s, limit)| <= limit
    ensures |Clipped(s, limit)| < limit ==> Clipped(s, limit) == s
  {
  }
}
