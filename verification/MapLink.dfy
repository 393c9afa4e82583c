/**
 Linking a session's changed files to a project map: the map's index, a file's neighbours and
 owners, and the modules whose files changed.
 */
module MapLink {
  import opened Wrappers
  import opened JsonText
  import opened KeyOrder
  import opened IntSets
  import opened Sorting

  // ---- The map ----

  datatype EdgeKind =
    | Imports | ImportsType | ReExports | ImportsDynamic | Requires | Contains | Compiles | DependsOn
  {
    /** Kinds by which one file names another. */
    predicate OfFiles() {
      Imports? || ImportsType? || ReExports? || ImportsDynamic? || Requires?
    }

    /** Kinds by which a module owns a file. */
    predicate Owns() {
      Contains? || Compiles?
    }

    function Name(): Text {
      match this
      case Imports => Chars("imports")
      case ImportsType => Chars("imports-type")
      case ReExports => Chars("re-exports")
      case ImportsDynamic => Chars("imports-dynamic")
      case Requires => Chars("requires")
      case Contains => Chars("contains")
      case Compiles => Chars("compiles")
      case DependsOn => Chars("depends-on")
    }
  }

  function Chars(s: string): Text {
    seq(|s|, i requires 0 <= i < |s| => s[i] as int)
  }

  datatype NodeKind = FileNode | ModuleNode | PackageNode | BuiltinNode {
    function Rank(): int {
      match this
      case FileNode => 0
      case ModuleNode => 1
      case PackageNode => 2
      case BuiltinNode => 3
    }
  }

  /** A file's text is its path; anything else may have a name. */
  datatype Node = Node(id: Text, kind: NodeKind, text: Option<Text>) {
    function Label(): Text {
      if text.Some? then text.value else id
    }
  }

  datatype Edge = Edge(id: Text, kind: EdgeKind, from: Text, to: Text)

  datatype ProjectMap = ProjectMap(nodes: seq<Node>, edges: seq<Edge>)

  function FileNodeId(path: Text): Text {
    Chars("file:") + path
  }

  /** The last node listed under an id. */
  function NodeOf(nodes: seq<Node>, id: Text): Option<Node> {
    if nodes == [] then None
    else if nodes[|nodes| - 1].id == id then Some(nodes[|nodes| - 1])
    else NodeOf(nodes[..|nodes| - 1], id)
  }

  /** The edges that start, or end, at a node, in the map's order. */
  function Touching(edges: seq<Edge>, id: Text, outgoing: bool): seq<Edge> {
    if edges == [] then []
    else
      var e := edges[|edges| - 1];
      Touching(edges[..|edges| - 1], id, outgoing)
      + if (if outgoing then e.from else e.to) == id then [e] else []
  }

  function Listed(table: map<Text, seq<Edge>>, id: Text): seq<Edge> {
    if id in table then table[id] else []
  }

  function Pushed(table: map<Text, seq<Edge>>, id: Text, e: Edge): map<Text, seq<Edge>> {
    table[id := Listed(table, id) + [e]]
  }

  /** One map, indexed for the questions a link asks of it. */
  class MapIndex {
    var nodes: map<Text, Node>
    var outgoing: map<Text, seq<Edge>>
    var incoming: map<Text, seq<Edge>>

    /** The index answers exactly what a scan of the map would. */
    ghost predicate Indexes(m: ProjectMap)
      reads this
    {
      && (forall id :: (if id in nodes then Some(nodes[id]) else None) == NodeOf(m.nodes, id))
      && (forall id :: Listed(outgoing, id) == Touching(m.edges, id, true))
      && (forall id :: Listed(incoming, id) == Touching(m.edges, id, false))
    }

    constructor (m: ProjectMap)
      ensures Indexes(m)
    {
      nodes, outgoing, incoming := map[], map[], map[];
      new;
      IndexNodes(m);
      IndexEdges(m);
    }

    method IndexNodes(m: ProjectMap)
      requires nodes == map[]
      modifies this`nodes
      ensures forall id :: (if id in nodes then Some(nodes[id]) else None) == NodeOf(m.nodes, id)
    {
      var i := 0;
      while i < |m.nodes|
        invariant 0 <= i <= |m.nodes|
        invariant forall id ::
                    (if id in nodes then Some(nodes[id]) else None) == NodeOf(m.nodes[..i], id)
      {
        assert m.nodes[..i + 1][..i] == m.nodes[..i];
        nodes := nodes[m.nodes[i].id := m.nodes[i]];
        i := i + 1;
      }
      assert m.nodes[..i] == m.nodes;
    }

    method IndexEdges(m: ProjectMap)
      requires outgoing == map[] && incoming == map[]
      modifies this`outgoing, this`incoming
      ensures forall id :: Listed(outgoing, id) == Touching(m.edges, id, true)
      ensures forall id :: Listed(incoming, id) == Touching(m.edges, id, false)
    {
      hide Pushed;
      var j := 0;
      while j < |m.edges|
        invariant 0 <= j <= |m.edges|
        invariant forall id :: Listed(outgoing, id) == Touching(m.edges[..j], id, true)
        invariant forall id :: Listed(incoming, id) == Touching(m.edges[..j], id, false)
      {
        PushedLists(outgoing, m.edges, j, true);
        PushedLists(incoming, m.edges, j, false);
        outgoing := Pushed(outgoing, m.edges[j].from, m.edges[j]);
        incoming := Pushed(incoming, m.edges[j].to, m.edges[j]);
        j := j + 1;
      }
      assert m.edges[..j] == m.edges;
    }
  }

  lemma PushedLists(table: map<Text, seq<Edge>>, edges: seq<Edge>, j: int, outgoing: bool)
    requires 0 <= j < |edges|
    requires forall id :: Listed(table, id) == Touching(edges[..j], id, outgoing)
    ensures var key := if outgoing then edges[j].from else edges[j].to;
            forall id :: Listed(Pushed(table, key, edges[j]), id)
                         == Touching(edges[..j + 1], id, outgoing)
  {
    assert edges[..j + 1][..j] == edges[..j];
  }

  // ---- Ring 1: a file's neighbours ----

  datatype Direction = ImportsIt | ImportedBy

  datatype Neighbour = Neighbour(direction: Direction, edge: Edge, node: Node, changed: bool)

  /** Imports before importers, files before modules and packages, then by path or name, then kind. */
  function CompareNeighbours(a: Neighbour, b: Neighbour): int {
    if a.direction != b.direction then (if a.direction == ImportsIt then -1 else 1)
    else if a.node.kind != b.node.kind then a.node.kind.Rank() - b.node.kind.Rank()
    else if ByText(a.node.Label(), b.node.Label()) != 0 then
      ByText(a.node.Label(), b.node.Label())
    else ByText(a.edge.kind.Name(), b.edge.kind.Name())
  }

  lemma NeighboursAreOrdered()
    ensures TotalPreorder(CompareNeighbours)
  {
    forall a, b ensures CompareNeighbours(a, b) <= 0 || CompareNeighbours(b, a) <= 0 {
      CompareIsTotal(a, b);
    }
    forall a, b, c | CompareNeighbours(a, b) <= 0 && CompareNeighbours(b, c) <= 0
      ensures CompareNeighbours(a, c) <= 0
    {
      CompareIsTransitive(a, b, c);
    }
  }

  lemma CompareIsTotal(a: Neighbour, b: Neighbour)
    ensures CompareNeighbours(a, b) <= 0 || CompareNeighbours(b, a) <= 0
  {
    hide ByText, EdgeKind.Name;
    ByTextOrders(a.node.Label(), b.node.Label(), b.node.Label());
    ByTextOrders(b.node.Label(), a.node.Label(), a.node.Label());
    ByTextOrders(a.edge.kind.Name(), b.edge.kind.Name(), b.edge.kind.Name());
  }

  lemma CompareIsTransitive(a: Neighbour, b: Neighbour, c: Neighbour)
    requires CompareNeighbours(a, b) <= 0 && CompareNeighbours(b, c) <= 0
    ensures CompareNeighbours(a, c) <= 0
  {
    hide ByText, EdgeKind.Name;
    ByTextOrders(a.node.Label(), b.node.Label(), c.node.Label());
    ByTextOrders(a.edge.kind.Name(), b.edge.kind.Name(), c.edge.kind.Name());
  }

  /** The neighbour a file edge gives, if its other end is a node of the map. */
  function Across(nodes: seq<Node>, changed: set<Text>, e: Edge, direction: Direction)
    : seq<Neighbour>
  {
    var other := NodeOf(nodes, if direction == ImportsIt then e.to else e.from);
    if !e.kind.OfFiles() || other.None? then []
    else [Neighbour(direction, e, other.value,
                    other.value.kind.FileNode? && other.value.Label() in changed)]
  }

  function AcrossAll(nodes: seq<Node>, changed: set<Text>, edges: seq<Edge>, direction: Direction)
    : seq<Neighbour>
  {
    if edges == [] then []
    else AcrossAll(nodes, changed, edges[..|edges| - 1], direction)
         + Across(nodes, changed, edges[|edges| - 1], direction)
  }

  /** Everything a file imports, then everything that imports it. */
  function Around(m: ProjectMap, changed: set<Text>, id: Text): seq<Neighbour> {
    AcrossAll(m.nodes, changed, Touching(m.edges, id, true), ImportsIt)
    + AcrossAll(m.nodes, changed, Touching(m.edges, id, false), ImportedBy)
  }

  method Gather(index: MapIndex, ghost m: ProjectMap, changed: set<Text>, edges: seq<Edge>,
                direction: Direction) returns (neighbours: seq<Neighbour>)
    requires index.Indexes(m)
    ensures neighbours == AcrossAll(m.nodes, changed, edges, direction)
  {
    neighbours := [];
    var i := 0;
    while i < |edges|
      invariant 0 <= i <= |edges|
      invariant neighbours == AcrossAll(m.nodes, changed, edges[..i], direction)
    {
      assert edges[..i + 1][..i] == edges[..i];
      neighbours := neighbours + Added(index, m, changed, edges[i], direction);
      i := i + 1;
    }
    assert edges[..i] == edges;
  }

  method NeighboursOf(index: MapIndex, ghost m: ProjectMap, changed: set<Text>, id: Text)
    returns (neighbours: seq<Neighbour>)
    requires index.Indexes(m)
    ensures SortedBy(CompareNeighbours, neighbours)
    ensures multiset(neighbours) == multiset(Around(m, changed, id))
  {
    hide TotalPreorder, SortedBy, AcrossAll;
    var imports := Gather(index, m, changed, Listed(index.outgoing, id), ImportsIt);
    var importers := Gather(index, m, changed, Listed(index.incoming, id), ImportedBy);
    NeighboursAreOrdered();
    SortIsSorted(CompareNeighbours, imports + importers);
    neighbours := SortBy(CompareNeighbours, imports + importers);
  }

  /** What one edge adds, read from the index. */
  function Added(index: MapIndex, ghost m: ProjectMap, changed: set<Text>, e: Edge,
                 direction: Direction): (added: seq<Neighbour>)
    requires index.Indexes(m)
    reads index
    ensures added == Across(m.nodes, changed, e, direction)
  {
    var otherId := if direction == ImportsIt then e.to else e.from;
    assert (if otherId in index.nodes then Some(index.nodes[otherId]) else None)
           == NodeOf(m.nodes, otherId);
    if !e.kind.OfFiles() || otherId !in index.nodes then []
    else
      var other := index.nodes[otherId];
      [Neighbour(direction, e, other, other.kind.FileNode? && other.Label() in changed)]
  }

  lemma {:induction false} TouchingIff(edges: seq<Edge>, id: Text, outgoing: bool, e: Edge)
    ensures e in Touching(edges, id, outgoing)
            <==> e in edges && (if outgoing then e.from else e.to) == id
  {
    if edges != [] {
      TouchingIff(edges[..|edges| - 1], id, outgoing, e);
      assert edges == edges[..|edges| - 1] + [edges[|edges| - 1]];
    }
  }

  // ---- Ring 2: the modules that own changed files ----

  const MAX_FILES := 2000
  const MAX_OWNERS := 8
  const MAX_NEIGHBOURS := 256
  const MAX_MODULES := 256
  const MAX_CHANGED := 2000

  function Clipped<T>(s: seq<T>, limit: nat): seq<T> {
    if |s| <= limit then s else s[..limit]
  }

  datatype Owner = Owner(owner: Node, edge: Edge)

  function CompareOwners(a: Owner, b: Owner): int {
    ByText(a.owner.id, b.owner.id)
  }

  lemma OwnersAreOrdered()
    ensures TotalPreorder(CompareOwners)
  {
    hide ByText;
    forall a, b ensures CompareOwners(a, b) <= 0 || CompareOwners(b, a) <= 0 {
      ByTextOrders(a.owner.id, b.owner.id, b.owner.id);
    }
    forall a, b, c | CompareOwners(a, b) <= 0 && CompareOwners(b, c) <= 0
      ensures CompareOwners(a, c) <= 0
    {
      ByTextOrders(a.owner.id, b.owner.id, c.owner.id);
    }
  }

  /** The owner an edge names, if it is a module of the map. */
  function OwnerBy(nodes: seq<Node>, e: Edge): seq<Owner> {
    var owner := NodeOf(nodes, e.from);
    if e.kind.Owns() && owner.Some? && owner.value.kind.ModuleNode? then [Owner(owner.value, e)]
    else []
  }

  function OwnersBy(nodes: seq<Node>, edges: seq<Edge>): seq<Owner> {
    if edges == [] then []
    else OwnersBy(nodes, edges[..|edges| - 1]) + OwnerBy(nodes, edges[|edges| - 1])
  }

  function OwnersOf(m: ProjectMap, id: Text): seq<Owner> {
    OwnersBy(m.nodes, Touching(m.edges, id, false))
  }

  /** A module owns a node when a known module of that id has an owning edge to it. */
  ghost predicate OwnsNode(m: ProjectMap, id: Text, owner: Text) {
    exists e :: OwningEdge(m, id, owner, e)
  }

  ghost predicate OwningEdge(m: ProjectMap, id: Text, owner: Text, e: Edge) {
    && e in m.edges && e.kind.Owns() && e.to == id && e.from == owner
    && NodeOf(m.nodes, owner).Some? && NodeOf(m.nodes, owner).value.kind.ModuleNode?
  }

  lemma {:induction false} NodeHasId(nodes: seq<Node>, id: Text)
    requires NodeOf(nodes, id).Some?
    ensures NodeOf(nodes, id).value.id == id
  {
    if nodes[|nodes| - 1].id != id {
      NodeHasId(nodes[..|nodes| - 1], id);
    }
  }

  lemma {:induction false} OwnersByIff(nodes: seq<Node>, edges: seq<Edge>, o: Owner)
    ensures o in OwnersBy(nodes, edges) <==> o.edge in edges && o in OwnerBy(nodes, o.edge)
  {
    if edges != [] {
      OwnersByIff(nodes, edges[..|edges| - 1], o);
      assert edges == edges[..|edges| - 1] + [edges[|edges| - 1]];
      assert o in OwnerBy(nodes, edges[|edges| - 1]) ==> o.edge == edges[|edges| - 1];
    }
  }

  lemma OwnersIff(m: ProjectMap, id: Text, owner: Text)
    ensures OwnsNode(m, id, owner) <==> exists o :: o in OwnersOf(m, id) && o.owner.id == owner
  {
    if OwnsNode(m, id, owner) {
      var e :| OwningEdge(m, id, owner, e);
      var o := Owner(NodeOf(m.nodes, owner).value, e);
      NodeHasId(m.nodes, owner);
      TouchingIff(m.edges, id, false, e);
      OwnersByIff(m.nodes, Touching(m.edges, id, false), o);
      assert o in OwnersOf(m, id) && o.owner.id == owner;
    }
    if o :| o in OwnersOf(m, id) && o.owner.id == owner {
      OwnersByIff(m.nodes, Touching(m.edges, id, false), o);
      TouchingIff(m.edges, id, false, o.edge);
      NodeHasId(m.nodes, o.edge.from);
      assert OwningEdge(m, id, owner, o.edge);
    }
  }

  // ---- Files ----

  datatype Location = NeverLooked | Nowhere | At(root: Text, path: Text, mainRoot: Option<Text>)

  datatype ChangedFile = ChangedFile(path: Text, location: Location)

  /** A linked worktree's repository is its main one. */
  function RepositoryOf(location: Location): Text
    requires location.At?
  {
    if location.mainRoot.Some? then location.mainRoot.value else location.root
  }

  datatype Status = RepositoryUnknown | OutsideRepository | RepositoryNotMapped | NotInMap

  datatype FileLink =
    | Unlinked(path: Text, status: Status)
    | Linked(path: Text, repository: Text, node: Node, owners: seq<Owner>,
             neighbours: seq<Neighbour>, neighboursTotal: nat, neighboursTruncated: bool)

  /** The file node a located path names in its repository's map. */
  function NodeAt(maps: map<Text, ProjectMap>, location: Location): Option<Node> {
    if !location.At? || RepositoryOf(location) !in maps then None
    else
      var node := NodeOf(maps[RepositoryOf(location)].nodes, FileNodeId(location.path));
      if node.Some? && node.value.kind.FileNode? then node else None
  }

  /** Paths of a repository that the kept files changed. */
  function ChangedIn(kept: seq<ChangedFile>, repository: Text): set<Text> {
    set f | f in kept && f.location.At? && RepositoryOf(f.location) == repository :: f.location.path
  }

  /** What a file's link must say: why it has none, or its sorted, clipped rings with exact totals. */
  ghost predicate LinkSays(maps: map<Text, ProjectMap>, changed: set<Text>, f: ChangedFile,
                           link: FileLink)
  {
    match f.location
    case NeverLooked => link == Unlinked(f.path, RepositoryUnknown)
    case Nowhere => link == Unlinked(f.path, OutsideRepository)
    case At(_, _, _) =>
      var repository := RepositoryOf(f.location);
      if repository !in maps then link == Unlinked(f.path, RepositoryNotMapped)
      else if NodeAt(maps, f.location).None? then link == Unlinked(f.path, NotInMap)
      else
        var m, node := maps[repository], NodeAt(maps, f.location).value;
        && link.Linked? && link.path == f.path && link.repository == repository
        && link.node == node
        && link.neighboursTotal == |Around(m, changed, node.id)|
        && (link.neighboursTruncated <==> link.neighboursTotal > MAX_NEIGHBOURS)
        && (exists all :: Ranked(m, changed, node.id, all)
              && link.neighbours == Clipped(all, MAX_NEIGHBOURS))
        && (exists all :: RankedOwners(m, node.id, all) && link.owners == Clipped(all, MAX_OWNERS))
  }

  ghost predicate Ranked(m: ProjectMap, changed: set<Text>, id: Text, all: seq<Neighbour>) {
    SortedBy(CompareNeighbours, all) && multiset(all) == multiset(Around(m, changed, id))
  }

  ghost predicate RankedOwners(m: ProjectMap, id: Text, all: seq<Owner>) {
    SortedBy(CompareOwners, all) && multiset(all) == multiset(OwnersOf(m, id))
  }

  method CollectOwners(index: MapIndex, ghost m: ProjectMap, id: Text) returns (owners: seq<Owner>)
    requires index.Indexes(m)
    ensures RankedOwners(m, id, owners)
  {
    owners := [];
    var edges := Listed(index.incoming, id);
    var i := 0;
    while i < |edges|
      invariant 0 <= i <= |edges|
      invariant owners == OwnersBy(m.nodes, edges[..i])
    {
      assert edges[..i + 1][..i] == edges[..i];
      var e := edges[i];
      assert (if e.from in index.nodes then Some(index.nodes[e.from]) else None)
             == NodeOf(m.nodes, e.from);
      if e.kind.Owns() && e.from in index.nodes && index.nodes[e.from].kind.ModuleNode? {
        owners := owners + [Owner(index.nodes[e.from], e)];
      }
      i := i + 1;
    }
    assert edges[..i] == edges;
    hide TotalPreorder, SortedBy, OwnersBy;
    OwnersAreOrdered();
    SortIsSorted(CompareOwners, owners);
    owners := SortBy(CompareOwners, owners);
  }

  /** The indexes stand for the maps of the same repositories. */
  ghost predicate IndexesAll(indexes: map<Text, MapIndex>, maps: map<Text, ProjectMap>)
    reads indexes.Values
  {
    indexes.Keys == maps.Keys && forall r :: r in maps ==> indexes[r].Indexes(maps[r])
  }

  /** Links one file, and returns all of its owners for the module ring. */
  method LinkFile(indexes: map<Text, MapIndex>, ghost maps: map<Text, ProjectMap>,
                  changed: set<Text>, f: ChangedFile)
    returns (link: FileLink, owners: seq<Owner>)
    requires IndexesAll(indexes, maps)
    ensures LinkSays(maps, changed, f, link)
    ensures link.Linked? ==> RankedOwners(maps[link.repository], link.node.id, owners)
    ensures link.Unlinked? ==> owners == []
  {
    owners := [];
    if f.location.NeverLooked? { return Unlinked(f.path, RepositoryUnknown), owners; }
    if f.location.Nowhere? { return Unlinked(f.path, OutsideRepository), owners; }
    var repository := RepositoryOf(f.location);
    if repository !in indexes { return Unlinked(f.path, RepositoryNotMapped), owners; }
    var index := indexes[repository];
    ghost var m := maps[repository];
    var id := FileNodeId(f.location.path);
    assert (if id in index.nodes then Some(index.nodes[id]) else None) == NodeOf(m.nodes, id);
    if id !in index.nodes || !index.nodes[id].kind.FileNode? {
      return Unlinked(f.path, NotInMap), owners;
    }
    var node := index.nodes[id];
    owners := CollectOwners(index, m, node.id);
    var neighbours := NeighboursOf(index, m, changed, node.id);
    assert |neighbours| == |Around(m, changed, node.id)| by {
      assert |multiset(neighbours)| == |multiset(Around(m, changed, node.id))|;
    }
    assert Ranked(m, changed, node.id, neighbours);
    link := Linked(f.path, repository, node, Clipped(owners, MAX_OWNERS),
                   Clipped(neighbours, MAX_NEIGHBOURS), |neighbours|,
                   |neighbours| > MAX_NEIGHBOURS);
  }

  // ---- The module ring ----

  /** A repository and a module of its map. */
  datatype ModuleKey = ModuleKey(repository: Text, owner: Text)

  /** The file is linked, its node has this path, and this module owns the node. */
  ghost predicate Changes(maps: map<Text, ProjectMap>, f: ChangedFile, key: ModuleKey, path: Text) {
    var node := NodeAt(maps, f.location);
    && node.Some? && node.value.Label() == path
    && RepositoryOf(f.location) == key.repository
    && OwnsNode(maps[key.repository], node.value.id, key.owner)
  }

  /** The table lists a path under a module exactly when some kept file says so. */
  ghost predicate Tabulates(maps: map<Text, ProjectMap>, kept: seq<ChangedFile>,
                            table: map<ModuleKey, set<Text>>)
  {
    && (forall key, path :: Filed(table, key, path) <==> SomeChanges(maps, kept, key, path))
    && (forall key :: key in table ==> table[key] != {})
  }

  predicate Filed(table: map<ModuleKey, set<Text>>, key: ModuleKey, path: Text) {
    key in table && path in table[key]
  }

  ghost predicate SomeChanges(maps: map<Text, ProjectMap>, kept: seq<ChangedFile>, key: ModuleKey,
                              path: Text)
  {
    exists i :: 0 <= i < |kept| && Changes(maps, kept[i], key, path)
  }

  function FileUnder(table: map<ModuleKey, set<Text>>, key: ModuleKey, path: Text)
    : map<ModuleKey, set<Text>>
  {
    table[key := (if key in table then table[key] else {}) + {path}]
  }

  /** Files one linked file's path under each of its owners. */
  method FileOwners(table: map<ModuleKey, set<Text>>, repository: Text, path: Text,
                    owners: seq<Owner>) returns (filed: map<ModuleKey, set<Text>>)
    requires forall key :: key in table ==> table[key] != {}
    ensures forall key :: key in filed ==> filed[key] != {}
    ensures forall key, p ::
              Filed(filed, key, p) <==>
                Filed(table, key, p)
                || (key.repository == repository && p == path
                    && exists o :: o in owners && o.owner.id == key.owner)
  {
    filed := table;
    var i := 0;
    while i < |owners|
      invariant 0 <= i <= |owners|
      invariant forall key :: key in filed ==> filed[key] != {}
      invariant forall key, p ::
                  Filed(filed, key, p) <==>
                    Filed(table, key, p)
                    || (key.repository == repository && p == path
                        && exists o :: o in owners[..i] && o.owner.id == key.owner)
    {
      assert owners[..i + 1] == owners[..i] + [owners[i]];
      filed := FileUnder(filed, ModuleKey(repository, owners[i].owner.id), path);
      i := i + 1;
    }
    assert owners[..i] == owners;
  }

  lemma ChangesIffOwned(maps: map<Text, ProjectMap>, f: ChangedFile, link: FileLink,
                        owners: seq<Owner>, changed: set<Text>, key: ModuleKey, path: Text)
    requires LinkSays(maps, changed, f, link)
    requires link.Linked? ==> RankedOwners(maps[link.repository], link.node.id, owners)
    ensures Changes(maps, f, key, path)
            <==> link.Linked? && key.repository == link.repository && path == link.node.Label()
                 && exists o :: o in owners && o.owner.id == key.owner
  {
    if link.Linked? {
      var m := maps[link.repository];
      OwnersIff(m, link.node.id, key.owner);
      forall o ensures o in owners <==> o in OwnersOf(m, link.node.id) {
        assert o in multiset(owners) <==> o in multiset(OwnersOf(m, link.node.id));
      }
    }
    hide OwnsNode, OwnersOf, Ranked, RankedOwners;
  }

  ghost predicate LinksSay(maps: map<Text, ProjectMap>, kept: seq<ChangedFile>,
                           files: seq<FileLink>, upTo: nat)
    requires upTo <= |files| && upTo <= |kept|
  {
    forall i :: 0 <= i < upTo ==>
      LinkSays(maps, if kept[i].location.At? then ChangedIn(kept, RepositoryOf(kept[i].location))
                     else {}, kept[i], files[i])
  }

  lemma TabulateOne(maps: map<Text, ProjectMap>, kept: seq<ChangedFile>, i: nat,
                    table: map<ModuleKey, set<Text>>, filed: map<ModuleKey, set<Text>>)
    requires i < |kept| && Tabulates(maps, kept[..i], table)
    requires forall key :: key in filed ==> filed[key] != {}
    requires forall key, p ::
               Filed(filed, key, p) <==> Filed(table, key, p) || Changes(maps, kept[i], key, p)
    ensures Tabulates(maps, kept[..i + 1], filed)
  {
    hide Changes;
    assert kept[..i + 1] == kept[..i] + [kept[i]];
    forall key, p
      ensures SomeChanges(maps, kept[..i + 1], key, p)
              <==> SomeChanges(maps, kept[..i], key, p) || Changes(maps, kept[i], key, p)
    {
      if SomeChanges(maps, kept[..i], key, p) {
        var j :| 0 <= j < i && Changes(maps, kept[..i][j], key, p);
        assert Changes(maps, kept[..i + 1][j], key, p);
      }
      if Changes(maps, kept[i], key, p) {
        assert Changes(maps, kept[..i + 1][i], key, p);
      }
    }
  }

  /** Links every kept file, and tabulates the files changed in each module. */
  method LinkFiles(indexes: map<Text, MapIndex>, ghost maps: map<Text, ProjectMap>,
                   kept: seq<ChangedFile>)
    returns (files: seq<FileLink>, table: map<ModuleKey, set<Text>>)
    requires IndexesAll(indexes, maps)
    ensures |files| == |kept| && LinksSay(maps, kept, files, |kept|)
    ensures Tabulates(maps, kept, table)
  {
    hide LinkSays, Tabulates, IndexesAll, Changes;
    files, table := [], map[];
    NothingTabulated(maps);
    assert kept[..0] == [];
    var i := 0;
    while i < |kept|
      invariant 0 <= i <= |kept| && |files| == i
      invariant LinksSay(maps, kept, files, i)
      invariant Tabulates(maps, kept[..i], table)
    {
      var f := kept[i];
      var changed := if f.location.At? then ChangedIn(kept, RepositoryOf(f.location)) else {};
      var link, owners := LinkFile(indexes, maps, changed, f);
      var filed := table;
      TableIsFilled(maps, kept[..i], table);
      if link.Linked? {
        filed := FileOwners(table, link.repository, link.node.Label(), owners);
      }
      forall key, p
        ensures Filed(filed, key, p) <==> Filed(table, key, p) || Changes(maps, f, key, p)
      {
        ChangesIffOwned(maps, f, link, owners, changed, key, p);
      }
      TabulateOne(maps, kept, i, table, filed);
      table := filed;
      files := files + [link];
      i := i + 1;
    }
    assert kept[..i] == kept;
  }

  lemma NothingTabulated(maps: map<Text, ProjectMap>)
    ensures Tabulates(maps, [], map[])
  {
  }

  lemma TableIsFilled(maps: map<Text, ProjectMap>, kept: seq<ChangedFile>,
                      table: map<ModuleKey, set<Text>>)
    requires Tabulates(maps, kept, table)
    ensures forall key :: key in table ==> table[key] != {}
  {
  }

  datatype ModuleLink = ModuleLink(
    repository: Text,
    owner: Text,
    changedFiles: seq<Text>,
    dependents: seq<Owner>,
    dependentsTotal: nat,
    dependentsTruncated: bool)
  {
    function Key(): ModuleKey {
      ModuleKey(repository, owner)
    }
  }

  const MAX_DEPENDENTS := 256

  /** The modules that depend on one. */
  function DependentBy(nodes: seq<Node>, e: Edge): seq<Owner> {
    var dependent := NodeOf(nodes, e.from);
    if e.kind.DependsOn? && dependent.Some? && dependent.value.kind.ModuleNode?
    then [Owner(dependent.value, e)] else []
  }

  function DependentsBy(nodes: seq<Node>, edges: seq<Edge>): seq<Owner> {
    if edges == [] then []
    else DependentsBy(nodes, edges[..|edges| - 1]) + DependentBy(nodes, edges[|edges| - 1])
  }

  function DependentsOf(m: ProjectMap, id: Text): seq<Owner> {
    DependentsBy(m.nodes, Touching(m.edges, id, false))
  }

  ghost predicate RankedDependents(m: ProjectMap, id: Text, all: seq<Owner>) {
    SortedBy(CompareOwners, all) && multiset(all) == multiset(DependentsOf(m, id))
  }

  /** A strictly ascending listing of a set of paths. */
  ghost predicate Lists(paths: set<Text>, s: seq<Text>) {
    && (forall i, j :: 0 <= i < j < |s| ==> Less(s[i], s[j]))
    && (forall p :: p in s <==> p in paths)
  }

  ghost predicate ModuleSays(maps: map<Text, ProjectMap>, table: map<ModuleKey, set<Text>>,
                             link: ModuleLink)
  {
    && link.Key() in table && link.repository in maps
    && (exists all :: Lists(table[link.Key()], all) && link.changedFiles == Clipped(all, MAX_CHANGED))
    && (exists all :: RankedDependents(maps[link.repository], link.owner, all)
          && link.dependents == Clipped(all, MAX_DEPENDENTS)
          && link.dependentsTotal == |all|
          && (link.dependentsTruncated <==> |all| > MAX_DEPENDENTS))
  }

  lemma TextsAreOrdered()
    ensures TotalPreorder(ByText)
  {
    hide ByText;
    forall a, b ensures ByText(a, b) <= 0 || ByText(b, a) <= 0 { ByTextOrders(a, b, b); }
    forall a, b, c | ByText(a, b) <= 0 && ByText(b, c) <= 0 ensures ByText(a, c) <= 0 {
      ByTextOrders(a, b, c);
    }
  }

  method ListPaths(paths: set<Text>) returns (s: seq<Text>)
    ensures Lists(paths, s)
  {
    s := [];
    var left := paths;
    while left != {}
      invariant left <= paths
      invariant forall p :: p in s <==> p in paths && p !in left
      invariant forall i, j :: 0 <= i < j < |s| ==> s[i] != s[j]
      decreases |left|
    {
      var p :| p in left;
      s := s + [p];
      left := left - {p};
    }
    ghost var unsorted := s;
    hide TotalPreorder;
    TextsAreOrdered();
    SortIsSorted(ByText, s);
    s := SortBy(ByText, s);
    StrictlyListed(unsorted, s);
    forall p ensures p in s <==> p in paths {
      assert p in multiset(s) <==> p in multiset(unsorted);
    }
  }

  lemma StrictlyListed(unsorted: seq<Text>, s: seq<Text>)
    requires SortedBy(ByText, s) && multiset(s) == multiset(unsorted)
    requires forall i, j :: 0 <= i < j < |unsorted| ==> unsorted[i] != unsorted[j]
    ensures forall i, j :: 0 <= i < j < |s| ==> Less(s[i], s[j])
  {
    forall i, j | 0 <= i < j < |s| ensures Less(s[i], s[j]) {
      assert ByText(s[i], s[j]) <= 0;
      if s[i] == s[j] {
        TwiceCounted(s, i, j);
        OnceCounted(unsorted, s[i]);
      }
      ByTextOrders(s[i], s[j], s[j]);
      assert s[i] != s[j];
    }
  }

  lemma TwiceCounted(s: seq<Text>, i: int, j: int)
    requires 0 <= i < j < |s| && s[i] == s[j]
    ensures multiset(s)[s[i]] >= 2
  {
    assert s == s[..j] + [s[j]] + s[j + 1..];
    assert s[..j] == s[..i] + [s[i]] + s[i + 1..j];
  }

  lemma {:induction false} OnceCounted(s: seq<Text>, p: Text)
    requires forall i, j :: 0 <= i < j < |s| ==> s[i] != s[j]
    ensures multiset(s)[p] <= 1
  {
    if s != [] {
      var front := s[..|s| - 1];
      OnceCounted(front, p);
      assert s == front + [s[|s| - 1]];
      if p == s[|s| - 1] {
        assert p !in front;
      }
    }
  }

  method CollectDependents(index: MapIndex, ghost m: ProjectMap, id: Text)
    returns (dependents: seq<Owner>)
    requires index.Indexes(m)
    ensures RankedDependents(m, id, dependents)
  {
    dependents := [];
    var edges := Listed(index.incoming, id);
    var i := 0;
    while i < |edges|
      invariant 0 <= i <= |edges|
      invariant dependents == DependentsBy(m.nodes, edges[..i])
    {
      assert edges[..i + 1][..i] == edges[..i];
      var e := edges[i];
      assert (if e.from in index.nodes then Some(index.nodes[e.from]) else None)
             == NodeOf(m.nodes, e.from);
      if e.kind.DependsOn? && e.from in index.nodes && index.nodes[e.from].kind.ModuleNode? {
        dependents := dependents + [Owner(index.nodes[e.from], e)];
      }
      i := i + 1;
    }
    assert edges[..i] == edges;
    hide TotalPreorder, SortedBy, DependentsBy;
    OwnersAreOrdered();
    SortIsSorted(CompareOwners, dependents);
    dependents := SortBy(CompareOwners, dependents);
  }

  method LinkModule(index: MapIndex, ghost maps: map<Text, ProjectMap>,
                    table: map<ModuleKey, set<Text>>, key: ModuleKey) returns (link: ModuleLink)
    requires key in table && key.repository in maps && index.Indexes(maps[key.repository])
    ensures ModuleSays(maps, table, link) && link.Key() == key
  {
    hide Lists, RankedDependents;
    var paths := ListPaths(table[key]);
    var dependents := CollectDependents(index, maps[key.repository], key.owner);
    link := ModuleLink(key.repository, key.owner, Clipped(paths, MAX_CHANGED),
                       Clipped(dependents, MAX_DEPENDENTS), |dependents|,
                       |dependents| > MAX_DEPENDENTS);
  }

  function Keys(links: seq<ModuleLink>): set<ModuleKey> {
    set link | link in links :: link.Key()
  }

  /** No module twice, and these modules. */
  ghost predicate Covers(links: seq<ModuleLink>, keys: set<ModuleKey>) {
    && (forall i, j :: 0 <= i < j < |links| ==> links[i].Key() != links[j].Key())
    && Keys(links) == keys
  }

  lemma CoversOneMore(links: seq<ModuleLink>, keys: set<ModuleKey>, link: ModuleLink)
    requires Covers(links, keys) && link.Key() !in keys
    ensures Covers(links + [link], keys + {link.Key()})
  {
    forall i | 0 <= i < |links| ensures links[i].Key() != link.Key() {
      assert links[i].Key() in Keys(links);
    }
    assert Keys(links + [link]) == Keys(links) + {link.Key()};
  }

  /** One link per module with changed files. */
  method ModuleLinks(indexes: map<Text, MapIndex>, ghost maps: map<Text, ProjectMap>,
                     table: map<ModuleKey, set<Text>>) returns (links: seq<ModuleLink>)
    requires IndexesAll(indexes, maps) && forall key :: key in table ==> key.repository in maps
    ensures forall i :: 0 <= i < |links| ==> ModuleSays(maps, table, links[i])
    ensures Covers(links, table.Keys)
  {
    hide ModuleSays, Covers, Keys;
    links := [];
    var keys := table.Keys;
    NoneCovered();
    assert table.Keys - keys == {};
    while keys != {}
      invariant keys <= table.Keys
      invariant forall i :: 0 <= i < |links| ==> ModuleSays(maps, table, links[i])
      invariant Covers(links, table.Keys - keys)
      decreases |keys|
    {
      var key :| key in keys;
      var link := LinkModule(indexes[key.repository], maps, table, key);
      CoversOneMore(links, table.Keys - keys, link);
      assert table.Keys - keys + {key} == table.Keys - (keys - {key});
      links := links + [link];
      keys := keys - {key};
    }
    assert table.Keys - keys == table.Keys;
  }

  lemma {:induction false} CoversSize(links: seq<ModuleLink>, keys: set<ModuleKey>)
    requires Covers(links, keys)
    ensures |links| == |keys|
  {
    if links != [] {
      var front, last := links[..|links| - 1], links[|links| - 1];
      assert links == front + [last];
      assert Keys(links) == Keys(front) + {last.Key()};
      assert last.Key() !in Keys(front);
      CoversSize(front, Keys(front));
    } else {
      assert keys == {};
    }
  }

  lemma NoneCovered()
    ensures Covers([], {})
  {
  }

  /** Most changed files first, then by module id. */
  function CompareModules(a: ModuleLink, b: ModuleLink): int {
    if |a.changedFiles| != |b.changedFiles| then |b.changedFiles| - |a.changedFiles|
    else ByText(a.owner, b.owner)
  }

  lemma ModulesAreOrdered()
    ensures TotalPreorder(CompareModules)
  {
    hide ByText;
    forall a, b ensures CompareModules(a, b) <= 0 || CompareModules(b, a) <= 0 {
      ByTextOrders(a.owner, b.owner, b.owner);
    }
    forall a, b, c | CompareModules(a, b) <= 0 && CompareModules(b, c) <= 0
      ensures CompareModules(a, c) <= 0
    {
      ByTextOrders(a.owner, b.owner, c.owner);
    }
  }

  /**
   The two rings are inverse views: a path is listed for a module exactly when some kept file is linked
   to a node of that path and has that module among its owners. No list is cut, since a module has no
   more changed files than there are kept files.
   */
  lemma RingsAreInverse(maps: map<Text, ProjectMap>, kept: seq<ChangedFile>, files: seq<FileLink>,
                        table: map<ModuleKey, set<Text>>, link: ModuleLink, path: Text)
    requires |files| == |kept| <= MAX_FILES && LinksSay(maps, kept, files, |kept|)
    requires Tabulates(maps, kept, table) && ModuleSays(maps, table, link)
    ensures path in link.changedFiles
            <==> exists i :: 0 <= i < |files| && LinkedUnder(maps, files[i], link.Key(), path)
  {
    var all :| Lists(table[link.Key()], all) && link.changedFiles == Clipped(all, MAX_CHANGED);
    ListsSize(table[link.Key()], all);
    TableIsBounded(maps, kept, table, link.Key());
    assert path in all <==> Filed(table, link.Key(), path);
    hide Lists, RankedDependents;
    forall i | 0 <= i < |files|
      ensures LinkedUnder(maps, files[i], link.Key(), path)
              <==> Changes(maps, kept[i], link.Key(), path)
    {
      LinkedIffChanges(maps, kept, files, i, link.Key(), path);
    }
  }

  /** The paths that files change in a module. */
  ghost function Changed(maps: map<Text, ProjectMap>, kept: seq<ChangedFile>, key: ModuleKey)
    : (paths: set<Text>)
    ensures |paths| <= |kept|
    ensures forall path :: SomeChanges(maps, kept, key, path) ==> path in paths
  {
    if kept == [] then {}
    else
      var front, last := kept[..|kept| - 1], kept[|kept| - 1];
      var node := NodeAt(maps, last.location);
      var paths := Changed(maps, front, key);
      assert forall path :: SomeChanges(maps, kept, key, path) ==>
          SomeChanges(maps, front, key, path) || Changes(maps, last, key, path) by {
        forall path | SomeChanges(maps, kept, key, path)
          ensures SomeChanges(maps, front, key, path) || Changes(maps, last, key, path)
        {
          var i :| 0 <= i < |kept| && Changes(maps, kept[i], key, path);
          assert i < |front| ==> Changes(maps, front[i], key, path);
        }
      }
      if node.Some? then paths + {node.value.Label()} else paths
  }

  /** A module has at most as many changed files as there are kept files. */
  lemma TableIsBounded(maps: map<Text, ProjectMap>, kept: seq<ChangedFile>,
                       table: map<ModuleKey, set<Text>>, key: ModuleKey)
    requires Tabulates(maps, kept, table) && key in table
    ensures |table[key]| <= |kept|
  {
    var paths := Changed(maps, kept, key);
    forall path | path in table[key] ensures path in paths {
      assert Filed(table, key, path);
    }
    SubsetSize(table[key], paths);
  }

  lemma {:induction false} ListsSize(paths: set<Text>, s: seq<Text>)
    requires Lists(paths, s)
    ensures |s| == |paths|
  {
    if s == [] {
      assert forall p :: p in paths ==> p in s;
      assert paths == {};
    } else {
      var front, last := s[..|s| - 1], s[|s| - 1];
      assert s == front + [last];
      forall i | 0 <= i < |front| ensures front[i] != last {
        assert Less(s[i], s[|s| - 1]);
        LessTrichotomy(front[i], last);
      }
      ListsSize(paths - {last}, front);
    }
  }

  ghost predicate LinkedUnder(maps: map<Text, ProjectMap>, file: FileLink, key: ModuleKey,
                              path: Text)
  {
    && file.Linked? && file.repository == key.repository && file.node.Label() == path
    && key.repository in maps && OwnsNode(maps[key.repository], file.node.id, key.owner)
  }

  lemma LinkedIffChanges(maps: map<Text, ProjectMap>, kept: seq<ChangedFile>, files: seq<FileLink>,
                         i: int, key: ModuleKey, path: Text)
    requires |files| == |kept| && LinksSay(maps, kept, files, |kept|) && 0 <= i < |files|
    ensures LinkedUnder(maps, files[i], key, path) <==> Changes(maps, kept[i], key, path)
  {
    hide OwnsNode, Ranked, RankedOwners, Around;
  }

  // ---- The whole link ----

  const MAX_PATH := 4096

  /** An absolute, bounded path without unprintable characters. */
  predicate Absolute(printable: Text -> bool, path: Text) {
    path != [] && path[0] == 0x2F && |path| <= MAX_PATH && printable(path)
  }

  /** The document can carry the file whole. */
  predicate Representable(printable: Text -> bool, f: ChangedFile) {
    && Absolute(printable, f.path)
    && (f.location.At? ==>
          && Absolute(printable, f.location.root)
          && (f.location.mainRoot.Some? ==> Absolute(printable, f.location.mainRoot.value))
          && 0 < |f.location.path| <= MAX_PATH && printable(f.location.path))
  }

  function Carried(printable: Text -> bool, files: seq<ChangedFile>): seq<ChangedFile> {
    if files == [] then []
    else Carried(printable, files[..|files| - 1])
         + if Representable(printable, files[|files| - 1]) then [files[|files| - 1]] else []
  }

  lemma {:induction false} CarriedIff(printable: Text -> bool, files: seq<ChangedFile>,
                                      f: ChangedFile)
    ensures f in Carried(printable, files) <==> f in files && Representable(printable, f)
    ensures |Carried(printable, files)| <= |files|
  {
    if files != [] {
      CarriedIff(printable, files[..|files| - 1], f);
      assert files == files[..|files| - 1] + [files[|files| - 1]];
    }
  }

  datatype ExecutionLinks = ExecutionLinks(
    files: seq<FileLink>,
    filesTotal: nat,
    filesOmitted: nat,
    modules: seq<ModuleLink>,
    modulesTruncated: bool)

  /**
   Links one session's changed files, newest first. The document's total is what it carries plus what
   it omits; a carried file past the file limit is in neither list, as the last clause says.
   */
  method LinkExecution(printable: Text -> bool, files: seq<ChangedFile>, withheld: nat,
                       indexes: map<Text, MapIndex>, ghost maps: map<Text, ProjectMap>)
    returns (links: ExecutionLinks, ghost kept: seq<ChangedFile>,
             ghost table: map<ModuleKey, set<Text>>, ghost all: seq<ModuleLink>)
    requires IndexesAll(indexes, maps)
    ensures kept == Clipped(Carried(printable, files), MAX_FILES)
    ensures |links.files| == |kept| && LinksSay(maps, kept, links.files, |kept|)
    ensures Tabulates(maps, kept, table)
    ensures forall i :: 0 <= i < |all| ==> ModuleSays(maps, table, all[i])
    ensures Keys(all) == table.Keys && |all| == |table| && SortedBy(CompareModules, all)
    ensures links.modules == Clipped(all, MAX_MODULES)
    ensures links.modulesTruncated <==> |all| > MAX_MODULES
    ensures links.filesTotal == |files| + withheld
    ensures links.filesTotal == links.filesOmitted + |Carried(printable, files)|
    ensures links.filesTotal == links.filesOmitted + |links.files|
            <==> |Carried(printable, files)| <= MAX_FILES
  {
    hide IndexesAll, LinksSay, ModuleSays, SortedBy, TotalPreorder, Changes;
    var carried := Carried(printable, files);
    var keptFiles := Clipped(carried, MAX_FILES);
    if files != [] {
      CarriedIff(printable, files, files[0]);
    }
    kept := keptFiles;
    var linked, changed := LinkFiles(indexes, maps, keptFiles);
    table := changed;
    TableIsMapped(maps, kept, table);
    var modules := ModuleLinks(indexes, maps, changed);
    ModulesAreOrdered();
    SortIsSorted(CompareModules, modules);
    var sorted := SortBy(CompareModules, modules);
    SameModules(maps, table, modules, sorted);
    CoversSize(modules, table.Keys);
    all := sorted;
    links := ExecutionLinks(linked, |files| + withheld, |files| - |carried| + withheld,
                            Clipped(sorted, MAX_MODULES), |sorted| > MAX_MODULES);
  }

  lemma TableIsMapped(maps: map<Text, ProjectMap>, kept: seq<ChangedFile>,
                      table: map<ModuleKey, set<Text>>)
    requires Tabulates(maps, kept, table)
    ensures forall key :: key in table ==> key.repository in maps
  {
    forall key | key in table ensures key.repository in maps {
      var path :| path in table[key];
      assert Filed(table, key, path);
      var i :| 0 <= i < |kept| && Changes(maps, kept[i], key, path);
    }
  }

  lemma SameModules(maps: map<Text, ProjectMap>, table: map<ModuleKey, set<Text>>,
                    modules: seq<ModuleLink>, sorted: seq<ModuleLink>)
    requires multiset(modules) == multiset(sorted)
    requires forall i :: 0 <= i < |modules| ==> ModuleSays(maps, table, modules[i])
    ensures forall i :: 0 <= i < |sorted| ==> ModuleSays(maps, table, sorted[i])
    ensures Keys(sorted) == Keys(modules)
  {
    hide ModuleSays;
    forall link ensures link in sorted <==> link in modules {
      assert link in multiset(sorted) <==> link in multiset(modules);
    }
    assert forall i :: 0 <= i < |sorted| ==> sorted[i] in modules;
  }
}
