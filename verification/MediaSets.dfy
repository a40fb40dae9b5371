/** The C++ client's devices on the heap: nodes that hold the set of their children, ordered by path, and point to
    their parent. As for the linked lists, the pointers and the data of the nodes are looked at through snapshots. */
module MediaSets {
  import opened Basics
  import opened Forests
  import opened Media
  import opened Shapes

  class RemovableMedia {
    var path: string
    var kind: Kind
    var subtype: Subtype
    var state: State
    var fstype: string
    var volume: string
    var mnt: string
    var opts: string

    var parent: RemovableMedia?
    var children: seq<RemovableMedia>

    constructor (path: string, d: Device)
      ensures this.path == path && Data() == d && parent == null && children == []
    {
      this.path := path;
      kind, subtype, state := d.kind, d.subtype, d.state;
      fstype, volume, mnt, opts := d.fstype, d.volume, d.mnt, d.opts;
      parent, children := null, [];
    }

    function Data(): Device
      reads this`kind, this`subtype, this`state, this`fstype, this`volume, this`mnt, this`opts
    {
      Device(kind, subtype, state, fstype, volume, mnt, opts)
    }

    /** Copies the data and leaves the parent and the children intact. */
    method CopyFrom(other: RemovableMedia)
      modifies this`path, this`kind, this`subtype, this`state, this`fstype, this`volume, this`mnt, this`opts
      ensures path == old(other.path) && Data() == old(other.Data())
    {
      path, kind, subtype, state := other.path, other.kind, other.subtype, other.state;
      fstype, volume, mnt, opts := other.fstype, other.volume, other.mnt, other.opts;
    }
  }

  datatype Pointers = Pointers(parent: RemovableMedia?, children: seq<RemovableMedia>)

  type SetShape = Shape<RemovableMedia>

  type LinkMap = map<RemovableMedia, Pointers>

  type CellMap = map<RemovableMedia, Cell<Device>>

  ghost function LinksOf(nodes: set<RemovableMedia>): LinkMap
    reads nodes`parent, nodes`children
  {
    map n | n in nodes :: Pointers(n.parent, n.children)
  }

  ghost function CellsOf(nodes: set<RemovableMedia>): CellMap
    reads nodes`path, nodes`kind, nodes`subtype, nodes`state, nodes`fstype, nodes`volume, nodes`mnt, nodes`opts
  {
    map n | n in nodes :: Cell(n.path, n.Data())
  }

  /** The elements of the set itself. */
  ghost function Roots(s: SetShape): seq<RemovableMedia> {
    match s
    case Bare => []
    case Link(n, _, next) => [n] + Roots(next)
  }

  ghost predicate Linked(h: LinkMap, s: SetShape, parent: RemovableMedia?) {
    match s
    case Bare => true
    case Link(n, kids, next) =>
      n in h && h[n] == Pointers(parent, Roots(kids)) && Linked(h, kids, n) && Linked(h, next, parent)
  }

  /** Siblings ascend by path: no set holds two elements that neither is less than the other. */
  ghost predicate Ascending<T>(f: Forest<T>) {
    match f
    case Nil => true
    case Node(p, _, kids, next) => (next.Node? ==> Less(p, next.path)) && Ascending(kids) && Ascending(next)
  }

  lemma {:induction false} LinkedSame(h: LinkMap, h': LinkMap, s: SetShape, parent: RemovableMedia?)
    requires Linked(h, s, parent)
    requires forall n :: n in Nodes(s) && n in h ==> n in h' && h'[n] == h[n]
    ensures Linked(h', s, parent)
  {
    if s.Link? {
      LinkedSame(h, h', s.kids, s.node);
      LinkedSame(h, h', s.next, parent);
    }
  }

  lemma {:induction false} RootsInside(s: SetShape)
    ensures forall n :: n in Roots(s) ==> n in Nodes(s)
    ensures Distinct(s) ==> forall i, j :: 0 <= i < j < |Roots(s)| ==> Roots(s)[i] != Roots(s)[j]
  {
    if s.Link? { RootsInside(s.next); }
  }

  // ----- searching -----

  ghost function FindNode(c: CellMap, s: SetShape, path: string): RemovableMedia?
    requires Nodes(s) <= c.Keys
  {
    match s
    case Bare => null
    case Link(n, kids, next) =>
      if c[n].path == path then n
      else if FindNode(c, kids, path) != null then FindNode(c, kids, path)
      else FindNode(c, next, path)
  }

  lemma {:induction false} FindNodeMeaning(c: CellMap, s: SetShape, path: string)
    requires Nodes(s) <= c.Keys
    ensures FindNode(c, s, path) == null <==> path !in Paths(Contents(c, s))
    ensures var x := FindNode(c, s, path);
      x != null ==> x in Nodes(s) && c[x].path == path && Get(Contents(c, s), path) == c[x].data
  {
    if s.Link? {
      FindNodeMeaning(c, s.kids, path);
      FindNodeMeaning(c, s.next, path);
    }
  }

  /** What a set says about its first element, and what searching it comes to. */
  lemma FindParts(s: SetShape, parent: RemovableMedia?, all: set<RemovableMedia>, path: string)
    requires Nodes(s) <= all && Linked(LinksOf(all), s, parent)
    ensures s.Bare? ==> Roots(s) == [] && FindNode(CellsOf(all), s, path) == null
    ensures s.Link? ==>
      Roots(s) == [s.node] + Roots(s.next) && s.node.children == Roots(s.kids)
      && Nodes(s.kids) <= all && Nodes(s.next) <= all && Size(s) == 1 + Size(s.kids) + Size(s.next)
      && Linked(LinksOf(all), s.kids, s.node) && Linked(LinksOf(all), s.next, parent)
      && var below := FindNode(CellsOf(all), s.kids, path);
         FindNode(CellsOf(all), s, path) ==
           if s.node.path == path then s.node else if below != null then below else FindNode(CellsOf(all), s.next, path)
  {}

  /** find_removable_media: a set and everything below it, in preorder. */
  method FindRemovableMedia(path: string, container: seq<RemovableMedia>, ghost s: SetShape,
    ghost parent: RemovableMedia?, ghost all: set<RemovableMedia>)
    returns (r: RemovableMedia?)
    requires container == Roots(s) && Nodes(s) <= all && Linked(LinksOf(all), s, parent)
    ensures r == FindNode(CellsOf(all), s, path)
    decreases Size(s)
  {
    hide Nodes, Linked, FindNode, Roots, Size, LinksOf;
    ghost var rest := s;
    for i := 0 to |container|
      invariant container[i..] == Roots(rest) && Nodes(rest) <= all && Linked(LinksOf(all), rest, parent)
      invariant FindNode(CellsOf(all), s, path) == FindNode(CellsOf(all), rest, path) && Size(rest) <= Size(s)
    {
      FindParts(rest, parent, all, path);
      var iter := container[i];
      assert iter == container[i..][0] && container[i + 1..] == container[i..][1..];
      if iter.path == path { return iter; }
      r := FindRemovableMedia(path, iter.children, rest.kids, iter, all);
      if r != null { return; }
      rest := rest.next;
    }
    FindParts(rest, parent, all, path);
    return null;
  }

  lemma {:induction false} KidsLinked(h: LinkMap, c: CellMap, s: SetShape, parent: RemovableMedia?, x: RemovableMedia)
    requires Linked(h, s, parent) && Distinct(s) && x in Nodes(s) && Nodes(s) <= c.Keys
    ensures var k := KidsOf(s, x);
      x in h && h[x].children == Roots(k) && Linked(h, k, x) && Distinct(k) && Nodes(k) <= Nodes(s) && x !in Nodes(k)
      && (Ascending(Contents(c, s)) ==> Ascending(Contents(c, k)))
  {
    if s.node != x {
      if x in Nodes(s.kids) { KidsLinked(h, c, s.kids, s.node, x); } else { KidsLinked(h, c, s.next, parent, x); }
    }
  }

  lemma {:induction false} KidsPaths(c: CellMap, s: SetShape, x: RemovableMedia)
    requires Nodes(s) <= c.Keys
    ensures Nodes(KidsOf(s, x)) <= Nodes(s) && Paths(Contents(c, KidsOf(s, x))) <= Paths(Contents(c, s))
  {
    if s.Link? {
      KidsPaths(c, s.kids, x);
      KidsPaths(c, s.next, x);
    }
  }

  lemma NothingShaped(x: RemovableMedia)
    ensures Nodes<RemovableMedia>(Bare) == {} && Roots(Bare) == [] && Distinct<RemovableMedia>(Bare)
    ensures forall h: LinkMap :: Linked(h, Bare, x)
    ensures forall c: CellMap :: Contents(c, Bare) == Nil
  {}

  /** A node is in the set of its parent, or in the outermost one. */
  lemma {:induction false} ParentHolds(h: LinkMap, s: SetShape, parent: RemovableMedia?, x: RemovableMedia)
    requires Linked(h, s, parent) && Distinct(s) && parent !in Nodes(s) && x in Nodes(s)
    ensures x in h && (h[x].parent == parent <==> x in Roots(s))
    ensures h[x].parent == parent || (h[x].parent in Nodes(s) && h[x].parent in h && x in h[h[x].parent].children)
  {
    RootsInside(s.kids);
    RootsInside(s.next);
    if x in Nodes(s.kids) {
      ParentHolds(h, s.kids, s.node, x);
    } else if x in Nodes(s.next) {
      ParentHolds(h, s.next, parent, x);
    }
  }

  // ----- changing the data of a node -----

  lemma {:induction false} UpdateContents(c: CellMap, c': CellMap, s: SetShape, path: string)
    requires Distinct(s) && Nodes(s) <= c.Keys && Nodes(s) <= c'.Keys && FindNode(c, s, path) != null
    requires var x := FindNode(c, s, path);
      x in c' && c'[x].path == path && forall n :: n in Nodes(s) && n != x ==> c'[n] == c[n]
    ensures Contents(c', s) == Update(Contents(c, s), path, c'[FindNode(c, s, path)].data)
  {
    FindNodeMeaning(c, s.kids, path);
    FindNodeMeaning(c, s.next, path);
    var x := FindNode(c, s, path);
    if x == s.node {
      ContentsSame(c, c', s.kids);
      ContentsSame(c, c', s.next);
    } else if FindNode(c, s.kids, path) != null {
      UpdateContents(c, c', s.kids, path);
      ContentsSame(c, c', s.next);
    } else {
      UpdateContents(c, c', s.next, path);
      ContentsSame(c, c', s.kids);
    }
  }

  lemma {:induction false} AscendingUpdate<T>(f: Forest<T>, p: string, d: T)
    requires Ascending(f)
    ensures Ascending(Update(f, p, d)) && (f.Node? ==> Update(f, p, d).Node? && Update(f, p, d).path == f.path)
  {
    if f.Node? {
      AscendingUpdate(f.kids, p, d);
      AscendingUpdate(f.next, p, d);
    }
  }

  // ----- std::set::insert -----

  /** A node with its subtree before the first sibling with a greater path. */
  function Placed<T>(f: Forest<T>, p: string, d: T, kids: Forest<T>): Forest<T> {
    if f.Nil? || Less(p, f.path) then Node(p, d, kids, f) else f.(next := Placed(f.next, p, d, kids))
  }

  lemma {:induction false} PlacedLeaf<T>(f: Forest<T>, p: string, d: T)
    ensures Placed(f, p, d, Nil) == InsertSorted(f, p, d)
  {
    if f.Node? { PlacedLeaf(f.next, p, d); }
  }

  function RootPaths<T>(f: Forest<T>): set<string> {
    match f
    case Nil => {}
    case Node(p, _, _, next) => {p} + RootPaths(next)
  }

  lemma {:induction false} AscendingPlaced<T>(f: Forest<T>, p: string, d: T, kids: Forest<T>)
    requires Ascending(f) && Ascending(kids) && p !in RootPaths(f)
    ensures Ascending(Placed(f, p, d, kids))
    ensures f.Node? && !Less(p, f.path) ==> Placed(f, p, d, kids).path == f.path
  {
    if f.Node? && !Less(p, f.path) {
      LessTotal(p, f.path);
      AscendingPlaced(f.next, p, d, kids);
    }
  }

  lemma {:induction false} RootPathsInside<T>(f: Forest<T>)
    ensures RootPaths(f) <= Paths(f)
  {
    if f.Node? { RootPathsInside(f.next); }
  }

  lemma {:induction false} AscendingInsert<T>(f: Forest<T>, parent: string, p: string, d: T)
    requires Ascending(f) && p !in Paths(f)
    ensures Ascending(InsertSorted(f, p, d)) && Ascending(InsertUnder(f, parent, p, d))
    ensures f.Node? ==> InsertUnder(f, parent, p, d).Node? && InsertUnder(f, parent, p, d).path == f.path
  {
    PlacedLeaf(f, p, d);
    RootPathsInside(f);
    AscendingPlaced(f, p, d, Nil);
    if f.Node? {
      AscendingInsert(f.kids, parent, p, d);
      AscendingInsert(f.next, parent, p, d);
    }
  }

  ghost function Spread(c: CellMap, s: SetShape, x: RemovableMedia, k: SetShape, p: string): SetShape
    requires Nodes(s) <= c.Keys
  {
    if s.Bare? || Less(p, c[s.node].path) then Link(x, k, s)
    else Link(s.node, s.kids, Spread(c, s.next, x, k, p))
  }

  lemma {:induction false} SpreadLinked(
      h: LinkMap, h': LinkMap, c: CellMap, s: SetShape, parent: RemovableMedia?, x: RemovableMedia, k: SetShape,
        p: string)
    requires Linked(h, s, parent) && Distinct(s) && Nodes(s) <= c.Keys
    requires forall n :: n in Nodes(s) && n in h ==> n in h' && h'[n] == h[n]
    requires x in h' && h'[x] == Pointers(parent, Roots(k)) && Linked(h', k, x) && Distinct(k)
    requires x !in Nodes(s) && x !in Nodes(k) && Nodes(k) !! Nodes(s)
    ensures var s' := Spread(c, s, x, k, p);
      Linked(h', s', parent) && Distinct(s') && Nodes(s') == Nodes(s) + {x} + Nodes(k)
  {
    LinkedSame(h, h', s, parent);
    if s.Link? { SpreadLinked(h, h', c, s.next, parent, x, k, p); }
  }

  lemma {:induction false} SpreadContents(c: CellMap, c': CellMap, s: SetShape, x: RemovableMedia, k: SetShape,
    p: string)
    requires Nodes(s) <= c.Keys && (forall n :: n in Nodes(s) ==> n in c' && c'[n] == c[n])
    requires x in c' && c'[x].path == p && Nodes(k) <= c'.Keys
    ensures Nodes(Spread(c, s, x, k, p)) <= c'.Keys
    ensures Contents(c', Spread(c, s, x, k, p)) == Placed(Contents(c, s), p, c'[x].data, Contents(c', k))
  {
    ContentsSame(c, c', s);
    if s.Link? {
      ContentsSame(c, c', s.kids);
      SpreadContents(c, c', s.next, x, k, p);
    }
  }

  lemma FirstDecides<T>(f: Forest<T>, p: string)
    requires f.Node? && Ascending(f) && !Less(f.path, p)
    ensures p in RootPaths(f) <==> !Less(p, f.path)
  {
    LessTotal(f.path, p);
    LessIrreflexive(p);
    if Less(p, f.path) { GreaterThanAll(f, p); }
  }

  lemma PlaceFirst(c: CellMap, s: SetShape, x: RemovableMedia, k: SetShape, p: string)
    requires Nodes(s) <= c.Keys && Ascending(Contents(c, s)) && (s.Link? ==> !Less(c[s.node].path, p))
    ensures p in RootPaths(Contents(c, s)) <==> s.Link? && !Less(p, c[s.node].path)
    ensures p !in RootPaths(Contents(c, s)) ==> Spread(c, s, x, k, p) == Link(x, k, s)
  {
    hide Less;
    if s.Link? { FirstDecides(Contents(c, s), p); }
  }

  lemma PlaceNext(c: CellMap, s: SetShape, x: RemovableMedia, k: SetShape, p: string)
    requires Nodes(s) <= c.Keys && Ascending(Contents(c, s)) && s.Link? && Less(c[s.node].path, p)
    ensures Nodes(s.next) <= c.Keys && Ascending(Contents(c, s.next))
    ensures p in RootPaths(Contents(c, s)) <==> p in RootPaths(Contents(c, s.next))
    ensures Roots(Spread(c, s, x, k, p)) == [s.node] + Roots(Spread(c, s.next, x, k, p))
  {
    hide Less;
    LessAsymmetric(c[s.node].path, p);
  }

  lemma RootsParts(s: SetShape)
    ensures s.Bare? ==> Roots(s) == []
    ensures s.Link? ==> Roots(s) == [s.node] + Roots(s.next)
    ensures forall x, k :: Roots(Link(x, k, s)) == [x] + Roots(s)
  {}

  lemma SplitBehind<T>(n: T, tail: seq<T>, i: nat)
    requires 0 < i <= |tail| + 1
    ensures ([n] + tail)[..i] == [n] + tail[..i - 1] && ([n] + tail)[i..] == tail[i - 1..]
    ensures forall j :: 0 <= j < |tail| ==> ([n] + tail)[j + 1] == tail[j]
  {}

  /** The place before the first element that is not less is the right one, unless that is not greater either. */
  lemma {:induction false} PlaceAt(c: CellMap, s: SetShape, x: RemovableMedia, k: SetShape, p: string, i: nat)
    requires Nodes(s) <= c.Keys && Ascending(Contents(c, s)) && i <= |Roots(s)|
    requires forall j :: 0 <= j < |Roots(s)| ==> Roots(s)[j] in c
    requires forall j :: 0 <= j < i ==> Less(c[Roots(s)[j]].path, p)
    requires i < |Roots(s)| ==> !Less(c[Roots(s)[i]].path, p)
    ensures p in RootPaths(Contents(c, s)) <==> i < |Roots(s)| && !Less(p, c[Roots(s)[i]].path)
    ensures p !in RootPaths(Contents(c, s)) ==> Roots(Spread(c, s, x, k, p)) == Roots(s)[..i] + [x] + Roots(s)[i..]
  {
    hide Less, Roots, Spread, Ascending, Contents, Nodes, RootPaths;
    RootsParts(s);
    if i == 0 {
      PlaceFirst(c, s, x, k, p);
    } else {
      var tail := Roots(s.next);
      SplitBehind(s.node, tail, i);
      assert Roots(s)[0] == s.node;
      PlaceNext(c, s, x, k, p);
      forall j | 0 <= j < i - 1 ensures Less(c[tail[j]].path, p) { assert tail[j] == Roots(s)[j + 1]; }
      PlaceAt(c, s.next, x, k, p, i - 1);
      assert [s.node] + (tail[..i - 1] + [x] + tail[i - 1..]) == Roots(s)[..i] + [x] + Roots(s)[i..];
    }
  }

  /** It goes before the first element that is not less, unless that is not greater either. */
  method SetInsert(container: seq<RemovableMedia>, x: RemovableMedia, ghost c: CellMap, ghost s: SetShape,
    ghost k: SetShape)
    returns (result: seq<RemovableMedia>, inserted: bool)
    requires container == Roots(s) && Nodes(s) <= c.Keys && Ascending(Contents(c, s))
    requires forall j :: 0 <= j < |container| ==> container[j] in c && container[j].path == c[container[j]].path
    ensures inserted <==> x.path !in RootPaths(Contents(c, s))
    ensures result == if inserted then Roots(Spread(c, s, x, k, x.path)) else container
  {
    hide Nodes, Roots, Ascending, Contents, Spread, RootPaths;
    var i := 0;
    while i < |container| && Less(container[i].path, x.path)
      invariant i <= |container| && forall j :: 0 <= j < i ==> Less(container[j].path, x.path)
    {
      i := i + 1;
    }
    PlaceAt(c, s, x, k, x.path, i);
    if i < |container| && !Less(x.path, container[i].path) { return container, false; }
    return container[..i] + [x] + container[i..], true;
  }

  lemma LessAsymmetric(a: string, b: string)
    requires Less(a, b)
    ensures !Less(b, a) && a != b
  {
    if Less(b, a) { LessTransitive(a, b, a); }
    LessIrreflexive(a);
  }

  lemma {:induction false} GreaterThanAll<T>(f: Forest<T>, p: string)
    requires Ascending(f) && f.Node? && Less(p, f.path)
    ensures p !in RootPaths(f)
  {
    LessAsymmetric(p, f.path);
    if f.next.Node? {
      LessTransitive(p, f.path, f.next.path);
      GreaterThanAll(f.next, p);
    }
  }

  // ----- a new leaf below a node -----

  ghost function Under(c: CellMap, s: SetShape, at: RemovableMedia, x: RemovableMedia, p: string): SetShape
    requires Nodes(s) <= c.Keys
  {
    match s
    case Bare => Bare
    case Link(n, kids, next) =>
      if n == at then Link(n, Spread(c, kids, x, Bare, p), next)
      else if at in Nodes(kids) then Link(n, Under(c, kids, at, x, p), next)
      else Link(n, kids, Under(c, next, at, x, p))
  }

  lemma {:induction false} UnderLinked(
      h: LinkMap, h': LinkMap, c: CellMap, s: SetShape, parent: RemovableMedia?, at: RemovableMedia, x: RemovableMedia,
        p: string)
    requires Linked(h, s, parent) && Distinct(s) && Nodes(s) <= c.Keys && at in Nodes(s) && x !in Nodes(s)
    requires forall n :: n in Nodes(s) && n in h && n != at ==> n in h' && h'[n] == h[n]
    requires x in h' && h'[x] == Pointers(at, [])
    requires Nodes(KidsOf(s, at)) <= Nodes(s)
    requires at in h && at in h' && h'[at] == h[at].(children := Roots(Spread(c, KidsOf(s, at), x, Bare, p)))
    ensures Linked(h', Under(c, s, at, x, p), parent) && Roots(Under(c, s, at, x, p)) == Roots(s)
  {
    hide Spread;
    if s.node == at {
      SpreadLinked(h, h', c, s.kids, at, x, Bare, p);
      LinkedSame(h, h', s.next, parent);
    } else if at in Nodes(s.kids) {
      KidsLinked(h, c, s.kids, s.node, at);
      UnderLinked(h, h', c, s.kids, s.node, at, x, p);
      LinkedSame(h, h', s.next, parent);
    } else {
      KidsLinked(h, c, s.next, parent, at);
      UnderLinked(h, h', c, s.next, parent, at, x, p);
      LinkedSame(h, h', s.kids, s.node);
    }
  }

  lemma {:induction false} SpreadShape(c: CellMap, s: SetShape, x: RemovableMedia, p: string)
    requires Distinct(s) && Nodes(s) <= c.Keys && x !in Nodes(s)
    ensures var s' := Spread(c, s, x, Bare, p); Distinct(s') && Nodes(s') == Nodes(s) + {x}
  {
    if s.Link? { SpreadShape(c, s.next, x, p); }
  }

  lemma {:induction false} UnderShape(c: CellMap, s: SetShape, at: RemovableMedia, x: RemovableMedia, p: string)
    requires Distinct(s) && Nodes(s) <= c.Keys && at in Nodes(s) && x !in Nodes(s)
    ensures var s' := Under(c, s, at, x, p); Distinct(s') && Nodes(s') == Nodes(s) + {x}
  {
    if s.node == at {
      SpreadShape(c, s.kids, x, p);
    } else if at in Nodes(s.kids) {
      UnderShape(c, s.kids, at, x, p);
    } else {
      UnderShape(c, s.next, at, x, p);
    }
  }

  lemma {:induction false} UnderContents(c: CellMap, c': CellMap, s: SetShape, path: string, x: RemovableMedia,
    p: string)
    requires Distinct(s) && Nodes(s) <= c.Keys && (forall n :: n in Nodes(s) ==> n in c' && c'[n] == c[n])
    requires x in c' && c'[x].path == p && FindNode(c, s, path) != null
    ensures var s' := Under(c, s, FindNode(c, s, path), x, p);
      Nodes(s') <= c'.Keys && Contents(c', s') == InsertUnder(Contents(c, s), path, p, c'[x].data)
  {
    FindNodeMeaning(c, s.kids, path);
    FindNodeMeaning(c, s.next, path);
    if c[s.node].path == path {
      SpreadContents(c, c', s.kids, x, Bare, p);
      PlacedLeaf(Contents(c, s.kids), p, c'[x].data);
      ContentsSame(c, c', s.next);
    } else if FindNode(c, s.kids, path) != null {
      UnderContents(c, c', s.kids, path, x, p);
      ContentsSame(c, c', s.next);
    } else {
      UnderContents(c, c', s.next, path, x, p);
      ContentsSame(c, c', s.kids);
    }
  }

  // ----- std::set::erase -----

  function Drop(s: seq<RemovableMedia>, x: RemovableMedia): seq<RemovableMedia> {
    if s == [] then [] else if s[0] == x then s[1..] else [s[0]] + Drop(s[1..], x)
  }

  lemma {:induction false} DropMiddle(a: seq<RemovableMedia>, x: RemovableMedia, b: seq<RemovableMedia>)
    requires x !in a
    ensures Drop(a + [x] + b, x) == a + b
  {
    var s := a + [x] + b;
    if a == [] {
      assert s[1..] == b;
    } else {
      assert s[0] == a[0] && s[1..] == a[1..] + [x] + b;
      DropMiddle(a[1..], x, b);
    }
  }

  lemma {:induction false} CutShape(s: SetShape, x: RemovableMedia)
    requires Distinct(s)
    ensures Distinct(Cut(s, x)) && Nodes(Cut(s, x)) <= Nodes(s) && x !in Nodes(Cut(s, x))
    ensures Roots(Cut(s, x)) == Drop(Roots(s), x)
  {
    if s.Link? {
      RootsInside(s.next);
      CutShape(s.kids, x);
      CutShape(s.next, x);
      if x in Nodes(s.kids) { DropAbsent(Roots(s), x); }
      assert Roots(s)[1..] == Roots(s.next);
    }
  }

  lemma {:induction false} DropAbsent(s: seq<RemovableMedia>, x: RemovableMedia)
    requires x !in s
    ensures Drop(s, x) == s
  {
    if s != [] { DropAbsent(s[1..], x); }
  }

  /** Erasing it from the set that holds it is enough. */
  lemma {:induction false} CutLinked(h: LinkMap, h': LinkMap, s: SetShape, parent: RemovableMedia?, x: RemovableMedia)
    requires Linked(h, s, parent) && Distinct(s) && parent !in Nodes(s) && x in Nodes(s) && x in h
    requires forall n :: n in Nodes(s) && n in h ==>
      n in h' && h'[n] == if n == h[x].parent then h[n].(children := Drop(h[n].children, x)) else h[n]
    ensures Linked(h', Cut(s, x), parent)
  {
    RootsInside(s);
    ParentHolds(h, s, parent, x);
    if s.node == x {
      LinkedSame(h, h', s.next, parent);
    } else if x in Nodes(s.kids) {
      ParentHolds(h, s.kids, s.node, x);
      CutShape(s.kids, x);
      if x !in Roots(s.kids) { DropAbsent(Roots(s.kids), x); }
      CutLinked(h, h', s.kids, s.node, x);
      LinkedSame(h, h', s.next, parent);
    } else {
      ParentHolds(h, s.next, parent, x);
      CutLinked(h, h', s.next, parent, x);
      LinkedSame(h, h', s.kids, s.node);
    }
  }

  lemma {:induction false} CutContents(c: CellMap, s: SetShape, path: string)
    requires Distinct(s) && Nodes(s) <= c.Keys && FindNode(c, s, path) != null
    ensures var s' := Cut(s, FindNode(c, s, path));
      Nodes(s') <= c.Keys && Contents(c, s') == Remove(Contents(c, s), path)
  {
    FindNodeMeaning(c, s.kids, path);
    FindNodeMeaning(c, s.next, path);
    if c[s.node].path != path {
      if FindNode(c, s.kids, path) != null { CutContents(c, s.kids, path); } else { CutContents(c, s.next, path); }
    }
  }

  lemma {:induction false} AscendingRemove<T>(f: Forest<T>, p: string)
    requires Ascending(f)
    ensures Ascending(Remove(f, p))
    ensures forall q :: Remove(f, p).Node? && f.Node? && Less(q, f.path) ==> Less(q, Remove(f, p).path)
  {
    if f.Node? {
      AscendingRemove(f.kids, p);
      AscendingRemove(f.next, p);
      if f.path == p && f.next.Node? {
        forall q | Less(q, f.path) ensures Less(q, f.next.path) { LessTransitive(q, f.path, f.next.path); }
      }
    }
  }

  lemma {:induction false} AscendingRoots(c: CellMap, s: SetShape)
    requires Nodes(s) <= c.Keys && Ascending(Contents(c, s))
    ensures forall n :: n in Roots(s) ==> n in c
    ensures forall i, j :: 0 <= i < j < |Roots(s)| ==> Less(c[Roots(s)[i]].path, c[Roots(s)[j]].path)
  {
    if s.Link? {
      AscendingRoots(c, s.next);
      var r, t := Roots(s), Roots(s.next);
      RootsInside(s);
      forall j | 0 < j < |r| ensures Less(c[r[0]].path, c[r[j]].path) {
        assert r[j] == t[j - 1] && t[0] == s.next.node;
        if j > 1 { LessTransitive(c[r[0]].path, c[t[0]].path, c[t[j - 1]].path); }
      }
    }
  }

  /** It looks for the first element that is not less, and erases it if it is not greater either. */
  method SetErase(container: seq<RemovableMedia>, x: RemovableMedia) returns (result: seq<RemovableMedia>, count: nat)
    requires forall i, j :: 0 <= i < j < |container| ==> Less(container[i].path, container[j].path)
    requires x in container
    ensures result == Drop(container, x) && count == 1
  {
    hide Less, Drop;
    var i := 0;
    ghost var at :| 0 <= at < |container| && container[at] == x;
    assert forall k :: 0 <= k < at ==> Less(container[k].path, x.path);
    LessIrreflexive(x.path);
    while i < |container| && Less(container[i].path, x.path)
      invariant i <= at
    {
      i := i + 1;
    }
    assert i == at;
    assert x !in container[..at];
    DropMiddle(container[..at], x, container[at + 1..]);
    assert container == container[..at] + [x] + container[at + 1..];
    result, count := container, 0;
    if i < |container| && !Less(x.path, container[i].path) { result, count := container[..i] + container[i + 1..], 1; }
  }

  // ----- whole trees -----

  /** A well-formed tree: no node twice, right pointers, ascending siblings. */
  ghost predicate Tree(h: LinkMap, c: CellMap, s: SetShape, parent: RemovableMedia?) {
    Distinct(s) && Nodes(s) <= c.Keys && Linked(h, s, parent) && Ascending(Contents(c, s))
  }

  lemma TreeMeans(h: LinkMap, c: CellMap, s: SetShape, parent: RemovableMedia?)
    requires Tree(h, c, s, parent)
    ensures Distinct(s) && Nodes(s) <= c.Keys && Linked(h, s, parent) && Ascending(Contents(c, s))
  {}

  /** A childless node joins, the children of `at` (if there is one) become these, and nothing else changes. */
  ghost predicate Joined(h: LinkMap, h': LinkMap, nodes: set<RemovableMedia>, at: RemovableMedia?, x: RemovableMedia,
                         children: seq<RemovableMedia>)
  {
    x in h' && h'[x] == Pointers(at, [])
    && forall n :: n in nodes && n in h ==> n in h' && h'[n] == if n == at then h[n].(children := children) else h[n]
  }

  ghost predicate Keeps(c: CellMap, c': CellMap, nodes: set<RemovableMedia>) {
    forall n :: n in nodes ==> n in c && n in c' && c'[n] == c[n]
  }

  lemma RootJoins(h: LinkMap, h': LinkMap, c: CellMap, c': CellMap, s: SetShape, x: RemovableMedia, p: string,
    d: Device)
    requires Tree(h, c, s, null) && Joined(h, h', Nodes(s), null, x, []) && Keeps(c, c', Nodes(s)) && x !in Nodes(s)
    requires x in c' && c'[x] == Cell(p, d) && p !in Paths(Contents(c, s))
    ensures p !in RootPaths(Contents(c, s)) && Ascending(Contents(c, s))
    ensures var s' := Spread(c, s, x, Bare, p);
      Tree(h', c', s', null) && Nodes(s') == Nodes(s) + {x} && Contents(c', s') == InsertSorted(Contents(c, s), p, d)
  {
    hide Linked, Distinct, Contents, Spread, Ascending, RootPaths, Paths, InsertSorted, Nodes, Roots;
    NothingShaped(x);
    SpreadLinked(h, h', c, s, null, x, Bare, p);
    SpreadContents(c, c', s, x, Bare, p);
    PlacedLeaf(Contents(c, s), p, d);
    RootPathsInside(Contents(c, s));
    AscendingInsert(Contents(c, s), "", p, d);
  }

  lemma LeafJoins(h: LinkMap, h': LinkMap, c: CellMap, c': CellMap, s: SetShape, at: RemovableMedia, path: string,
                  x: RemovableMedia, p: string, d: Device)
    requires Tree(h, c, s, null) && Keeps(c, c', Nodes(s)) && FindNode(c, s, path) == at && x !in Nodes(s)
    requires Nodes(KidsOf(s, at)) <= Nodes(s)
      && Joined(h, h', Nodes(s), at, x, Roots(Spread(c, KidsOf(s, at), x, Bare, p)))
    requires x in c' && c'[x] == Cell(p, d) && p !in Paths(Contents(c, s))
    ensures var s' := Under(c, s, at, x, p);
      Tree(h', c', s', null) && Nodes(s') == Nodes(s) + {x} && Roots(s') == Roots(s)
      && Contents(c', s') == InsertUnder(Contents(c, s), path, p, d)
  {
    hide Linked, Distinct, Contents, Spread, Ascending, Paths, InsertUnder, Nodes, Roots, FindNode, KidsOf, Under;
    FindNodeMeaning(c, s, path);
    KidsLinked(h, c, s, null, at);
    UnderLinked(h, h', c, s, null, at, x, p);
    UnderShape(c, s, at, x, p);
    UnderContents(c, c', s, path, x, p);
    AscendingInsert(Contents(c, s), path, p, d);
  }

  /** What inserting below a node that a path finds has to know. */
  lemma KidsReady(h: LinkMap, c: CellMap, s: SetShape, path: string, p: string)
    requires Tree(h, c, s, null) && FindNode(c, s, path) != null && p !in Paths(Contents(c, s))
    ensures var at := FindNode(c, s, path);
      at in Nodes(s) && at in h && h[at].children == Roots(KidsOf(s, at)) && Nodes(KidsOf(s, at)) <= Nodes(s)
      && Ascending(Contents(c, KidsOf(s, at))) && p !in RootPaths(Contents(c, KidsOf(s, at)))
      && forall j :: 0 <= j < |Roots(KidsOf(s, at))| ==> Roots(KidsOf(s, at))[j] in Nodes(s)
  {
    hide Linked, Distinct, Contents, Ascending, Paths, Nodes, Roots, FindNode, KidsOf, RootPaths;
    var at := FindNode(c, s, path);
    FindNodeMeaning(c, s, path);
    KidsLinked(h, c, s, null, at);
    KidsPaths(c, s, at);
    RootPathsInside(Contents(c, KidsOf(s, at)));
    RootsInside(KidsOf(s, at));
  }

  /** The set that holds a node: its parent's, or the outermost one. */
  lemma HolderReady(h: LinkMap, c: CellMap, s: SetShape, path: string)
    requires Tree(h, c, s, null) && FindNode(c, s, path) != null
    ensures var x := FindNode(c, s, path);
      x in Nodes(s) && x in h && (h[x].parent != null ==> h[x].parent in Nodes(s) && h[x].parent in h)
      && var holder := if h[x].parent == null then Roots(s) else h[h[x].parent].children;
         x in holder && (forall i :: 0 <= i < |holder| ==> holder[i] in Nodes(s))
         && forall i, j :: 0 <= i < j < |holder| ==> Less(c[holder[i]].path, c[holder[j]].path)
  {
    hide Linked, Distinct, Contents, Ascending, Paths, Nodes, Roots, FindNode, KidsOf;
    var x := FindNode(c, s, path);
    FindNodeMeaning(c, s, path);
    ParentHolds(h, s, null, x);
    if h[x].parent == null {
      RootsInside(s);
      AscendingRoots(c, s);
    } else {
      KidsLinked(h, c, s, null, h[x].parent);
      RootsInside(KidsOf(s, h[x].parent));
      AscendingRoots(c, KidsOf(s, h[x].parent));
    }
  }

  /** The set that held the node has it no more, and nothing else changes. */
  ghost predicate Erased(h: LinkMap, h': LinkMap, nodes: set<RemovableMedia>, x: RemovableMedia) {
    x in h && forall n :: n in nodes && n in h ==>
      n in h' && h'[n] == if n == h[x].parent then h[n].(children := Drop(h[n].children, x)) else h[n]
  }

  lemma NodeErased(h: LinkMap, h': LinkMap, c: CellMap, s: SetShape, x: RemovableMedia, path: string)
    requires Tree(h, c, s, null) && Erased(h, h', Nodes(s), x) && FindNode(c, s, path) == x
    ensures var s' := Cut(s, x);
      Tree(h', c, s', null) && Nodes(s') <= Nodes(s) && Contents(c, s') == Remove(Contents(c, s), path)
      && Roots(s') == if h[x].parent == null then Drop(Roots(s), x) else Roots(s)
  {
    hide Linked, Distinct, Contents, Ascending, Paths, Nodes, Roots, FindNode, Cut, Remove, Drop;
    FindNodeMeaning(c, s, path);
    ParentHolds(h, s, null, x);
    if h[x].parent != null { DropAbsent(Roots(s), x); }
    CutShape(s, x);
    CutLinked(h, h', s, null, x);
    CutContents(c, s, path);
    AscendingRemove(Contents(c, s), path);
  }

  /** A tree seen through larger snapshots is seen through those of its own nodes. */
  lemma TreeNow(all: set<RemovableMedia>, s: SetShape)
    requires Tree(LinksOf(all), CellsOf(all), s, null) && Nodes(s) <= all
    ensures Tree(LinksOf(Nodes(s)), CellsOf(Nodes(s)), s, null)
    ensures Contents(CellsOf(Nodes(s)), s) == Contents(CellsOf(all), s)
  {
    hide Ascending, Distinct;
    LinkedSame(LinksOf(all), LinksOf(Nodes(s)), s, null);
    ContentsSame(CellsOf(all), CellsOf(Nodes(s)), s);
  }

  lemma NodeUpdated(h: LinkMap, c: CellMap, c': CellMap, s: SetShape, path: string, x: RemovableMedia, d: Device)
    requires Tree(h, c, s, null) && FindNode(c, s, path) == x && Keeps(c, c', Nodes(s) - {x}) && x in c'
      && c'[x] == Cell(path, d)
    ensures Tree(h, c', s, null) && Contents(c', s) == Update(Contents(c, s), path, d)
  {
    hide Linked, Distinct, Contents, Ascending, Nodes, Update;
    UpdateContents(c, c', s, path);
    AscendingUpdate(Contents(c, s), path, d);
  }

  // ----- building a tree from a listing -----

  /** The set that a list of siblings makes, one insertion after the other: the first of equal paths wins. */
  function Collected<T>(list: Forest<T>, acc: Forest<T>): Forest<T>
    decreases list
  {
    match list
    case Nil => acc
    case Node(p, d, kids, next) =>
      Collected(next, if p in RootPaths(acc) then acc else Placed(acc, p, d, Collected(kids, Nil)))
  }

  lemma {:induction false} AscendingCollected<T>(list: Forest<T>, acc: Forest<T>)
    requires Ascending(acc)
    ensures Ascending(Collected(list, acc))
    decreases list
  {
    if list.Node? {
      AscendingCollected(list.kids, Nil);
      if list.path !in RootPaths(acc) { AscendingPlaced(acc, list.path, list.data, Collected(list.kids, Nil)); }
      AscendingCollected(list.next, if list.path in RootPaths(acc) then acc
                                    else Placed(acc, list.path, list.data, Collected(list.kids, Nil)));
    }
  }

  /** One list after another. */
  function Chain<T>(f: Forest<T>, g: Forest<T>): Forest<T> { if f.Nil? then g else f.(next := Chain(f.next, g)) }

  /** All siblings are less than the path. */
  ghost predicate AllLess<T>(f: Forest<T>, p: string) { f.Node? ==> Less(f.path, p) && AllLess(f.next, p) }

  lemma {:induction false} PlacedLast<T>(f: Forest<T>, p: string, d: T, kids: Forest<T>, g: Forest<T>)
    requires AllLess(f, p)
    ensures p !in RootPaths(f) && Placed(f, p, d, kids) == Chain(f, Node(p, d, kids, Nil))
    ensures Chain(Chain(f, Node(p, d, kids, Nil)), g) == Chain(f, Node(p, d, kids, g))
    ensures forall q :: Less(p, q) ==> AllLess(Placed(f, p, d, kids), q)
  {
    if f.Node? {
      LessAsymmetric(f.path, p);
      PlacedLast(f.next, p, d, kids, g);
      forall q | Less(p, q) ensures Less(f.path, q) { LessTransitive(f.path, p, q); }
    }
  }

  /** Siblings that ascend stay as they are. */
  lemma {:induction false} CollectedAscending<T>(list: Forest<T>, acc: Forest<T>)
    requires Ascending(list) && (list.Node? ==> AllLess(acc, list.path))
    ensures Collected(list, acc) == Chain(acc, list)
    decreases list
  {
    if list.Nil? {
      ChainNil(acc);
    } else {
      CollectedAscending(list.kids, Nil);
      PlacedLast(acc, list.path, list.data, list.kids, list.next);
      CollectedAscending(list.next, Placed(acc, list.path, list.data, list.kids));
    }
  }

  lemma {:induction false} ChainNil<T>(f: Forest<T>)
    ensures Chain(f, Nil) == f
  {
    if f.Node? { ChainNil(f.next); }
  }

  /** A node with its children joins a set of its siblings. */
  lemma SubtreeJoins(s: SetShape, parent: RemovableMedia?, x: RemovableMedia, k: SetShape)
    requires Tree(LinksOf(Nodes(s)), CellsOf(Nodes(s)), s, parent) && Tree(LinksOf(Nodes(k)), CellsOf(Nodes(k)), k, x)
    requires x.children == Roots(k) && x.parent == parent && x !in Nodes(s) && x !in Nodes(k) && Nodes(k) !! Nodes(s)
    requires x.path !in RootPaths(Contents(CellsOf(Nodes(s)), s))
    ensures var c := CellsOf(Nodes(s));
      var s' := Spread(c, s, x, k, x.path);
      Nodes(s') == Nodes(s) + {x} + Nodes(k) && Tree(LinksOf(Nodes(s')), CellsOf(Nodes(s')), s', parent)
      && Contents(CellsOf(Nodes(s')), s') == Placed(Contents(c, s), x.path, x.Data(), Contents(CellsOf(Nodes(k)), k))
  {
    hide Nodes, Linked, Distinct, Contents, Ascending, Roots, Spread, RootPaths, Placed;
    var c, all := CellsOf(Nodes(s)), Nodes(s) + {x} + Nodes(k);
    LinkedSame(LinksOf(Nodes(k)), LinksOf(all), k, x);
    SpreadLinked(LinksOf(Nodes(s)), LinksOf(all), c, s, parent, x, k, x.path);
    SpreadContents(c, CellsOf(all), s, x, k, x.path);
    ContentsSame(CellsOf(Nodes(k)), CellsOf(all), k);
    AscendingPlaced(Contents(c, s), x.path, x.Data(), Contents(CellsOf(Nodes(k)), k));
  }
}
