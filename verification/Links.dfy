/** Linked device lists. A shape says which node is whose child and sibling; the links and the data of its
    nodes are looked at through snapshots of the heap, so that everything about them is a plain lemma. */
module Links {
  import opened Basics
  import opened Forests
  import opened Media
  import opened Shapes

  class MediaNode {
    var path: string
    var kind: Kind
    var subtype: Subtype
    var state: State
    var fstype: Option<string>
    var volume: Option<string>
    var mnt: Option<string>
    var opts: Option<string>
    var sysfs: Option<string>
    var counter: bv32

    var parent: MediaNode?
    var kids: MediaNode?
    var next: MediaNode?
    var prev: MediaNode?

    constructor (path: string, m: Media, parent: MediaNode?)
      ensures this.path == path && Data() == m
      ensures this.parent == parent && kids == null && next == null && prev == null
    {
      this.path := path;
      kind, subtype, state := m.kind, m.subtype, m.state;
      fstype, volume, mnt, opts := m.fstype, m.volume, m.mnt, m.opts;
      sysfs, counter := m.sysfs, m.counter;
      this.parent, kids, next, prev := parent, null, null, null;
    }

    function Data(): Media
      reads this`kind, this`subtype, this`state, this`fstype, this`volume, this`mnt, this`opts, this`sysfs, this`counter
    {
      Media(kind, subtype, state, fstype, volume, mnt, opts, sysfs, counter)
    }
  }

  datatype Pointers = Pointers(parent: MediaNode?, kids: MediaNode?, next: MediaNode?, prev: MediaNode?)

  type MediaShape = Shape<MediaNode>

  type LinkMap = map<MediaNode, Pointers>

  type CellMap = map<MediaNode, Cell<Media>>

  ghost function LinksOf(nodes: set<MediaNode>): LinkMap
    reads nodes`parent, nodes`kids, nodes`next, nodes`prev
  {
    map n | n in nodes :: Pointers(n.parent, n.kids, n.next, n.prev)
  }

  ghost function CellsOf(nodes: set<MediaNode>): CellMap
    reads nodes`path, nodes`kind, nodes`subtype, nodes`state, nodes`fstype, nodes`volume, nodes`mnt, nodes`opts
    reads nodes`sysfs, nodes`counter
  {
    map n | n in nodes :: Cell(n.path, n.Data())
  }

  ghost function First(s: MediaShape): MediaNode? { if s.Bare? then null else s.node }

  /** The links are those of the shape, below `parent` and after `prev`. */
  ghost predicate Linked(h: LinkMap, s: MediaShape, parent: MediaNode?, prev: MediaNode?) {
    match s
    case Bare => true
    case Link(n, kids, next) =>
      n in h && h[n] == Pointers(parent, First(kids), First(next), prev)
      && Linked(h, kids, n, null) && Linked(h, next, parent, n)
  }

  lemma EmptyContents(c: CellMap)
    ensures Contents(c, Bare) == Nil
  {}

  lemma NothingListed()
    ensures Nodes<MediaNode>(Bare) == {} && Distinct<MediaNode>(Bare)
    ensures forall h: LinkMap :: Linked(h, Bare, null, null)
    ensures forall c: CellMap :: Contents(c, Bare) == Nil
  {}

  lemma SplitContents(c: CellMap, s: MediaShape)
    requires s.Link? && Nodes(s) <= c.Keys
    ensures s.node in c && Nodes(s.kids) <= c.Keys && Nodes(s.next) <= c.Keys
    ensures Contents(c, s) == Node(c[s.node].path, c[s.node].data, Contents(c, s.kids), Contents(c, s.next))
  {}

  lemma {:induction false} LinkedSame(h: LinkMap, h': LinkMap, s: MediaShape, parent: MediaNode?, prev: MediaNode?)
    requires Linked(h, s, parent, prev)
    requires forall n :: n in Nodes(s) && n in h ==> n in h' && h'[n] == h[n]
    ensures Linked(h', s, parent, prev)
  {
    if s.Link? {
      LinkedSame(h, h', s.kids, s.node, null);
      LinkedSame(h, h', s.next, parent, s.node);
    }
  }

  // ----- searching -----

  ghost function FindNode(c: CellMap, s: MediaShape, path: string): MediaNode?
    requires Nodes(s) <= c.Keys
  {
    match s
    case Bare => null
    case Link(n, kids, next) =>
      if c[n].path == path then n
      else if FindNode(c, kids, path) != null then FindNode(c, kids, path)
      else FindNode(c, next, path)
  }

  lemma {:induction false} FindNodeMeaning(c: CellMap, s: MediaShape, path: string)
    requires Distinct(s) && Nodes(s) <= c.Keys
    ensures FindNode(c, s, path) == null <==> path !in Paths(Contents(c, s))
    ensures var x := FindNode(c, s, path); x != null ==>
      x in Nodes(s) && c[x].path == path && Nodes(KidsOf(s, x)) <= Nodes(s)
      && Get(Contents(c, s), path) == c[x].data
      && Subtree(Contents(c, s), path) == Node(path, c[x].data, Contents(c, KidsOf(s, x)), Nil)
  {
    if s.Link? {
      FindNodeMeaning(c, s.kids, path);
      FindNodeMeaning(c, s.next, path);
    }
  }

  lemma {:induction false} KidsLinked(h: LinkMap, s: MediaShape, parent: MediaNode?, prev: MediaNode?, x: MediaNode)
    requires Linked(h, s, parent, prev) && Distinct(s) && x in Nodes(s)
    ensures var k := KidsOf(s, x);
      x in h && h[x].kids == First(k) && Linked(h, k, x, null)
      && Distinct(k) && Nodes(k) <= Nodes(s) && x !in Nodes(k) && Size(k) < Size(s)
  {
    if s.node != x {
      if x in Nodes(s.kids) {
        KidsLinked(h, s.kids, s.node, null, x);
      } else {
        KidsLinked(h, s.next, parent, s.node, x);
      }
    }
  }

  lemma {:induction false} ParentPath(h: LinkMap, c: CellMap, s: MediaShape, parent: MediaNode?, prev: MediaNode?,
    path: string, top: string)
    requires Linked(h, s, parent, prev) && Distinct(s) && Nodes(s) <= c.Keys && path in Paths(Contents(c, s))
    requires if parent == null then top == ROOT_PATH else parent in c && c[parent].path == top
    ensures var x := FindNode(c, s, path);
      x != null && x in h && (h[x].parent != null ==> h[x].parent in c)
      && ParentOf(Contents(c, s), path, top) == if h[x].parent == null then ROOT_PATH else c[h[x].parent].path
  {
    FindNodeMeaning(c, s.kids, path);
    FindNodeMeaning(c, s.next, path);
    if c[s.node].path != path {
      if path in Paths(Contents(c, s.kids)) {
        ParentPath(h, c, s.kids, s.node, null, path, c[s.node].path);
      } else {
        ParentPath(h, c, s.next, parent, s.node, path, top);
      }
    }
  }

  lemma ParentNow(s: MediaShape, path: string)
    requires Linked(LinksOf(Nodes(s)), s, null, null) && Distinct(s) && FindNode(CellsOf(Nodes(s)), s, path) != null
    ensures var x := FindNode(CellsOf(Nodes(s)), s, path);
      path in Paths(Contents(CellsOf(Nodes(s)), s))
      && ParentOf(Contents(CellsOf(Nodes(s)), s), path, ROOT_PATH) == if x.parent == null then ROOT_PATH
        else x.parent.path
  {
    hide Linked, Distinct, Contents, FindNode, Paths, ParentOf;
    FindNodeMeaning(CellsOf(Nodes(s)), s, path);
    ParentPath(LinksOf(Nodes(s)), CellsOf(Nodes(s)), s, null, null, path, ROOT_PATH);
  }

  /** Changing the data of the node a path finds is an update of the forest. */
  lemma {:induction false} UpdateContents(c: CellMap, c': CellMap, s: MediaShape, path: string)
    requires Distinct(s) && Nodes(s) <= c.Keys && Nodes(s) <= c'.Keys && FindNode(c, s, path) != null
    requires var x := FindNode(c, s, path);
      x in c' && c'[x].path == path && forall n :: n in Nodes(s) && n != x ==> c'[n] == c[n]
    ensures Contents(c', s) == Update(Contents(c, s), path, c'[FindNode(c, s, path)].data)
  {
    FindNodeMeaning(c, s.kids, path);
    FindNodeMeaning(c, s.next, path);
    var x := FindNode(c, s, path);
    if x == s.node {
      ContentsSame(c, c', s.kids);
      ContentsSame(c, c', s.next);
    } else if FindNode(c, s.kids, path) != null {
      UpdateContents(c, c', s.kids, path);
      ContentsSame(c, c', s.next);
    } else {
      UpdateContents(c, c', s.next, path);
      ContentsSame(c, c', s.kids);
    }
  }

  // ----- insertion in a list of siblings -----

  /** The shape with a new leaf before the first sibling with a greater path. */
  ghost function Spread(c: CellMap, s: MediaShape, x: MediaNode, p: string): MediaShape
    requires Nodes(s) <= c.Keys
  {
    if s.Bare? || Less(p, c[s.node].path) then Link(x, Bare, s)
    else Link(s.node, s.kids, Spread(c, s.next, x, p))
  }

  /** The sibling it comes after, if any; `prev` if none of these. */
  ghost function Before(c: CellMap, s: MediaShape, p: string, prev: MediaNode?): MediaNode?
    requires Nodes(s) <= c.Keys
  {
    if s.Bare? || Less(p, c[s.node].path) then prev else Before(c, s.next, p, s.node)
  }

  /** The sibling it comes before, if any. */
  ghost function Behind(c: CellMap, s: MediaShape, p: string): MediaNode?
    requires Nodes(s) <= c.Keys
  {
    if s.Bare? || Less(p, c[s.node].path) then First(s) else Behind(c, s.next, p)
  }

  lemma {:induction false} BeforeInside(c: CellMap, s: MediaShape, p: string, prev: MediaNode?)
    requires Nodes(s) <= c.Keys && Distinct(s)
    ensures Before(c, s, p, prev) == prev || Before(c, s, p, prev) in Nodes(s)
    ensures Behind(c, s, p) == null || Behind(c, s, p) in Nodes(s)
    ensures prev !in Nodes(s) ==> (Before(c, s, p, prev) == prev <==> s.Bare? || Less(p, c[s.node].path))
  {
    if s.Link? { BeforeInside(c, s.next, p, s.node); }
  }

  /** The two neighbours of the place differ, and the first sibling has none before it. */
  lemma {:induction false} NotBothFrom(h: LinkMap, c: CellMap, s: MediaShape, parent: MediaNode?, prev: MediaNode?,
    p: string)
    requires Linked(h, s, parent, prev) && Distinct(s) && Nodes(s) <= c.Keys && prev !in Nodes(s)
    ensures var behind := Behind(c, s, p);
      behind != null ==> behind in h && behind != Before(c, s, p, prev) && h[behind].prev == Before(c, s, p, prev)
  {
    if s.Link? && !Less(p, c[s.node].path) { NotBothFrom(h, c, s.next, parent, s.node, p); }
  }

  lemma NotBoth(all: set<MediaNode>, c: CellMap, s: MediaShape, parent: MediaNode?, p: string)
    requires Linked(LinksOf(all), s, parent, null) && Distinct(s) && Nodes(s) <= c.Keys
    ensures var behind := Behind(c, s, p);
      behind != null ==> behind != Before(c, s, p, null) && behind.prev == Before(c, s, p, null)
  {
    NotBothFrom(LinksOf(all), c, s, parent, null, p);
  }

  /** What relinking around a new node does to the links. */
  ghost predicate Relinked(h: LinkMap, h': LinkMap, nodes: set<MediaNode>, x: MediaNode, before: MediaNode?,
    behind: MediaNode?) {
    nodes <= h.Keys && nodes <= h'.Keys
    && forall n :: n in nodes ==>
      h'[n] == h[n].(next := if n == before then x else h[n].next, prev := if n == behind then x else h[n].prev)
  }

  lemma {:induction false} FirstSpread(c: CellMap, s: MediaShape, x: MediaNode, p: string)
    requires Nodes(s) <= c.Keys && Distinct(s)
    ensures First(Spread(c, s, x, p)) == if Before(c, s, p, null) == null then x else First(s)
  {
    BeforeInside(c, s, p, null);
  }

  lemma {:induction false} SpreadLinked(
      h: LinkMap, h': LinkMap, c: CellMap, s: MediaShape, parent: MediaNode?, prev: MediaNode?, x: MediaNode, p: string)
    requires Linked(h, s, parent, prev) && Distinct(s) && Nodes(s) <= c.Keys && x !in Nodes(s) && prev !in Nodes(s)
    requires var before, behind := Before(c, s, p, prev), Behind(c, s, p);
      Relinked(h, h', Nodes(s), x, before, behind) && x in h' && h'[x] == Pointers(parent, null, behind, before)
    ensures Linked(h', Spread(c, s, x, p), parent, prev) && Distinct(Spread(c, s, x, p))
    ensures Nodes(Spread(c, s, x, p)) == Nodes(s) + {x}
  {
    BeforeInside(c, s, p, prev);
    if s.Link? {
      BeforeInside(c, s.next, p, s.node);
      if Less(p, c[s.node].path) {
        LinkedSame(h, h', s.kids, s.node, null);
        LinkedSame(h, h', s.next, parent, s.node);
      } else {
        LinkedSame(h, h', s.kids, s.node, null);
        SpreadLinked(h, h', c, s.next, parent, s.node, x, p);
        assert First(Spread(c, s.next, x, p)) == if Before(c, s, p, prev) == s.node then x else First(s.next);
      }
    }
  }

  lemma {:induction false} SpreadContents(c: CellMap, c': CellMap, s: MediaShape, x: MediaNode, p: string)
    requires Nodes(s) <= c.Keys && x !in Nodes(s) && x in c' && c'[x].path == p
    requires forall n :: n in Nodes(s) ==> n in c' && c'[n] == c[n]
    ensures Nodes(Spread(c, s, x, p)) == Nodes(s) + {x}
    ensures Contents(c', Spread(c, s, x, p)) == InsertSorted(Contents(c, s), p, c'[x].data)
  {
    if s.Link? {
      if Less(p, c[s.node].path) {
        ContentsSame(c, c', s);
      } else {
        ContentsSame(c, c', s.kids);
        SpreadContents(c, c', s.next, x, p);
      }
    }
  }

  // ----- replacing the list below a node -----

  ghost function Splice(s: MediaShape, x: MediaNode, k: MediaShape): MediaShape {
    match s
    case Bare => Bare
    case Link(n, kids, next) =>
      if n == x then Link(n, k, next)
      else if x in Nodes(kids) then Link(n, Splice(kids, x, k), next)
      else Link(n, kids, Splice(next, x, k))
  }

  lemma {:induction false} SpliceShape(s: MediaShape, x: MediaNode, k: MediaShape)
    requires Distinct(s) && x in Nodes(s)
    requires Distinct(k) && Nodes(k) !! Nodes(s) - Nodes(KidsOf(s, x))
    ensures Distinct(Splice(s, x, k)) && First(Splice(s, x, k)) == First(s)
    ensures Nodes(Splice(s, x, k)) == Nodes(s) - Nodes(KidsOf(s, x)) + Nodes(k)
  {
    BelowInside(s, x);
    if s.node != x {
      if x in Nodes(s.kids) {
        BelowInside(s.kids, x);
        SpliceShape(s.kids, x, k);
      } else {
        BelowInside(s.next, x);
        SpliceShape(s.next, x, k);
      }
    }
  }

  lemma {:induction false} SpliceLinked(
      h: LinkMap, h': LinkMap, s: MediaShape, parent: MediaNode?, prev: MediaNode?, x: MediaNode, k: MediaShape)
    requires Linked(h, s, parent, prev) && Distinct(s) && x in Nodes(s)
    requires Nodes(s) <= h.Keys && Nodes(s) <= h'.Keys
    requires Linked(h', k, x, null) && h'[x] == h[x].(kids := First(k))
    requires Distinct(k) && Nodes(k) !! Nodes(s) - Nodes(KidsOf(s, x))
    requires forall n :: n in Nodes(s) && n !in Nodes(KidsOf(s, x)) && n != x ==> h'[n] == h[n]
    ensures Linked(h', Splice(s, x, k), parent, prev)
  {
    BelowInside(s, x);
    SpliceShape(s, x, k);
    if s.node == x {
      LinkedSame(h, h', s.next, parent, s.node);
    } else if x in Nodes(s.kids) {
      BelowInside(s.kids, x);
      SpliceShape(s.kids, x, k);
      SpliceLinked(h, h', s.kids, s.node, null, x, k);
      LinkedSame(h, h', s.next, parent, s.node);
    } else {
      BelowInside(s.next, x);
      SpliceShape(s.next, x, k);
      SpliceLinked(h, h', s.next, parent, s.node, x, k);
      LinkedSame(h, h', s.kids, s.node, null);
    }
  }

  lemma {:induction false} BelowInside(s: MediaShape, x: MediaNode)
    requires Distinct(s) && x in Nodes(s)
    ensures Nodes(KidsOf(s, x)) <= Nodes(s) && x !in Nodes(KidsOf(s, x)) && Distinct(KidsOf(s, x))
  {
    if s.node != x {
      if x in Nodes(s.kids) { BelowInside(s.kids, x); } else { BelowInside(s.next, x); }
    }
  }

  /** Spreading the children of the node that the parent path finds is an insertion under that path. */
  lemma {:induction false} SpliceContents(c: CellMap, c': CellMap, s: MediaShape, path: string, x: MediaNode, p: string)
    requires Distinct(s) && Nodes(s) <= c.Keys && x !in Nodes(s) && x in c' && c'[x].path == p
    requires forall n :: n in Nodes(s) ==> n in c' && c'[n] == c[n]
    requires FindNode(c, s, path) != null
    ensures var at := FindNode(c, s, path);
      at in Nodes(s) && Nodes(KidsOf(s, at)) <= Nodes(s)
      && Nodes(Splice(s, at, Spread(c, KidsOf(s, at), x, p))) == Nodes(s) + {x}
      && Contents(c', Splice(s, at, Spread(c, KidsOf(s, at), x, p)))
        == InsertUnder(Contents(c, s), path, p, c'[x].data)
  {
    FindNodeMeaning(c, s.kids, path);
    FindNodeMeaning(c, s.next, path);
    var at := FindNode(c, s, path);
    if at == s.node {
      SpreadContents(c, c', s.kids, x, p);
      ContentsSame(c, c', s.next);
    } else if FindNode(c, s.kids, path) != null {
      SpliceContents(c, c', s.kids, path, x, p);
      ContentsSame(c, c', s.next);
    } else {
      SpliceContents(c, c', s.next, path, x, p);
      ContentsSame(c, c', s.kids);
    }
  }

  /** The list a node goes into: the roots, or the children of `at`. */
  ghost function ListAt(s: MediaShape, at: MediaNode?): MediaShape { if at == null then s else KidsOf(s, at) }

  lemma ListIn(h: LinkMap, c: CellMap, s: MediaShape, at: MediaNode?, atPath: string)
    requires Linked(h, s, null, null) && Distinct(s) && Nodes(s) <= c.Keys
    requires at != null ==> FindNode(c, s, atPath) == at
    ensures (at != null ==> at in Nodes(s)) && Nodes(ListAt(s, at)) <= Nodes(s)
    ensures Linked(h, ListAt(s, at), at, null) && Distinct(ListAt(s, at))
  {
    if at != null {
      FindNodeMeaning(c, s, atPath);
      KidsLinked(h, s, null, null, at);
    }
  }

  lemma FirstIs(all: set<MediaNode>, s: MediaShape, at: MediaNode?)
    requires Linked(LinksOf(all), s, null, null) && Distinct(s) && (at != null ==> at in Nodes(s))
    ensures First(ListAt(s, at)) == if at == null then First(s) else at.kids
  {
    if at != null { KidsLinked(LinksOf(all), s, null, null, at); }
  }

  ghost function WithLeaf(c: CellMap, s: MediaShape, at: MediaNode?, x: MediaNode, p: string): MediaShape
    requires Nodes(ListAt(s, at)) <= c.Keys
  {
    var list := Spread(c, ListAt(s, at), x, p);
    if at == null then list else Splice(s, at, list)
  }

  /** The links after a new leaf was put into its list. */
  ghost predicate LeafAttached(h: LinkMap, h': LinkMap, nodes: set<MediaNode>, at: MediaNode?, x: MediaNode,
    last: MediaNode?, behind: MediaNode?) {
    nodes <= h.Keys && nodes <= h'.Keys && x in h' && h'[x] == Pointers(at, null, behind, last)
    && forall n :: n in nodes ==>
      h'[n] == h[n].(kids := if n == at && last == null then x else h[n].kids,
                     next := if n == last then x else h[n].next,
                     prev := if n == behind then x else h[n].prev)
  }

  lemma LeafLinked(h: LinkMap, h': LinkMap, c: CellMap, s: MediaShape, at: MediaNode?, x: MediaNode, p: string)
    requires Linked(h, s, null, null) && Distinct(s) && Nodes(s) <= c.Keys && x !in Nodes(s)
    requires (at != null ==> at in Nodes(s)) && Nodes(ListAt(s, at)) <= Nodes(s)
    requires var list := ListAt(s, at);
      LeafAttached(h, h', Nodes(s), at, x, Before(c, list, p, null), Behind(c, list, p))
    ensures var s' := WithLeaf(c, s, at, x, p);
      Linked(h', s', null, null) && Distinct(s') && Nodes(s') == Nodes(s) + {x}
      && First(s') == if at == null && Before(c, ListAt(s, at), p, null) == null then x else First(s)
  {
    hide Linked, Distinct, Spread, Splice, Before, Behind, KidsOf;
    var list := ListAt(s, at);
    if at == null {
      BeforeInside(c, list, p, null);
      SpreadLinked(h, h', c, s, null, null, x, p);
      FirstSpread(c, s, x, p);
    } else {
      KidsLinked(h, s, null, null, at);
      BeforeInside(c, list, p, null);
      FirstSpread(c, list, x, p);
      SpreadLinked(h, h', c, list, at, null, x, p);
      var list' := Spread(c, list, x, p);
      SpliceLinked(h, h', s, null, null, at, list');
      SpliceShape(s, at, list');
    }
  }

  lemma LeafContents(c: CellMap, c': CellMap, s: MediaShape, at: MediaNode?, atPath: string, x: MediaNode, p: string)
    requires Distinct(s) && Nodes(s) <= c.Keys && x !in Nodes(s) && x in c' && c'[x].path == p
    requires forall n :: n in Nodes(s) ==> n in c' && c'[n] == c[n]
    requires at != null ==> FindNode(c, s, atPath) == at
    ensures Nodes(ListAt(s, at)) <= Nodes(s) && Nodes(WithLeaf(c, s, at, x, p)) == Nodes(s) + {x}
    ensures Contents(c', WithLeaf(c, s, at, x, p)) ==
      if at == null then InsertSorted(Contents(c, s), p, c'[x].data)
        else InsertUnder(Contents(c, s), atPath, p, c'[x].data)
  {
    if at == null {
      SpreadContents(c, c', s, x, p);
    } else {
      SpliceContents(c, c', s, atPath, x, p);
    }
  }

  // ----- taking a node out -----

  lemma {:induction false} CutShape(s: MediaShape, x: MediaNode)
    requires Distinct(s) && x in Nodes(s)
    ensures Distinct(Cut(s, x)) && Nodes(Cut(s, x)) == Nodes(s) - Nodes(KidsOf(s, x)) - {x}
  {
    BelowInside(s, x);
    if s.node != x {
      if x in Nodes(s.kids) {
        BelowInside(s.kids, x);
        CutShape(s.kids, x);
      } else {
        BelowInside(s.next, x);
        CutShape(s.next, x);
      }
    }
  }

  /** Every link to the node now skips it. */
  ghost predicate Skipped(h: LinkMap, h': LinkMap, nodes: set<MediaNode>, x: MediaNode) {
    x in h && nodes <= h.Keys && nodes <= h'.Keys
    && forall n :: n in nodes ==>
      h'[n] == Pointers(h[n].parent,
                        if h[n].kids == x then h[x].next else h[n].kids,
                        if h[n].next == x then h[x].next else h[n].next,
                        if h[n].prev == x then h[x].prev else h[n].prev)
  }

  lemma {:induction false} BesideSkipped(h: LinkMap, h': LinkMap, s: MediaShape, parent: MediaNode?, prev: MediaNode?,
    x: MediaNode)
    requires Linked(h, s, parent, prev) && Distinct(s) && x !in Nodes(s) && parent != x
    requires Skipped(h, h', Nodes(s), x)
    ensures Linked(h', s, parent, if prev == x then h[x].prev else prev)
  {
    if s.Link? {
      BesideSkipped(h, h', s.kids, s.node, null, x);
      BesideSkipped(h, h', s.next, parent, s.node, x);
    }
  }

  lemma {:induction false} CutLinked(h: LinkMap, h': LinkMap, s: MediaShape, parent: MediaNode?, prev: MediaNode?,
    x: MediaNode)
    requires Linked(h, s, parent, prev) && Distinct(s) && x in Nodes(s) && parent != x && prev != x
    requires Skipped(h, h', Nodes(s) - Nodes(KidsOf(s, x)) - {x}, x)
    ensures Linked(h', Cut(s, x), parent, prev)
    ensures First(Cut(s, x)) == if First(s) == x then h[x].next else First(s)
  {
    BelowInside(s, x);
    if s.node == x {
      BesideSkipped(h, h', s.next, parent, s.node, x);
    } else if x in Nodes(s.kids) {
      BelowInside(s.kids, x);
      CutLinked(h, h', s.kids, s.node, null, x);
      BesideSkipped(h, h', s.next, parent, s.node, x);
    } else {
      BelowInside(s.next, x);
      BesideSkipped(h, h', s.kids, s.node, null, x);
      CutLinked(h, h', s.next, parent, s.node, x);
    }
  }

  /** The links of a node lead outside its own subtree, and only its neighbours and its parent lead to it. */
  ghost predicate Neighbourly(h: LinkMap, s: MediaShape, parent: MediaNode?, prev: MediaNode?, x: MediaNode)
    requires x in h
  {
    var l, rest := h[x], Nodes(s) - Nodes(KidsOf(s, x)) - {x};
    (l.parent == parent || l.parent in rest)
    && (l.prev == null || l.prev == prev || l.prev in rest)
    && (prev != null ==> (l.prev == prev <==> x == First(s)))
    && (l.next == null || l.next in rest)
    && forall n :: n in rest && n in h ==>
      (h[n].next == x <==> n == l.prev) && (h[n].prev == x <==> n == l.next) && (h[n].kids == x ==> n == l.parent)
  }

  lemma {:induction false} NoneLeadsTo(h: LinkMap, s: MediaShape, parent: MediaNode?, prev: MediaNode?, x: MediaNode)
    requires Linked(h, s, parent, prev) && Distinct(s) && x !in Nodes(s) && prev != x
    ensures forall n :: n in Nodes(s) && n in h ==> h[n].next != x && h[n].prev != x && h[n].kids != x
  {
    if s.Link? {
      NoneLeadsTo(h, s.kids, s.node, null, x);
      NoneLeadsTo(h, s.next, parent, s.node, x);
    }
  }

  lemma {:induction false} NodesLinked(h: LinkMap, s: MediaShape, parent: MediaNode?, prev: MediaNode?, x: MediaNode)
    requires Linked(h, s, parent, prev) && Distinct(s) && x in Nodes(s)
    requires parent !in Nodes(s) && prev !in Nodes(s)
    ensures x in h && Neighbourly(h, s, parent, prev, x)
  {
    BelowInside(s, x);
    if s.node == x {
      if s.next.Link? {
        NoneLeadsTo(h, s.next.kids, s.next.node, null, x);
        NoneLeadsTo(h, s.next.next, parent, s.next.node, x);
      }
    } else if x in Nodes(s.kids) {
      BelowInside(s.kids, x);
      NodesLinked(h, s.kids, s.node, null, x);
      NoneLeadsTo(h, s.next, parent, s.node, x);
    } else {
      BelowInside(s.next, x);
      NodesLinked(h, s.next, parent, s.node, x);
      NoneLeadsTo(h, s.kids, s.node, null, x);
    }
  }

  lemma {:induction false} CutContents(c: CellMap, s: MediaShape, path: string)
    requires Distinct(s) && Nodes(s) <= c.Keys && FindNode(c, s, path) != null
    ensures var x := FindNode(c, s, path);
      x in Nodes(s) && Nodes(Cut(s, x)) <= c.Keys && Contents(c, Cut(s, x)) == Remove(Contents(c, s), path)
  {
    FindNodeMeaning(c, s.kids, path);
    FindNodeMeaning(c, s.next, path);
    var x := FindNode(c, s, path);
    if x != s.node {
      if FindNode(c, s.kids, path) != null { CutContents(c, s.kids, path); } else { CutContents(c, s.next, path); }
    }
  }

  // ----- unlinking one node -----

  /** The snapshot tells the truth about these nodes. */
  ghost predicate Traces(h: LinkMap, nodes: set<MediaNode>)
    reads nodes`parent, nodes`kids, nodes`next, nodes`prev
  {
    nodes <= h.Keys && forall n :: n in nodes ==> h[n] == Pointers(n.parent, n.kids, n.next, n.prev)
  }

  ghost predicate Describes(c: CellMap, nodes: set<MediaNode>)
    reads nodes`path, nodes`kind, nodes`subtype, nodes`state, nodes`fstype, nodes`volume, nodes`mnt, nodes`opts
    reads nodes`sysfs, nodes`counter
  {
    nodes <= c.Keys && forall n :: n in nodes ==> c[n] == Cell(n.path, n.Data())
  }

  /** A whole list of siblings below a node, with its data. */
  ghost predicate List(s: MediaShape, parent: MediaNode?, c: CellMap)
    reads Nodes(s)
  {
    Distinct(s) && parent !in Nodes(s) && Linked(LinksOf(Nodes(s)), s, parent, null) && Describes(c, Nodes(s))
  }

  /** What is written when a node is taken out: at most one field of its parent and of each neighbour. */
  ghost predicate Unlinked(h: LinkMap, h': LinkMap, nodes: set<MediaNode>, x: MediaNode) {
    x in h && nodes <= h.Keys && nodes <= h'.Keys
    && forall n :: n in nodes ==>
      h'[n] == Pointers(h[n].parent,
                        if n == h[x].parent && h[n].kids == x then h[x].next else h[n].kids,
                        if n == h[x].prev then h[x].next else h[n].next,
                        if n == h[x].next then h[x].prev else h[n].prev)
  }

  /** Those few writes are enough for every link to skip the node. */
  lemma UnlinkedSkips(h: LinkMap, h': LinkMap, s: MediaShape, parent: MediaNode?, prev: MediaNode?, x: MediaNode)
    requires Linked(h, s, parent, prev) && Distinct(s) && x in Nodes(s)
    requires parent !in Nodes(s) && prev !in Nodes(s)
    requires Unlinked(h, h', Nodes(s) - Nodes(KidsOf(s, x)) - {x}, x)
    ensures Skipped(h, h', Nodes(s) - Nodes(KidsOf(s, x)) - {x}, x)
  {
    hide Linked, Distinct, Nodes, KidsOf;
    NodesLinked(h, s, parent, prev, x);
  }

  /** A list of siblings without its first node. */
  lemma RestLinked(h: LinkMap, h': LinkMap, s: MediaShape, parent: MediaNode?)
    requires s.Link? && Linked(h, s, parent, null) && Distinct(s) && parent !in Nodes(s)
    requires Unlinked(h, h', Nodes(s.next), s.node)
    ensures Linked(h', s.next, parent, null)
  {
    assert Nodes(s) - Nodes(KidsOf(s, s.node)) - {s.node} == Nodes(s.next);
    UnlinkedSkips(h, h', s, parent, null, s.node);
    BesideSkipped(h, h', s.next, parent, s.node, s.node);
  }

  /** What a list says about its first node. */
  lemma HeadLinks(s: MediaShape, parent: MediaNode?)
    requires s.Link? && Linked(LinksOf(Nodes(s)), s, parent, null) && Distinct(s) && parent !in Nodes(s)
    ensures var x := s.node;
      x.parent == parent && x.prev == null && x.next == First(s.next) && x.kids == First(s.kids)
      && Linked(LinksOf(Nodes(s.kids)), s.kids, x, null) && Distinct(s.kids) && Distinct(s.next)
      && x !in Nodes(s.kids) && x !in Nodes(s.next) && Nodes(s.kids) !! Nodes(s.next)
      && Nodes(s) == {x} + Nodes(s.kids) + Nodes(s.next) && (x.next != null ==> x.next in Nodes(s.next))
      && Size(s) == 1 + Size(s.kids) + Size(s.next) && Traces(LinksOf(Nodes(s)), Nodes(s.next) + {x})
  {
    LinkedSame(LinksOf(Nodes(s)), LinksOf(Nodes(s.kids)), s.kids, s.node, null);
  }

  lemma SnapshotKeys(nodes: set<MediaNode>)
    ensures CellsOf(nodes).Keys == nodes && LinksOf(nodes).Keys == nodes
  {}

  lemma TracesAll(all: set<MediaNode>, some: set<MediaNode>)
    requires some <= all
    ensures Traces(LinksOf(all), some) && Describes(CellsOf(all), some)
  {}

  lemma ContentsNow(c: CellMap, s: MediaShape)
    requires Describes(c, Nodes(s))
    ensures Contents(CellsOf(Nodes(s)), s) == Contents(c, s)
  {
    ContentsSame(c, CellsOf(Nodes(s)), s);
  }

  /** What is known about a node that is about to be taken out, with the nodes it leaves behind. */
  lemma NodeReady(s: MediaShape, x: MediaNode, path: string)
    requires Linked(LinksOf(Nodes(s)), s, null, null) && Distinct(s) && FindNode(CellsOf(Nodes(s)), s, path) == x
    ensures var k, outside, c := KidsOf(s, x), Nodes(s) - Nodes(KidsOf(s, x)) - {x}, CellsOf(Nodes(s));
      x in Nodes(s) && x !in Nodes(k) && Nodes(k) <= Nodes(s)
      && x.kids == First(k) && List(k, x, c) && Describes(c, {x}) && Describes(c, outside)
      && Traces(LinksOf(Nodes(s)), outside + {x}) && x in LinksOf(Nodes(s)) && LinksOf(Nodes(s))[x].next == x.next
      && (x.parent != null ==> x.parent in outside) && (x.prev != null ==> x.prev in outside)
      && (x.next != null ==> x.next in outside) && Nodes(s) - outside == Nodes(k) + {x} && outside !! Nodes(k) + {x}
  {
    hide Linked, Distinct, Nodes, KidsOf, FindNode, Contents;
    var k := KidsOf(s, x);
    FindNodeMeaning(CellsOf(Nodes(s)), s, path);
    KidsLinked(LinksOf(Nodes(s)), s, null, null, x);
    NodesLinked(LinksOf(Nodes(s)), s, null, null, x);
    LinkedSame(LinksOf(Nodes(s)), LinksOf(Nodes(k)), k, x, null);
  }

  lemma NodeContents(c: CellMap, s: MediaShape, path: string)
    requires Distinct(s) && Nodes(s) <= c.Keys && FindNode(c, s, path) != null
    ensures var x := FindNode(c, s, path);
      x in Nodes(s) && Nodes(Cut(s, x)) <= Nodes(s) && Nodes(KidsOf(s, x)) <= Nodes(s)
      && Contents(c, Cut(s, x)) == Remove(Contents(c, s), path)
      && Node(c[x].path, c[x].data, Contents(c, KidsOf(s, x)), Nil) == Subtree(Contents(c, s), path)
  {
    hide Contents, Cut, KidsOf, FindNode, Nodes, Distinct;
    FindNodeMeaning(c, s, path);
    CutContents(c, s, path);
    CutShape(s, FindNode(c, s, path));
  }

  lemma NodeCut(h: LinkMap, h': LinkMap, s: MediaShape, x: MediaNode)
    requires Linked(h, s, null, null) && Distinct(s) && x in Nodes(s)
    requires Unlinked(h, h', Nodes(s) - Nodes(KidsOf(s, x)) - {x}, x)
    ensures var s' := Cut(s, x);
      Linked(h', s', null, null) && Distinct(s') && Nodes(s') == Nodes(s) - Nodes(KidsOf(s, x)) - {x}
      && First(s') == if First(s) == x then h[x].next else First(s)
  {
    UnlinkedSkips(h, h', s, null, null, x);
    CutLinked(h, h', s, null, null, x);
    CutShape(s, x);
  }

  /** Children before parents: the order in which a subtree is freed. */
  ghost function Postorder(s: MediaShape): seq<MediaNode> {
    match s
    case Bare => []
    case Link(n, kids, next) => Postorder(kids) + [n] + Postorder(next)
  }

  lemma SplitPostorder(s: MediaShape)
    requires s.Link?
    ensures Postorder(s) == Postorder(s.kids) + [s.node] + Postorder(s.next)
  {}

  lemma DisjointParts(n: MediaNode, a: set<MediaNode>, b: set<MediaNode>)
    requires n !in a && n !in b && a !! b
    ensures multiset({n} + a + b) == multiset(a) + multiset{n} + multiset(b)
  {}

  /** All the nodes of a shape, each exactly once. */
  lemma {:induction false} PostorderOnce(s: MediaShape)
    requires Distinct(s)
    ensures multiset(Postorder(s)) == multiset(Nodes(s))
  {
    if s.Link? {
      PostorderOnce(s.kids);
      PostorderOnce(s.next);
      DisjointParts(s.node, Nodes(s.kids), Nodes(s.next));
    }
  }
}
