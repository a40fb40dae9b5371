/** The daemon's device list on the heap, refining the operations on forests. */
module DeviceTree {
  import opened Basics
  import opened Forests
  import opened Media
  import opened Shapes
  import opened Links
  import Daemon
  import Labels

  /** What a list says about its first node, and what searching it comes to. */
  lemma FindParts(s: MediaShape, parent: MediaNode?, prev: MediaNode?, all: set<MediaNode>, path: string)
    requires Nodes(s) <= all && Linked(LinksOf(all), s, parent, prev)
    ensures s.Bare? ==> FindNode(CellsOf(all), s, path) == null
    ensures s.Link? ==>
      s.node.kids == First(s.kids) && s.node.next == First(s.next)
      && Nodes(s.kids) <= all && Nodes(s.next) <= all && Size(s) == 1 + Size(s.kids) + Size(s.next)
      && Linked(LinksOf(all), s.kids, s.node, null) && Linked(LinksOf(all), s.next, parent, s.node)
      && var below := FindNode(CellsOf(all), s.kids, path);
         FindNode(CellsOf(all), s, path) ==
           if s.node.path == path then s.node else if below != null then below else FindNode(CellsOf(all), s.next, path)
  {}

  /** dtmd_find_media: a list of siblings and everything below it, in preorder. */
  method FindMedia(path: string, first: MediaNode?, ghost s: MediaShape, ghost parent: MediaNode?,
    ghost prev: MediaNode?,
                   ghost all: set<MediaNode>)
    returns (r: MediaNode?)
    requires first == First(s) && Nodes(s) <= all && Linked(LinksOf(all), s, parent, prev)
    ensures r == FindNode(CellsOf(all), s, path)
    decreases Size(s)
  {
    hide Nodes, Linked, FindNode, Size, LinksOf, CellsOf;
    SnapshotKeys(all);
    var iter, rest, before := first, s, prev;
    while iter != null
      invariant iter == First(rest) && Nodes(rest) <= all && Linked(LinksOf(all), rest, parent, before)
      invariant FindNode(CellsOf(all), s, path) == FindNode(CellsOf(all), rest, path) && Size(rest) <= Size(s)
      decreases Size(rest)
    {
      FindParts(rest, parent, before, all, path);
      if iter.path == path { return iter; }
      r := FindMedia(path, iter.kids, rest.kids, iter, null, all);
      if r != null { return r; }
      iter, rest, before := iter.next, rest.next, iter;
    }
    FindParts(rest, parent, before, all, path);
    r := null;
  }

  /** The announcements about a removed list: those about its first node's children, about itself, and the rest. */
  lemma FarewellWires(f: Forest<Media>)
    requires f.Node?
    ensures Wires(Daemon.Farewell(f)) ==
      Wires(Daemon.Farewell(f.kids)) + (if f.data.mnt.Some? then Wire(Unmounted(f.path, f.data.mnt.value)) else [])
      + Wire(Removed(f.path)) + Wires(Daemon.Farewell(f.next))
  {
    var unmount, bye := Daemon.UnmountNotes(f.path, f.data), Removed(f.path);
    WiresAppend(Daemon.Farewell(f.kids) + unmount + [bye], Daemon.Farewell(f.next));
    WiresAppend(Daemon.Farewell(f.kids) + unmount, [bye]);
    WiresAppend(Daemon.Farewell(f.kids), unmount);
    WiresOne(bye);
    if f.data.mnt.Some? { WiresOne(unmount[0]); }
  }

  lemma WiresOne(n: Note)
    ensures Wires([n]) == Wire(n)
  {
    assert [n][1..] == [];
  }

  lemma FarewellSplit(f: Forest<Media>)
    requires f.Node?
    ensures Wires(Daemon.Farewell(f)) ==
      Wires(Daemon.Farewell(Node(f.path, f.data, f.kids, Nil))) + Wires(Daemon.Farewell(f.next))
  {
    hide Daemon.Farewell, Wires, Wire;
    FarewellWires(f);
    FarewellWires(Node(f.path, f.data, f.kids, Nil));
    NoFarewell();
  }

  lemma NoFarewell()
    ensures Wires(Daemon.Farewell(Nil)) == []
  {}

  lemma ChangeMissing(f: Forest<Media>, parent: string, path: string, r: Daemon.Report)
    requires path !in Paths(f)
    ensures Daemon.ChangeMedia(f, parent, path, r) == Daemon.Effect(f, [], Daemon.Fail)
  {
    FindIffIn(f, path);
  }

  /** The specification of a change, for a device that is there. */
  lemma ChangeCases(f: Forest<Media>, parent: string, path: string, r: Daemon.Report)
    requires path in Paths(f)
    ensures var m, e := Get(f, path), Daemon.ChangeMedia(f, parent, path, r);
      var volume := if Daemon.SameVolume(m.volume, r.volume) then Some(m.volume) else Daemon.DecodedVolume(r);
      if parent != ParentOf(f, path, ROOT_PATH) || r.sysfs != m.sysfs then e == Daemon.Effect(f, [], Daemon.Bug)
      else if Daemon.Unchanged(m, r) then e == Daemon.Effect(f, [], Daemon.Fail)
      else if volume.None? then
        e == Daemon.Effect(Update(f, path, m.(state := r.state, fstype := r.fstype, volume := None)), [], Daemon.Fatal)
      else
        var m' := Daemon.ChangedMedia(m, r, volume.value);
        e.forest == Update(f, path, m') && e.outcome == Daemon.Success
        && Wires(e.notes) ==
          Wires(Daemon.MountNotes(path, m, r)) + Wire(Changed(parent, path, m'.(kind := r.kind, subtype := r.subtype)))
  {
    hide Wire, ParentOf, Update, Daemon.Unchanged, Daemon.ChangedMedia, Daemon.DecodedVolume, Daemon.SameVolume;
    hide Daemon.MountNotes;
    var m, e := Get(f, path), Daemon.ChangeMedia(f, parent, path, r);
    if e.outcome.Success? {
      WiresAppend(Daemon.MountNotes(path, m, r), e.notes[|e.notes| - 1..]);
      WiresOne(e.notes[|e.notes| - 1]);
      assert e.notes[|e.notes| - 1..] == [e.notes[|e.notes| - 1]];
    }
  }

  /** Which mounts a change announces depends on the mount point alone. */
  lemma SameMount(path: string, m: Media, n: Media, r: Daemon.Report)
    requires m.mnt == n.mnt
    ensures Daemon.MountNotes(path, m, r) == Daemon.MountNotes(path, n, r)
  {}

  /** Every node ever made is either still in use or was freed exactly once. */
  ghost predicate Accounted(made: set<MediaNode>, live: set<MediaNode>, freed: seq<MediaNode>) {
    live <= made && multiset(freed) == multiset(made - live)
  }

  lemma MadeNode(made: set<MediaNode>, live: set<MediaNode>, freed: seq<MediaNode>, x: MediaNode)
    requires Accounted(made, live, freed) && x !in made
    ensures Accounted(made + {x}, live + {x}, freed)
  {
    assert made + {x} - (live + {x}) == made - live;
  }

  lemma FreedList(made: set<MediaNode>, s: MediaShape, freed: seq<MediaNode>)
    requires Distinct(s) && Accounted(made, Nodes(s), freed)
    ensures Accounted(made, {}, freed + Postorder(s))
  {
    PostorderOnce(s);
  }

  lemma FreedNode(made: set<MediaNode>, s: MediaShape, freed: seq<MediaNode>, x: MediaNode)
    requires Distinct(s) && x in Nodes(s) && Accounted(made, Nodes(s), freed)
    ensures var below := KidsOf(s, x); Accounted(made, Nodes(s) - Nodes(below) - {x}, freed + Postorder(below) + [x])
  {
    hide Distinct, Nodes, KidsOf, Postorder;
    BelowInside(s, x);
    PostorderOnce(KidsOf(s, x));
    var live, below := Nodes(s), Nodes(KidsOf(s, x));
    assert made - (live - below - {x}) == (made - live) + below + {x};
    DisjointUnion(made - live, below, x);
  }

  lemma DisjointUnion(a: set<MediaNode>, b: set<MediaNode>, x: MediaNode)
    requires a !! b && x !in a && x !in b
    ensures multiset(a + b + {x}) == multiset(a) + multiset(b) + multiset{x}
  {}

  ghost function Only(n: MediaNode?): set<MediaNode> { if n == null then {} else {n} }

  class DeviceTree {
    var root: MediaNode?
    ghost var shape: MediaShape
    /** What was sent to every client, and what was freed. */
    var log: seq<Message>
    ghost var freed: seq<MediaNode>
    ghost var made: set<MediaNode>

    ghost predicate Valid()
      reads this`root, this`shape, Nodes(shape)`parent, Nodes(shape)`kids, Nodes(shape)`next, Nodes(shape)`prev
    {
      root == First(shape) && Distinct(shape) && Linked(LinksOf(Nodes(shape)), shape, null, null)
    }

    ghost predicate Clean()
      reads this`made, this`shape, this`freed
    {
      Accounted(made, Nodes(shape), freed)
    }

    ghost function Devices(): Forest<Media>
      reads this`shape, Nodes(shape)
    {
      Contents(CellsOf(Nodes(shape)), shape)
    }

    constructor ()
      ensures Valid() && Clean() && Devices() == Nil && log == [] && Nodes(shape) == {}
    {
      root, shape, log, freed, made := null, Bare, [], [], {};
    }

    // ----- insertion -----

    /** The last sibling that is not greater than the path. */
    method FindPlace(path: string, first: MediaNode?, ghost list: MediaShape, ghost at: MediaNode?,
      ghost all: set<MediaNode>)
      returns (last: MediaNode?)
      requires first == First(list) && Nodes(list) <= all && Linked(LinksOf(all), list, at, null) && Distinct(list)
      ensures last == Before(CellsOf(all), list, path, null)
      ensures last == null ==> Behind(CellsOf(all), list, path) == first
      ensures last != null ==> last in Nodes(list) && Behind(CellsOf(all), list, path) == last.next
    {
      ghost var c := CellsOf(all);
      var media := first;
      last := null;
      ghost var rest := list;
      while media != null
        invariant media == First(rest) && Nodes(rest) <= Nodes(list) && Linked(LinksOf(all), rest, at, last)
        invariant last != null ==> last in Nodes(list) && last.next == media
        invariant last == null ==> rest == list
        invariant Before(c, list, path, null) == Before(c, rest, path, last)
        invariant Behind(c, list, path) == Behind(c, rest, path)
        decreases Size(rest)
      {
        if Less(path, media.path) { break; }
        last, media, rest := media, media.next, rest.next;
      }
    }

    /** The pointer surgery: after `last`, or first if there is none. */
    method Attach(x: MediaNode, at: MediaNode?, last: MediaNode?, ghost behind: MediaNode?, ghost nodes: set<MediaNode>)
      requires behind == if last != null then last.next else if at == null then root else at.kids
      requires behind != null ==> behind != last && behind.prev == last
      requires x !in nodes && Only(at) + Only(last) + Only(behind) <= nodes
      requires x.parent == at && x.kids == null
      modifies this`root, x`next, x`prev, Only(last)`next, Only(behind)`prev, Only(at)`kids
      ensures LeafAttached(old(LinksOf(nodes)), LinksOf(nodes + {x}), nodes, at, x, last, behind)
      ensures root == if at == null && last == null then x else old(root)
    {
      if last != null {
        x.prev := last;
        x.next := last.next;
        last.next := x;
        if x.next != null { x.next.prev := x; }
      } else {
        x.next := if at == null then root else at.kids;
        if x.next != null {
          x.prev := x.next.prev;
          x.next.prev := x;
        } else {
          x.prev := null;
        }
        if at == null { root := x; } else { at.kids := x; }
      }
    }

    /** The same, as seen by the data of the nodes. */
    method AttachKeepingData(x: MediaNode, at: MediaNode?, last: MediaNode?, ghost behind: MediaNode?,
      ghost nodes: set<MediaNode>)
      requires behind == if last != null then last.next else if at == null then root else at.kids
      requires behind != null ==> behind != last && behind.prev == last
      requires x !in nodes && Only(at) + Only(last) + Only(behind) <= nodes
      requires x.parent == at && x.kids == null
      modifies this`root, x`next, x`prev, Only(last)`next, Only(behind)`prev, Only(at)`kids
      ensures LeafAttached(old(LinksOf(nodes)), LinksOf(nodes + {x}), nodes, at, x, last, behind)
      ensures CellsOf(nodes + {x}) == old(CellsOf(nodes + {x}))
      ensures root == if at == null && last == null then x else old(root)
    {
      hide LeafAttached, LinksOf;
      Attach(x, at, last, behind, nodes);
    }

    /** The neighbours a new leaf gets. */
    method Locate(path: string, at: MediaNode?, ghost atPath: string, ghost all: set<MediaNode>)
      returns (last: MediaNode?, ghost behind: MediaNode?)
      requires Valid() && all == Nodes(shape)
      requires at != null ==> FindNode(CellsOf(all), shape, atPath) == at
      ensures (at != null ==> at in all) && Nodes(ListAt(shape, at)) <= all
      ensures last == Before(CellsOf(all), ListAt(shape, at), path, null)
      ensures behind == Behind(CellsOf(all), ListAt(shape, at), path)
      ensures behind == if last != null then last.next else if at == null then root else at.kids
      ensures behind != null ==> behind != last && behind.prev == last
      ensures Only(at) + Only(last) + Only(behind) <= all
    {
      hide Nodes, Linked, Distinct, Contents, FindNode, KidsOf, Before, Behind, LinksOf;
      ghost var h, c := LinksOf(all), CellsOf(all);
      ListIn(h, c, shape, at, atPath);
      ghost var list := ListAt(shape, at);
      FirstIs(all, shape, at);
      last := FindPlace(path, if at == null then root else at.kids, list, at, all);
      behind := Behind(c, list, path);
      BeforeInside(c, list, path, null);
      NotBoth(all, c, list, at, path);
    }

    /** Links a new leaf among the children of `at`, or among the roots, before the first greater path. */
    method LinkLeaf(x: MediaNode, at: MediaNode?, ghost atPath: string)
      requires Valid() && x !in Nodes(shape)
      requires x.parent == at && x.kids == null && x.next == null && x.prev == null
      requires at != null ==> FindNode(CellsOf(Nodes(shape)), shape, atPath) == at
      modifies this`root, this`shape, x`next, x`prev, Nodes(shape)`next, Nodes(shape)`prev, Nodes(shape)`kids
      ensures Valid() && Nodes(shape) == old(Nodes(shape)) + {x}
      ensures Devices() ==
        if at == null then InsertSorted(old(Devices()), x.path, x.Data())
          else InsertUnder(old(Devices()), atPath, x.path, x.Data())
    {
      hide Nodes, Linked, Distinct, Contents, FindNode, KidsOf, Before, Behind, WithLeaf, InsertSorted, InsertUnder;
      hide LinksOf, LeafAttached, ListAt;
      ghost var all, s := Nodes(shape), shape;
      ghost var h, c := LinksOf(all), CellsOf(all);
      ghost var behind;
      var last;
      last, behind := Locate(x.path, at, atPath, all);
      shape := WithLeaf(c, s, at, x, x.path);
      AttachKeepingData(x, at, last, behind, all);
      LeafLinked(h, LinksOf(all + {x}), c, s, at, x, x.path);
      LeafContents(c, CellsOf(all + {x}), s, at, atPath, x, x.path);
    }

    /** A new node below the one that the parent path found, or at the top. */
    method AddUnder(at: MediaNode?, parentPath: string, path: string, m: Media) returns (x: MediaNode)
      requires Valid() && Clean()
      requires if parentPath == ROOT_PATH then at == null
        else at != null && FindNode(CellsOf(Nodes(shape)), shape, parentPath) == at
      modifies this`root, this`shape, this`log, this`made, Nodes(shape)`next, Nodes(shape)`prev, Nodes(shape)`kids
      ensures Valid() && Clean() && fresh(x) && Nodes(shape) == old(Nodes(shape)) + {x}
      ensures Devices() == Insert(old(Devices()), parentPath, path, m)
        && log == old(log) + Wire(Added(parentPath, path, m))
    {
      hide Nodes, Linked, Distinct, Contents, FindNode, LinksOf, CellsOf, InsertSorted, InsertUnder, Wire, Accounted;
      assert allocated(Nodes(shape));
      x := new MediaNode(path, m, at);
      MadeNode(made, Nodes(shape), freed, x);
      made := made + {x};
      log := log + Wire(Added(parentPath, path, m));
      LinkLeaf(x, at, parentPath);
    }

    method AddMedia(parentPath: string, path: string, r: Daemon.Report) returns (outcome: Daemon.Outcome)
      requires Valid() && Clean()
      modifies this`root, this`shape, this`log, this`made, Nodes(shape)`next, Nodes(shape)`prev, Nodes(shape)`kids
      ensures Valid() && Clean() && fresh(Nodes(shape) - old(Nodes(shape)))
      ensures var e := Daemon.AddMedia(old(Devices()), parentPath, path, r);
        Devices() == e.forest && log == old(log) + Wires(e.notes) && outcome == e.outcome
    {
      hide Nodes, Linked, Distinct, Contents, FindNode, LinksOf, Insert, Wire, Accounted, Daemon.DecodedVolume,
        Daemon.NewMedia;
      var at: MediaNode? := null;
      FindNodeMeaning(CellsOf(Nodes(shape)), shape, parentPath);
      if parentPath != ROOT_PATH {
        at := FindMedia(parentPath, root, shape, null, null, Nodes(shape));
        if at == null { return Daemon.Fail; }
      }
      var volume := Daemon.DecodedVolume(r);
      if volume.None? { return Daemon.Fatal; }
      var m := Daemon.NewMedia(r, volume.value);
      WiresOne(Added(parentPath, path, m));
      assert allocated(Nodes(shape));
      ghost var x := AddUnder(at, parentPath, path, m);
      return Daemon.Success;
    }

    // ----- removal -----

    method Unlink(x: MediaNode, ghost h: LinkMap, ghost outside: set<MediaNode>)
      requires Traces(h, outside + {x}) && x !in outside
      requires x.parent != x && x.prev != x && x.next != x
      modifies Only(x.parent)`kids, Only(x.prev)`next, Only(x.next)`prev
      ensures Unlinked(h, LinksOf(outside), outside, x)
    {
      if x.parent != null {
        if x.parent.kids == x { x.parent.kids := x.next; }
      }
      if x.prev != null { x.prev.next := x.next; }
      if x.next != null { x.next.prev := x.prev; }
    }

    /** Takes a node out, then frees it with its descendants. */
    method RemoveHelper(x: MediaNode, ghost k: MediaShape, ghost c: CellMap, ghost h: LinkMap,
      ghost outside: set<MediaNode>)
      requires x.kids == First(k) && List(k, x, c) && Describes(c, {x})
      requires Traces(h, outside + {x}) && outside !! Nodes(k) + {x}
      requires Only(x.parent) + Only(x.prev) + Only(x.next) !! Nodes(k)
        && x !in Only(x.parent) + Only(x.prev) + Only(x.next)
      requires Nodes(k) <= c.Keys && x !in Nodes(k)
      modifies Only(x.parent)`kids, Only(x.prev)`next, Only(x.next)`prev
      modifies x`kids, Nodes(k)`kids, Nodes(k)`next, Nodes(k)`prev, this`log, this`freed
      ensures Unlinked(h, LinksOf(outside), outside, x)
      ensures log == old(log) + Wires(Daemon.Farewell(Node(c[x].path, c[x].data, Contents(c, k), Nil)))
      ensures freed == old(freed) + Postorder(k) + [x]
      decreases Size(k), 2
    {
      hide Nodes, List, Contents, LinksOf, Unlinked, Daemon.Farewell, Wires, Wire;
      Unlink(x, h, outside);
      FreeNode(x, k, c);
    }

    /** Children are announced before their parent, and an unmount before the removal. */
    method FreeNode(x: MediaNode, ghost k: MediaShape, ghost c: CellMap)
      requires x.kids == First(k) && List(k, x, c) && Describes(c, {x}) && Nodes(k) <= c.Keys
      modifies x`kids, Nodes(k)`kids, Nodes(k)`next, Nodes(k)`prev, this`log, this`freed
      ensures log == old(log) + Wires(Daemon.Farewell(Node(c[x].path, c[x].data, Contents(c, k), Nil)))
      ensures freed == old(freed) + Postorder(k) + [x]
      decreases Size(k), 1
    {
      hide Nodes, List, Contents, LinksOf, Daemon.Farewell, Wires, Wire;
      RemoveSiblings(x.kids, k, c, x);
      FarewellWires(Node(c[x].path, c[x].data, Contents(c, k), Nil));
      NoFarewell();
      if x.mnt.Some? { log := log + Wire(Unmounted(x.path, x.mnt.value)); }
      log := log + Wire(Removed(x.path));
      freed := freed + [x];
    }

    /** Each node in turn; the one after it is remembered before it is freed. */
    method RemoveSiblings(first: MediaNode?, ghost k: MediaShape, ghost c: CellMap, ghost parent: MediaNode?)
      requires first == First(k) && List(k, parent, c) && Nodes(k) <= c.Keys
      modifies Only(parent)`kids, Nodes(k)`kids, Nodes(k)`next, Nodes(k)`prev, this`log, this`freed
      ensures log == old(log) + Wires(Daemon.Farewell(Contents(c, k)))
      ensures freed == old(freed) + Postorder(k)
      decreases Size(k), 0
    {
      hide Contents, Daemon.Farewell, Wires, Wire, List;
      var next, rest := first, k;
      while next != null
        invariant next == First(rest) && Nodes(rest) <= Nodes(k) <= c.Keys && Size(rest) <= Size(k)
          && List(rest, parent, c)
        invariant log + Wires(Daemon.Farewell(Contents(c, rest))) == old(log) + Wires(Daemon.Farewell(Contents(c, k)))
        invariant freed + Postorder(rest) == old(freed) + Postorder(k)
        decreases Size(rest)
      {
        var cur := next;
        next := NextOf(cur, rest, parent, c);
        RemoveFirst(cur, rest, c, parent);
        rest := rest.next;
      }
      NoFarewell();
      EmptyContents(c);
    }

    method NextOf(cur: MediaNode, ghost k: MediaShape, ghost parent: MediaNode?, ghost c: CellMap)
      returns (next: MediaNode?)
      requires k.Link? && k.node == cur && List(k, parent, c)
      ensures next == First(k.next)
    {
      next := cur.next;
    }

    method RemoveFirst(cur: MediaNode, ghost k: MediaShape, ghost c: CellMap, ghost parent: MediaNode?)
      requires k.Link? && k.node == cur && List(k, parent, c) && Nodes(k) <= c.Keys
      modifies Only(parent)`kids, Nodes(k)`kids, Nodes(k)`next, Nodes(k)`prev, this`log, this`freed
      ensures List(k.next, parent, c) && Nodes(k.next) <= c.Keys
      ensures log + Wires(Daemon.Farewell(Contents(c, k.next))) == old(log) + Wires(Daemon.Farewell(Contents(c, k)))
      ensures freed + Postorder(k.next) == old(freed) + Postorder(k)
      decreases Size(k.kids), 3
    {
      hide Nodes, Linked, Distinct, Contents, LinksOf, Unlinked, Postorder, Daemon.Farewell, Wires, Wire, Size, Traces;
      ghost var h := LinksOf(Nodes(k));
      HeadLinks(k, parent);
      SplitContents(c, k);
      FarewellSplit(Contents(c, k));
      SplitPostorder(k);
      RemoveHelper(cur, k.kids, c, h, Nodes(k.next));
      RestLinked(h, LinksOf(Nodes(k.next)), k, parent);
    }

    method TakeOut(x: MediaNode, ghost path: string)
      requires Valid() && FindNode(CellsOf(Nodes(shape)), shape, path) == x
      modifies this`root, this`shape, this`log, this`freed, Nodes(shape)`kids, Nodes(shape)`next, Nodes(shape)`prev
      ensures Valid() && shape == Cut(old(shape), x) && Describes(old(CellsOf(Nodes(shape))), Nodes(shape))
      ensures var k, c := KidsOf(old(shape), x), old(CellsOf(Nodes(shape)));
        x in c && Nodes(k) <= c.Keys && Nodes(shape) == old(Nodes(shape)) - Nodes(k) - {x}
        && log == old(log) + Wires(Daemon.Farewell(Node(c[x].path, c[x].data, Contents(c, k), Nil)))
        && freed == old(freed) + Postorder(k) + [x]
    {
      hide Nodes, Linked, Distinct, Contents, FindNode, KidsOf, LinksOf, Unlinked, List, Cut, Postorder;
      hide Daemon.Farewell, Wires, Describes, Traces, CellsOf, First;
      ghost var s, all := shape, Nodes(shape);
      ghost var h, c, k := LinksOf(all), CellsOf(all), KidsOf(s, x);
      ghost var outside := all - Nodes(k) - {x};
      SnapshotKeys(all);
      NodeReady(s, x, path);
      if x == root { root := x.next; }
      shape := Cut(s, x);
      RemoveHelper(x, k, c, h, outside);
      NodeCut(h, LinksOf(outside), s, x);
    }

    method RemoveNode(x: MediaNode, ghost path: string)
      requires Valid() && FindNode(CellsOf(Nodes(shape)), shape, path) == x
      modifies this`root, this`shape, this`log, this`freed, Nodes(shape)`kids, Nodes(shape)`next, Nodes(shape)`prev
      ensures Valid() && Nodes(shape) <= old(Nodes(shape))
      ensures freed == old(freed) + Postorder(KidsOf(old(shape), x)) + [x]
      ensures Nodes(shape) == old(Nodes(shape)) - Nodes(KidsOf(old(shape), x)) - {x}
      ensures Devices() == Remove(old(Devices()), path)
      ensures log == old(log) + Wires(Daemon.Farewell(Subtree(old(Devices()), path)))
    {
      hide Nodes, Linked, Distinct, Contents, FindNode, KidsOf, LinksOf, Cut, Postorder, Daemon.Farewell, Wires,
        Describes;
      ghost var c := CellsOf(Nodes(shape));
      NodeContents(c, shape, path);
      TakeOut(x, path);
      ContentsNow(c, shape);
    }

    method RemoveMedia(path: string) returns (outcome: Daemon.Outcome)
      requires Valid() && Clean()
      modifies this`root, this`shape, this`log, this`freed, Nodes(shape)`kids, Nodes(shape)`next, Nodes(shape)`prev
      ensures Valid() && Clean() && Nodes(shape) <= old(Nodes(shape))
      ensures var e := Daemon.RemoveMedia(old(Devices()), path);
        Devices() == e.forest && log == old(log) + Wires(e.notes) && outcome == e.outcome
    {
      hide Nodes, Linked, Distinct, Contents, FindNode, LinksOf, KidsOf, Postorder, Accounted, Daemon.Farewell, Wire;
      ghost var s := shape;
      FindNodeMeaning(CellsOf(Nodes(s)), s, path);
      var x := FindMedia(path, root, s, null, null, Nodes(s));
      if x == null { return Daemon.Fail; }
      FreedNode(made, s, freed, x);
      RemoveNode(x, path);
      return Daemon.Success;
    }

    /** Every root in turn; the list is only reset at the end. */
    method RemoveAllMedia()
      requires Valid() && Clean()
      modifies this`root, this`shape, this`log, this`freed, Nodes(shape)`kids, Nodes(shape)`next, Nodes(shape)`prev
      ensures Valid() && Clean() && Devices() == Nil
      ensures log == old(log) + Wires(Daemon.Farewell(old(Devices())))
    {
      hide Nodes, Linked, Distinct, Contents, LinksOf, Postorder, Accounted, Daemon.Farewell, Wires, Wire;
      ghost var s := shape;
      FreedList(made, s, freed);
      NothingListed();
      shape := Bare;
      RemoveSiblings(root, s, CellsOf(Nodes(s)), null);
      root := null;
    }

    // ----- change -----

    method StoreStateAndFs(x: MediaNode, r: Daemon.Report)
      modifies x`state, x`fstype
      ensures x.Data() == old(x.Data()).(state := r.state, fstype := r.fstype)
    {
      x.state := r.state;
      if x.fstype.Some? && x.fstype != r.fstype { x.fstype := None; }
      if x.fstype.None? && r.fstype.Some? { x.fstype := r.fstype; }
    }

    /** A label that means the same is kept as it is; one that cannot be decoded leaves none. */
    method StoreVolume(x: MediaNode, r: Daemon.Report) returns (ok: bool)
      modifies x`volume
      ensures var kept := Daemon.SameVolume(old(x.volume), r.volume);
        ok == (kept || Daemon.DecodedVolume(r).Some?)
        && x.Data() == old(x.Data()).(volume := if kept then old(x.volume) else if ok
          then Daemon.DecodedVolume(r).value else None)
    {
      if x.volume.Some? && (r.volume.None? || !Labels.Matches(x.volume.value, r.volume.value)) { x.volume := None; }
      if x.volume.None? && r.volume.Some? {
        x.volume := Labels.Decoded(r.volume.value);
        if x.volume.None? { return false; }
      }
      ok := true;
    }

    method StoreMount(x: MediaNode, r: Daemon.Report)
      modifies x`mnt, x`counter, this`log
      ensures x.Data() == old(x.Data()).(mnt := r.mnt,
                counter := if old(x.mnt) == r.mnt then old(x.counter) else if r.mnt.Some? then 1 else 0)
      ensures log == old(log) + Wires(Daemon.MountNotes(x.path, old(x.Data()), r))
    {
      WiresOne(Unmounted(x.path, Text(x.mnt)));
      WiresOne(Mounted(x.path, Text(r.mnt), Text(r.opts)));
      WiresAppend(Daemon.UnmountNotes(x.path, x.Data()), [Mounted(x.path, Text(r.mnt), Text(r.opts))]);
      if x.mnt.Some? && x.mnt != r.mnt {
        log := log + Wire(Unmounted(x.path, x.mnt.value));
        x.mnt, x.counter := None, 0;
      }
      if x.mnt.None? && r.mnt.Some? {
        x.mnt, x.counter := r.mnt, 1;
        if r.opts.Some? { log := log + Wire(Mounted(x.path, x.mnt.value, r.opts.value)); }
      }
    }

    method StoreOpts(x: MediaNode, r: Daemon.Report)
      modifies x`opts
      ensures x.Data() == old(x.Data()).(opts := r.opts)
    {
      if x.opts.Some? && x.opts != r.opts { x.opts := None; }
      if x.opts.None? && r.opts.Some? { x.opts := r.opts; }
    }

    /** The fields of a device that changed, one by one. */
    method Store(x: MediaNode, parentPath: string, r: Daemon.Report) returns (ok: bool)
      modifies x`state, x`fstype, x`volume, x`mnt, x`counter, x`opts, this`log
      ensures var m := old(x.Data());
        var volume := if Daemon.SameVolume(m.volume, r.volume) then Some(m.volume) else Daemon.DecodedVolume(r);
        ok == volume.Some?
        && (ok ==> x.Data() == Daemon.ChangedMedia(m, r, volume.value)
                   && log == old(log) + Wires(Daemon.MountNotes(x.path, m, r))
                                      + Wire(Changed(parentPath, x.path,
                                        x.Data().(kind := r.kind, subtype := r.subtype))))
        && (!ok ==> x.Data() == m.(state := r.state, fstype := r.fstype, volume := None) && log == old(log))
    {
      hide Wire, Wires, Daemon.MountNotes, Daemon.SameVolume, Daemon.DecodedVolume;
      ghost var m := x.Data();
      StoreStateAndFs(x, r);
      ok := StoreVolume(x, r);
      if !ok { return; }
      SameMount(x.path, m, x.Data(), r);
      StoreMount(x, r);
      StoreOpts(x, r);
      log := log + Wire(Changed(parentPath, x.path,
        Media(r.kind, r.subtype, r.state, r.fstype, x.volume, r.mnt, r.opts, x.sysfs, x.counter)));
    }

    /** Looks for a reason to leave the device as it is. */
    method Examine(parentPath: string, path: string, r: Daemon.Report)
      returns (x: MediaNode?, refusal: Option<Daemon.Outcome>)
      requires Valid()
      ensures refusal.Some? ==>
        Daemon.ChangeMedia(Devices(), parentPath, path, r) == Daemon.Effect(Devices(), [], refusal.value)
      ensures refusal.None? ==>
        x != null && x in Nodes(shape) && x.path == path && FindNode(CellsOf(Nodes(shape)), shape, path) == x
        && path in Paths(Devices()) && Get(Devices(), path) == x.Data() && !Daemon.Unchanged(x.Data(), r)
        && parentPath == ParentOf(Devices(), path, ROOT_PATH) && r.sysfs == x.sysfs
    {
      hide Nodes, Linked, Distinct, Contents, FindNode, LinksOf, Wire, Wires, Update, ParentOf, Find, Get, Paths;
      hide Daemon.ChangeMedia, Daemon.MountNotes, Daemon.SameVolume, Daemon.DecodedVolume, Daemon.ChangedMedia,
        Daemon.Unchanged;
      FindNodeMeaning(CellsOf(Nodes(shape)), shape, path);
      x := FindMedia(path, root, shape, null, null, Nodes(shape));
      if x == null {
        ChangeMissing(Devices(), parentPath, path, r);
        return x, Some(Daemon.Fail);
      }
      ChangeCases(Devices(), parentPath, path, r);
      ParentNow(shape, path);
      if parentPath != (if x.parent == null then ROOT_PATH else x.parent.path) || r.sysfs != x.sysfs {
        return x, Some(Daemon.Bug);
      }
      if Daemon.Unchanged(x.Data(), r) { return x, Some(Daemon.Fail); }
      refusal := None;
    }

    method StoreFound(x: MediaNode, parentPath: string, ghost path: string, r: Daemon.Report) returns (ok: bool)
      requires Valid() && FindNode(CellsOf(Nodes(shape)), shape, path) == x && x in Nodes(shape) && x.path == path
      modifies this`log, x`state, x`fstype, x`volume, x`mnt, x`counter, x`opts
      ensures Valid() && Devices() == Update(old(Devices()), path, x.Data())
      ensures var m := old(x.Data());
        var volume := if Daemon.SameVolume(m.volume, r.volume) then Some(m.volume) else Daemon.DecodedVolume(r);
        ok == volume.Some?
        && (ok ==> x.Data() == Daemon.ChangedMedia(m, r, volume.value)
                   && log == old(log) + Wires(Daemon.MountNotes(path, m, r))
                                      + Wire(Changed(parentPath, path,
                                        x.Data().(kind := r.kind, subtype := r.subtype))))
        && (!ok ==> x.Data() == m.(state := r.state, fstype := r.fstype, volume := None) && log == old(log))
    {
      hide Nodes, Linked, Distinct, Contents, FindNode, LinksOf, Wire, Wires, Update;
      hide Daemon.MountNotes, Daemon.SameVolume, Daemon.DecodedVolume, Daemon.ChangedMedia;
      ghost var c := CellsOf(Nodes(shape));
      ok := Store(x, parentPath, r);
      UpdateContents(c, CellsOf(Nodes(shape)), shape, path);
    }

    method ChangeMedia(parentPath: string, path: string, r: Daemon.Report) returns (outcome: Daemon.Outcome)
      requires Valid()
      modifies this`log, Nodes(shape)`state, Nodes(shape)`fstype, Nodes(shape)`volume, Nodes(shape)`mnt
      modifies Nodes(shape)`counter, Nodes(shape)`opts
      ensures Valid()
      ensures var e := Daemon.ChangeMedia(old(Devices()), parentPath, path, r);
        Devices() == e.forest && log == old(log) + Wires(e.notes) && outcome == e.outcome
    {
      hide Nodes, Linked, Distinct, Contents, FindNode, LinksOf, Wire, Update, ParentOf, Find, Get, Paths;
      hide Daemon.ChangeMedia, Daemon.MountNotes, Daemon.SameVolume, Daemon.DecodedVolume, Daemon.ChangedMedia,
        Daemon.Unchanged;
      assert allocated(Nodes(shape));
      var x, refusal := Examine(parentPath, path, r);
      if refusal.Some? { return refusal.value; }
      ChangeCases(Devices(), parentPath, path, r);
      var ok := StoreFound(x, parentPath, path, r);
      return if ok then Daemon.Success else Daemon.Fatal;
    }
  }
}
