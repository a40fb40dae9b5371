/** The graphical client: its devices are sets of nodes on the heap, changed in place by every command, and commands
    saved before the first listing are replayed over that listing. */
module Control {
  import opened Basics
  import opened Forests
  import opened Media
  import opened Shapes
  import opened Replica
  import opened MediaSets

  /** The only pointers that an insertion below a node writes. */
  method SetChildren(at: RemovableMedia, x: RemovableMedia, children: seq<RemovableMedia>,
    ghost nodes: set<RemovableMedia>)
    requires at in nodes && x !in nodes && x.parent == at && x.children == []
    modifies at`children
    ensures Joined(old(LinksOf(nodes)), LinksOf(nodes + {x}), nodes, at, x, children)
    ensures CellsOf(nodes) == old(CellsOf(nodes)) && CellsOf(nodes + {x}) == old(CellsOf(nodes + {x}))
  {
    at.children := children;
  }

  lemma Alone(x: RemovableMedia, nodes: set<RemovableMedia>)
    requires x !in nodes && x.parent == null && x.children == []
    ensures Joined(LinksOf(nodes), LinksOf(nodes + {x}), nodes, null, x, [])
  {}

  /** The only pointers that an erasure below a node writes. */
  method DropChild(x: RemovableMedia, children: seq<RemovableMedia>, ghost nodes: set<RemovableMedia>)
    requires x in nodes && x.parent != null && children == Drop(x.parent.children, x)
    modifies x.parent`children
    ensures Erased(old(LinksOf(nodes)), LinksOf(nodes), nodes, x) && CellsOf(nodes) == old(CellsOf(nodes))
  {
    hide Drop;
    x.parent.children := children;
  }

  /** The data that copying writes. */
  method CopyInto(x: RemovableMedia, other: RemovableMedia, ghost nodes: set<RemovableMedia>)
    requires x in nodes && other !in nodes
    modifies x`path, x`kind, x`subtype, x`state, x`fstype, x`volume, x`mnt, x`opts
    ensures Keeps(old(CellsOf(nodes)), CellsOf(nodes), nodes - {x}) && LinksOf(nodes) == old(LinksOf(nodes))
    ensures x.path == old(other.path) && x.Data() == old(other.Data())
  {
    x.CopyFrom(other);
  }

  lemma NoParent(x: RemovableMedia, nodes: set<RemovableMedia>)
    requires x in nodes && x.parent == null
    ensures Erased(LinksOf(nodes), LinksOf(nodes), nodes, x)
  {}

  lemma Same(x: RemovableMedia, nodes: set<RemovableMedia>)
    ensures Keeps(CellsOf(nodes), CellsOf(nodes + {x}), nodes)
    ensures x in CellsOf(nodes + {x}) && CellsOf(nodes + {x})[x] == Cell(x.path, x.Data())
    ensures forall n :: n in nodes ==> n in CellsOf(nodes) && CellsOf(nodes)[n] == Cell(n.path, n.Data())
    ensures forall n :: n in nodes ==> n in LinksOf(nodes) && LinksOf(nodes)[n] == Pointers(n.parent, n.children)
  {}

  /** createFromRemovableMedia for a list of siblings: nodes with their children, inserted one by one into a set. */
  method Create(list: Forest<Device>, parent: RemovableMedia?)
    returns (container: seq<RemovableMedia>, ghost s: SetShape)
    ensures container == Roots(s) && fresh(Nodes(s)) && Tree(LinksOf(Nodes(s)), CellsOf(Nodes(s)), s, parent)
    ensures Contents(CellsOf(Nodes(s)), s) == Collected(list, Nil)
    decreases list
  {
    hide Nodes, Roots, Linked, Distinct, Contents, Ascending, Spread, RootPaths, Placed, Collected, LinksOf, CellsOf,
      Tree;
    container, s := [], Bare;
    NoTree(parent);
    var iter := list;
    while iter.Node?
      invariant container == Roots(s) && fresh(Nodes(s)) && Tree(LinksOf(Nodes(s)), CellsOf(Nodes(s)), s, parent)
      invariant Nodes(s) <= CellsOf(Nodes(s)).Keys
      invariant Collected(iter, Contents(CellsOf(Nodes(s)), s)) == Collected(list, Nil)
      decreases iter
    {
      ghost var was, c := s, CellsOf(Nodes(s));
      var child := new RemovableMedia(iter.path, iter.data);
      child.parent := parent;
      ghost var k;
      var children, inserted;
      assert allocated(Nodes(was));
      children, k := Create(iter.kids, child);
      assert child !in Nodes(k) && child !in Nodes(was) && Nodes(k) !! Nodes(was);
      child.children := children;
      assert Tree(LinksOf(Nodes(k)), CellsOf(Nodes(k)), k, child);
      CollectedStep(iter, Contents(c, was));
      SetReady(was, parent);
      container, inserted := SetInsert(container, child, c, was, k);
      if inserted {
        SubtreeJoins(was, parent, child, k);
        s := Spread(c, was, child, k, child.path);
      }
      CellKeys(Nodes(s));
      iter := iter.next;
    }
    NothingCollected(Contents(CellsOf(Nodes(s)), s));
  }

  lemma CellKeys(nodes: set<RemovableMedia>)
    ensures CellsOf(nodes).Keys == nodes
  {}

  lemma CollectedStep<T>(list: Forest<T>, acc: Forest<T>)
    requires list.Node?
    ensures Collected(list, acc) ==
      Collected(list.next, if list.path in RootPaths(acc) then acc
        else Placed(acc, list.path, list.data, Collected(list.kids, Nil)))
  {}

  lemma NothingCollected<T>(acc: Forest<T>)
    ensures Collected(Nil, acc) == acc
  {}

  /** What inserting into a set has to know. */
  lemma SetReady(s: SetShape, parent: RemovableMedia?)
    requires Tree(LinksOf(Nodes(s)), CellsOf(Nodes(s)), s, parent)
    ensures Ascending(Contents(CellsOf(Nodes(s)), s))
    ensures var r, c := Roots(s), CellsOf(Nodes(s)); forall j :: 0 <= j < |r| ==> r[j] in c && r[j].path == c[r[j]].path
  {
    hide Ascending, Contents, Linked, Distinct, Nodes, Roots;
    RootsInside(s);
  }

  lemma NoTree(parent: RemovableMedia?)
    ensures Roots(Bare) == [] && Nodes<RemovableMedia>(Bare) == {} && Tree(LinksOf({}), CellsOf({}), Bare, parent)
    ensures Contents(CellsOf({}), Bare) == Nil
  {}

  class Control {
    var devices: seq<RemovableMedia>
    ghost var shape: SetShape
    var saved: seq<Command>
    var initialized: bool

    ghost predicate Valid()
      reads this`devices, this`shape, Nodes(shape)
    {
      devices == Roots(shape) && Tree(LinksOf(Nodes(shape)), CellsOf(Nodes(shape)), shape, null)
    }

    ghost function Devices(): Forest<Device>
      reads this`shape, Nodes(shape)
    {
      Contents(CellsOf(Nodes(shape)), shape)
    }

    constructor ()
      ensures Valid() && Devices() == Nil && saved == [] && !initialized && Nodes(shape) == {}
    {
      devices, shape, saved, initialized := [], Bare, [], false;
    }

    // ----- the sets -----

    /** m_devices.insert */
    method InsertRoot(x: RemovableMedia)
      requires Valid() && x !in Nodes(shape) && x.parent == null && x.children == [] && x.path !in Paths(Devices())
      modifies this`devices, this`shape
      ensures Valid() && Nodes(shape) == old(Nodes(shape)) + {x}
      ensures Devices() == InsertSorted(old(Devices()), x.path, x.Data())
    {
      hide Nodes, Roots, Contents, Spread, Paths, RootPaths, InsertSorted, LinksOf, CellsOf, Joined, Keeps, Tree,
        Ascending;
      ghost var s, all := shape, Nodes(shape);
      ghost var c := CellsOf(all);
      Alone(x, all);
      Same(x, all);
      assert Nodes(s) <= c.Keys;
      RootJoins(LinksOf(all), LinksOf(all + {x}), c, CellsOf(all + {x}), s, x, x.path, x.Data());
      RootsInside(s);
      var inserted;
      devices, inserted := SetInsert(devices, x, c, s, Bare);
      shape := Spread(c, s, x, Bare, x.path);
    }

    /** children.insert of the node that a path found */
    method InsertBelow(at: RemovableMedia, ghost path: string, x: RemovableMedia)
      requires Valid() && x !in Nodes(shape) && x.parent == at && x.children == [] && x.path !in Paths(Devices())
      requires FindNode(CellsOf(Nodes(shape)), shape, path) == at
      modifies this`shape, at`children
      ensures Valid() && Nodes(shape) == old(Nodes(shape)) + {x}
      ensures Devices() == InsertUnder(old(Devices()), path, x.path, x.Data())
    {
      hide Nodes, Roots, Contents, Spread, Paths, RootPaths, InsertUnder, LinksOf, Joined, Keeps, Tree, FindNode,
        KidsOf, Under, CellsOf, Ascending;
      ghost var s, all := shape, Nodes(shape);
      ghost var h, c := LinksOf(all), CellsOf(all);
      assert Nodes(s) <= c.Keys by { Same(x, all); }
      KidsReady(h, c, s, path, x.path);
      Same(x, all);
      var children, inserted := SetInsert(at.children, x, c, KidsOf(s, at), Bare);
      SetChildren(at, x, children, all);
      Same(x, all);
      LeafJoins(h, LinksOf(all + {x}), c, CellsOf(all + {x}), s, at, path, x, x.path, x.Data());
      shape := Under(c, s, at, x, x.path);
    }

    /** erase, in the set of the parent if it has one and in m_devices otherwise */
    method Erase(x: RemovableMedia, ghost path: string) returns (modified: bool)
      requires Valid() && FindNode(CellsOf(Nodes(shape)), shape, path) == x
      modifies this`devices, this`shape, Nodes(shape)`children
      ensures Valid() && Nodes(shape) <= old(Nodes(shape)) && modified && Devices() == Remove(old(Devices()), path)
    {
      hide Nodes, Roots, Contents, Paths, FindNode, Cut, Remove, Drop, Tree, Erased, LinksOf, CellsOf;
      ghost var s, all := shape, Nodes(shape);
      ghost var h, c := LinksOf(all), CellsOf(all);
      Same(x, all);
      HolderReady(h, c, s, path);
      var count;
      if x.parent != null {
        var children;
        children, count := SetErase(x.parent.children, x);
        DropChild(x, children, all);
      } else {
        NoParent(x, all);
        devices, count := SetErase(devices, x);
      }
      NodeErased(h, LinksOf(all), c, s, x, path);
      shape := Cut(s, x);
      TreeNow(all, shape);
      modified := count > 0;
    }

    /** The data of the node that a path found has changed. */
    lemma Refreshed(x: RemovableMedia, path: string, h: LinkMap, c: CellMap)
      requires h == LinksOf(Nodes(shape)) && Tree(h, c, shape, null) && FindNode(c, shape, path) == x && x.path == path
      requires Keeps(c, CellsOf(Nodes(shape)), Nodes(shape) - {x}) && x in Nodes(shape) && devices == Roots(shape)
      ensures Valid() && Devices() == Update(Contents(c, shape), path, x.Data())
    {
      hide Nodes, Tree, Contents, FindNode, Update, LinksOf;
      NodeUpdated(h, c, CellsOf(Nodes(shape)), shape, path, x, x.Data());
    }

    // ----- commands -----

    method DeviceAdded(c: Command) returns (modified: bool, ghost more: set<RemovableMedia>)
      requires Valid() && c.cmd == ADDED && ValidNotification(c)
      modifies this`devices, this`shape, Nodes(shape)`children
      ensures Valid() && fresh(more) && Nodes(shape) <= old(Nodes(shape)) + more
      ensures (Devices(), modified) == Process(old(Devices()), c)
    {
      hide Nodes, Roots, Contents, FindNode, Tree, LinksOf, CellsOf, Linked, Paths, InsertSorted, InsertUnder;
      CellKeys(Nodes(shape));
      FindNodeMeaning(CellsOf(Nodes(shape)), shape, c.args[0]);
      FindNodeMeaning(CellsOf(Nodes(shape)), shape, c.args[1]);
      TreeMeans(LinksOf(Nodes(shape)), CellsOf(Nodes(shape)), shape, null);
      var device := FindRemovableMedia(c.args[1], devices, shape, null, Nodes(shape));
      if device != null { return false, {}; }
      assert allocated(Nodes(shape));
      var obtained := new RemovableMedia(c.args[1], DescribedDevice(c));
      more := {obtained};
      if c.args[0] == ROOT_PATH {
        InsertRoot(obtained);
        modified := true;
      } else {
        device := FindRemovableMedia(c.args[0], devices, shape, null, Nodes(shape));
        modified := device != null;
        if modified {
          obtained.parent := device;
          InsertBelow(device, c.args[0], obtained);
        }
      }
    }

    method DeviceRemoved(c: Command) returns (modified: bool)
      requires Valid() && c.cmd == REMOVED && |c.args| == 1 && c.args[0] != ""
      modifies this`devices, this`shape, Nodes(shape)`children
      ensures Valid() && Nodes(shape) <= old(Nodes(shape)) && (Devices(), modified) == Process(old(Devices()), c)
    {
      hide Nodes, Roots, Contents, FindNode, Tree, LinksOf, CellsOf, Linked, Paths, Remove;
      NotificationNamesDiffer();
      CellKeys(Nodes(shape));
      FindNodeMeaning(CellsOf(Nodes(shape)), shape, c.args[0]);
      TreeMeans(LinksOf(Nodes(shape)), CellsOf(Nodes(shape)), shape, null);
      var device := FindRemovableMedia(c.args[0], devices, shape, null, Nodes(shape));
      modified := false;
      if device != null { modified := Erase(device, c.args[0]); }
    }

    method DeviceChanged(c: Command) returns (modified: bool)
      requires Valid() && c.cmd == CHANGED && ValidNotification(c)
      modifies Nodes(shape)
      ensures Valid() && (Devices(), modified) == Process(old(Devices()), c)
    {
      hide Nodes, Roots, Contents, FindNode, Tree, LinksOf, Linked, Distinct, Ascending, Paths, Update,
        DescribedDevice, CellsOf;
      CellKeys(Nodes(shape));
      NotificationNamesDiffer();
      ghost var h, cells := LinksOf(Nodes(shape)), CellsOf(Nodes(shape));
      FindNodeMeaning(cells, shape, c.args[1]);
      TreeMeans(h, cells, shape, null);
      var device := FindRemovableMedia(c.args[1], devices, shape, null, Nodes(shape));
      modified := device != null;
      if modified {
        assert allocated(Nodes(shape));
        var obtained := new RemovableMedia(c.args[1], DescribedDevice(c));
        CopyInto(device, obtained, Nodes(shape));
        Refreshed(device, c.args[1], h, cells);
      }
    }

    /** The two mount fields of the device that a path finds. */
    method SetMount(path: string, mnt: string, opts: string) returns (modified: bool)
      requires Valid()
      modifies Nodes(shape)`mnt, Nodes(shape)`opts
      ensures Valid() && modified == (path in Paths(old(Devices())))
      ensures modified ==>
        Devices() == Update(old(Devices()), path, Get(old(Devices()), path).(mnt := mnt, opts := opts))
      ensures !modified ==> Devices() == old(Devices())
    {
      hide Nodes, Roots, Contents, FindNode, Tree, LinksOf, Linked, Paths, Update;
      ghost var h, cells := LinksOf(Nodes(shape)), CellsOf(Nodes(shape));
      FindNodeMeaning(cells, shape, path);
      TreeMeans(h, cells, shape, null);
      var device := FindRemovableMedia(path, devices, shape, null, Nodes(shape));
      modified := device != null;
      if modified {
        device.mnt := mnt;
        device.opts := opts;
        Refreshed(device, path, h, cells);
      }
    }

    /** Every command has on the tree of nodes the effect that it has on the forest they spell. */
    method ProcessCommand(c: Command) returns (modified: bool, ghost more: set<RemovableMedia>)
      requires Valid()
      modifies this`devices, this`shape, Nodes(shape)
      ensures Valid() && fresh(more) && Nodes(shape) <= old(Nodes(shape)) + more
      ensures (Devices(), modified) == Process(old(Devices()), c)
    {
      hide Nodes, Contents, Update, Paths, ValidNotification, DescribedDevice;
      NotificationNamesDiffer();
      modified, more := false, {};
      if c.cmd == ADDED && ValidNotification(c) {
        modified, more := DeviceAdded(c);
      } else if c.cmd == REMOVED && |c.args| == 1 && c.args[0] != "" {
        modified := DeviceRemoved(c);
      } else if c.cmd == CHANGED && ValidNotification(c) {
        modified := DeviceChanged(c);
      } else if c.cmd == MOUNTED && |c.args| == 3 && c.args[0] != "" && c.args[1] != "" && c.args[2] != "" {
        modified := SetMount(c.args[0], c.args[1], c.args[2]);
      } else if c.cmd == UNMOUNTED && |c.args| == 2 && c.args[0] != "" && c.args[1] != "" {
        modified := SetMount(c.args[0], "", "");
      }
    }

    /** Commands that arrive before the first listing are kept for later. */
    method Callback(c: Command) returns (ghost more: set<RemovableMedia>)
      requires Valid()
      modifies this, Nodes(shape)
      ensures Valid() && fresh(more) && Nodes(shape) <= old(Nodes(shape)) + more && initialized == old(initialized)
      ensures old(initialized) ==> Devices() == Process(old(Devices()), c).0 && saved == old(saved)
      ensures !old(initialized) ==> Devices() == old(Devices()) && saved == old(saved) + [c]
    {
      hide Nodes, Contents, Process, Tree;
      more := {};
      if initialized {
        var _, added := ProcessCommand(c);
        more := added;
      } else {
        saved := saved + [c];
      }
    }

    /** The saved commands, in order. */
    method Replay() returns (ghost more: set<RemovableMedia>)
      requires Valid()
      modifies this`devices, this`shape, Nodes(shape)
      ensures Valid() && fresh(more) && Nodes(shape) <= old(Nodes(shape)) + more
      ensures Devices() == ProcessAll(old(Devices()), saved)
    {
      hide Nodes, Contents, Process, Tree, Roots;
      ghost var start, before := Devices(), Nodes(shape);
      more := {};
      for i := 0 to |saved|
        invariant Valid() && fresh(more) && Nodes(shape) <= before + more
        invariant ProcessAll(start, saved) == ProcessAll(Devices(), saved[i..])
      {
        assert saved[i..][1..] == saved[i + 1..];
        var _, added := ProcessCommand(saved[i]);
        more := more + added;
      }
    }

    method Adopt(listing: Forest<Device>)
      modifies this`devices, this`shape, this`initialized
      ensures Valid() && fresh(Nodes(shape)) && Devices() == Collected(listing, Nil) && initialized
    {
      hide Nodes, Contents, Tree, Collected, Roots, LinksOf, CellsOf;
      devices, shape := Create(listing, null);
      initialized := true;
    }

    /** A listing replaces the devices and the saved commands are replayed over it; a failed one does nothing. */
    method PopulateDevices(listing: Option<Forest<Device>>)
      requires Valid()
      modifies this
      ensures Valid()
      ensures listing.None? ==>
        shape == old(shape) && Devices() == old(Devices()) && saved == old(saved) && initialized == old(initialized)
      ensures listing.Some? ==>
        fresh(Nodes(shape)) && Devices() == ProcessAll(Collected(listing.value, Nil), old(saved)) && saved == []
          && initialized
    {
      hide Nodes, Contents, ProcessAll, Tree, Collected, Roots;
      if listing.Some? {
        Adopt(listing.value);
        ghost var more := Replay();
        saved := [];
      }
    }
  }
}
