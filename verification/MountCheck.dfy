/** check_mount_changes on the linked list: marking, reading the table, announcing who is gone. */
module MountCheck {
  import opened Basics
  import opened Forests
  import opened Media
  import opened Shapes
  import opened Mounts
  import opened Links
  import opened DeviceTree
  import Daemon

  /** A list whose links are those of a snapshot. */
  ghost predicate Scope(h: LinkMap, s: MediaShape, parent: MediaNode?, prev: MediaNode?)
    reads Nodes(s)`parent, Nodes(s)`kids, Nodes(s)`next, Nodes(s)`prev
  {
    Traces(h, Nodes(s)) && Linked(h, s, parent, prev) && Distinct(s)
  }

  lemma ScopeParts(h: LinkMap, s: MediaShape, parent: MediaNode?, prev: MediaNode?)
    requires s.Link? && Scope(h, s, parent, prev)
    ensures Scope(h, s.kids, s.node, null) && s.node.kids == First(s.kids)
    ensures Scope(h, s.next, parent, s.node) && s.node.next == First(s.next)
    ensures Nodes(s) == {s.node} + Nodes(s.kids) + Nodes(s.next) && Size(s) == 1 + Size(s.kids) + Size(s.next)
    ensures s.node !in Nodes(s.kids) && s.node !in Nodes(s.next) && Nodes(s.kids) !! Nodes(s.next)
  {}

  // ----- first pass -----

  /** These nodes hold what the snapshot held, after the first pass. */
  ghost predicate Shifted(c: CellMap, nodes: set<MediaNode>)
    reads nodes
  {
    nodes <= c.Keys && forall n :: n in nodes ==> n.path == c[n].path && n.Data() == Marked(c[n].data)
  }

  method MarkEach(x: MediaNode, ghost k: MediaShape, ghost h: LinkMap, ghost c: CellMap)
    requires x.kids == First(k) && Scope(h, k, x, null) && x !in Nodes(k) && Describes(c, Nodes(k)) && Describes(c, {x})
    modifies x`counter, Nodes(k)`counter
    ensures Shifted(c, Nodes(k)) && Shifted(c, {x})
    decreases Size(k), 1
  {
    hide Scope, Nodes;
    MarkSiblings(x.kids, k, h, c, x, null);
    x.counter := x.counter << 1;
  }

  method MarkSiblings(first: MediaNode?, ghost s: MediaShape, ghost h: LinkMap, ghost c: CellMap,
                      ghost parent: MediaNode?, ghost prev: MediaNode?)
    requires first == First(s) && Scope(h, s, parent, prev) && Describes(c, Nodes(s))
    modifies Nodes(s)`counter
    ensures Shifted(c, Nodes(s))
    decreases Size(s), 0
  {
    hide Scope, Nodes, Size, Shifted, Describes;
    ShiftedNothing(c);
    var iter := first;
    ghost var rest, before := s, prev;
    ghost var done: set<MediaNode> := {};
    while iter != null
      invariant iter == First(rest) && Size(rest) <= Size(s) && Scope(h, rest, parent, before)
      invariant done + Nodes(rest) == Nodes(s) && done !! Nodes(rest) && Shifted(c, done) && Describes(c, Nodes(rest))
      decreases Size(rest)
    {
      ScopeParts(h, rest, parent, before);
      DescribesParts(c, rest);
      MarkEach(iter, rest.kids, h, c);
      ShiftedUnion(c, done, {iter}, Nodes(rest.kids));
      done := done + {iter} + Nodes(rest.kids);
      iter, rest, before := iter.next, rest.next, iter;
    }
    EmptyNodes();
  }

  lemma ShiftedNothing(c: CellMap)
    ensures Shifted(c, {})
  {}

  lemma ShiftedUnion(c: CellMap, a: set<MediaNode>, b: set<MediaNode>, d: set<MediaNode>)
    requires Shifted(c, a) && Shifted(c, b) && Shifted(c, d)
    ensures Shifted(c, a + b + d)
  {}

  lemma DescribesParts(c: CellMap, s: MediaShape)
    requires s.Link? && Describes(c, Nodes(s))
    ensures Describes(c, {s.node}) && Describes(c, Nodes(s.kids)) && Describes(c, Nodes(s.next))
  {}

  lemma EmptyNodes()
    ensures Nodes<MediaNode>(Bare) == {}
  {}

  lemma {:induction false} MarkedContents(c: CellMap, c': CellMap, s: MediaShape)
    requires Nodes(s) <= c.Keys && Nodes(s) <= c'.Keys
    requires forall n :: n in Nodes(s) ==> c'[n] == Cell(c[n].path, Marked(c[n].data))
    ensures Contents(c', s) == MarkAll(Contents(c, s))
  {
    if s.Link? {
      MarkedContents(c, c', s.kids);
      MarkedContents(c, c', s.next);
    }
  }

  // ----- second pass -----

  method ReadEntry(t: DeviceTree, e: Entry)
    requires t.Valid()
    modifies t`log, Nodes(t.shape)`counter, Nodes(t.shape)`mnt, Nodes(t.shape)`opts
    ensures t.Valid()
    ensures var (f, notes) := EntryStep(old(t.Devices()), e); t.Devices() == f && t.log == old(t.log) + Wires(notes)
  {
    hide Nodes, Linked, Distinct, Contents, FindNode, LinksOf, EntryMedia, EntryNotes, EntryStep, Wires, Find, Get,
      Update, Paths;
    FindNodeMeaning(CellsOf(Nodes(t.shape)), t.shape, e.fsname);
    EntryCases(t.Devices(), e);
    var x := FindMedia(e.fsname, t.root, t.shape, null, null, Nodes(t.shape));
    if x != null && x.counter & IS_PROCESSED == 0 { ReadFound(t, x, e); }
  }

  method ReadFound(t: DeviceTree, x: MediaNode, e: Entry)
    requires t.Valid() && FindNode(CellsOf(Nodes(t.shape)), t.shape, e.fsname) == x && x in Nodes(t.shape)
      && x.path == e.fsname
    modifies t`log, x`counter, x`mnt, x`opts
    ensures t.Valid() && t.Devices() == Update(old(t.Devices()), e.fsname, EntryMedia(old(x.Data()), e))
    ensures t.log == old(t.log) + Wires(EntryNotes(old(x.Data()), e))
  {
    hide Nodes, Linked, Distinct, Contents, FindNode, LinksOf, EntryMedia, EntryNotes, Wires, Update;
    ghost var c := CellsOf(Nodes(t.shape));
    var lines := StoreEntry(x, e);
    t.log := t.log + lines;
    UpdateContents(c, CellsOf(Nodes(t.shape)), t.shape, e.fsname);
  }

  /** What an entry does, case by case. */
  lemma EntryCases(f: Forest<Media>, e: Entry)
    ensures Wires([]) == []
    ensures e.fsname !in Paths(f) ==> EntryStep(f, e) == (f, [])
    ensures e.fsname in Paths(f) ==>
      EntryStep(f, e) == if Get(f, e.fsname).counter & IS_PROCESSED != 0 then (f, [])
                         else (Update(f, e.fsname, EntryMedia(Get(f, e.fsname), e)), EntryNotes(Get(f, e.fsname), e))
  {
    FindIffIn(f, e.fsname);
  }

  lemma EntryWires(m: Media, e: Entry)
    ensures Wires(EntryNotes(m, e)) ==
      if e.dir.Some? && e.opts.Some? && m.mnt != e.dir then
        (if m.mnt.Some? then Wire(Unmounted(e.fsname, m.mnt.value)) else [])
          + Wire(Mounted(e.fsname, e.dir.value, e.opts.value))
      else []
  {
    if e.dir.Some? && e.opts.Some? {
      WiresAppend(Daemon.UnmountNotes(e.fsname, m), [Mounted(e.fsname, e.dir.value, e.opts.value)]);
      WiresOne(Mounted(e.fsname, e.dir.value, e.opts.value));
      WiresOne(Unmounted(e.fsname, Text(m.mnt)));
    }
  }

  method StoreEntry(x: MediaNode, e: Entry) returns (lines: seq<Message>)
    requires x.path == e.fsname
    modifies x`counter, x`mnt, x`opts
    ensures x.Data() == EntryMedia(old(x.Data()), e) && lines == Wires(EntryNotes(old(x.Data()), e))
  {
    hide Wires, Wire, EntryNotes, Present, Absent;
    EntryWires(x.Data(), e);
    if e.dir.Some? && e.opts.Some? {
      x.counter := Present(x.counter);
      lines := StorePlace(x, e);
    } else {
      x.counter := Absent(x.counter);
      lines := [];
    }
  }

  method StorePlace(x: MediaNode, e: Entry) returns (lines: seq<Message>)
    requires x.path == e.fsname && e.dir.Some? && e.opts.Some?
    modifies x`mnt, x`opts
    ensures x.Data() == old(x.Data()).(mnt := e.dir, opts := e.opts)
    ensures lines == if old(x.mnt) == e.dir then [] else
      (if old(x.mnt).Some? then Wire(Unmounted(e.fsname, old(x.mnt).value)) else [])
        + Wire(Mounted(e.fsname, e.dir.value, e.opts.value))
  {
    hide Wire;
    lines := [];
    if x.mnt != e.dir {
      if x.mnt.Some? { lines := lines + Wire(Unmounted(x.path, x.mnt.value)); }
      x.mnt := e.dir;
      lines := lines + Wire(Mounted(x.path, e.dir.value, e.opts.value));
    }
    if x.opts != e.opts { x.opts := e.opts; }
  }

  method ReadTable(t: DeviceTree, table: seq<Entry>)
    requires t.Valid()
    modifies t`log, Nodes(t.shape)`counter, Nodes(t.shape)`mnt, Nodes(t.shape)`opts
    ensures t.Valid()
    ensures var (f, notes) := Scan(old(t.Devices()), table); t.Devices() == f && t.log == old(t.log) + Wires(notes)
  {
    hide Nodes, Linked, Distinct, Contents, LinksOf, EntryStep, Wires;
    var i: nat := 0;
    while i < |table|
      invariant i <= |table| && t.Valid()
      invariant Scan(t.Devices(), table[i..]).0 == Scan(old(t.Devices()), table).0
      invariant t.log + Wires(Scan(t.Devices(), table[i..]).1) == old(t.log) + Wires(Scan(old(t.Devices()), table).1)
    {
      assert table[i..][1..] == table[i + 1..];
      ghost var f := t.Devices();
      WiresAppend(EntryStep(f, table[i]).1, Scan(EntryStep(f, table[i]).0, table[i + 1..]).1);
      ReadEntry(t, table[i]);
      i := i + 1;
    }
    NoWires();
  }

  lemma NoWires()
    ensures Wires([]) == [] && SweepNotes(Nil) == []
  {}

  // ----- third pass -----

  /** An unmount to announce always has the mount point to name. */
  ghost predicate Backed(f: Forest<Media>) {
    match f
    case Nil => true
    case Node(_, m, kids, next) => (Gone(m) ==> m.mnt.Some?) && Backed(kids) && Backed(next)
  }

  method SweepEach(t: DeviceTree, x: MediaNode, ghost k: MediaShape, ghost h: LinkMap, ghost c: CellMap)
    requires x.kids == First(k) && Scope(h, k, x, null) && x !in Nodes(k) && Describes(c, Nodes(k)) && Describes(c, {x})
    requires Nodes(k) <= c.Keys && Backed(Contents(c, k)) && (Gone(x.Data()) ==> x.mnt.Some?)
    modifies t`log, Nodes(k)`counter, Nodes(k)`mnt, Nodes(k)`opts, x`counter, x`mnt, x`opts
    ensures t.log == old(t.log) + Wires(SweptNotes(c[x].path, c[x].data)) + Wires(SweepNotes(Contents(c, k)))
    ensures Swept(c, Nodes(k)) && Swept(c, {x})
    decreases Size(k), 1
  {
    hide Scope, Nodes, Wires, Wire, Contents, SweepNotes, Backed;
    SweepOne(t, x);
    SweepSiblings(t, x.kids, k, h, c, x, null);
  }

  method SweepOne(t: DeviceTree, x: MediaNode)
    requires Gone(x.Data()) ==> x.mnt.Some?
    modifies t`log, x`counter, x`mnt, x`opts
    ensures t.log == old(t.log) + Wires(SweptNotes(x.path, old(x.Data()))) && x.Data() == SweptMedia(old(x.Data()))
  {
    if x.counter & IS_MOUNTED_NOW == 0 {
      if x.counter & IS_MOUNTED_LAST != 0 {
        WiresOne(Unmounted(x.path, x.mnt.value));
        t.log := t.log + Wire(Unmounted(x.path, x.mnt.value));
        x.mnt, x.opts := None, None;
      }
    }
    x.counter := x.counter & IS_MOUNTED_NOW;
  }

  /** These nodes hold what the snapshot held, after the third pass. */
  ghost predicate Swept(c: CellMap, nodes: set<MediaNode>)
    reads nodes
  {
    nodes <= c.Keys && forall n :: n in nodes ==> n.path == c[n].path && n.Data() == SweptMedia(c[n].data)
  }

  method SweepSiblings(t: DeviceTree, first: MediaNode?, ghost s: MediaShape, ghost h: LinkMap, ghost c: CellMap,
                       ghost parent: MediaNode?, ghost prev: MediaNode?)
    requires first == First(s) && Scope(h, s, parent, prev) && Describes(c, Nodes(s))
    requires Nodes(s) <= c.Keys && Backed(Contents(c, s))
    modifies t`log, Nodes(s)`counter, Nodes(s)`mnt, Nodes(s)`opts
    ensures t.log == old(t.log) + Wires(SweepNotes(Contents(c, s))) && Swept(c, Nodes(s))
    decreases Size(s), 0
  {
    hide Scope, Nodes, Size, Wires, Contents, SweepNotes, Backed, Swept, Gone, Describes, SweptNotes;
    SweptNothing(c);
    var iter := first;
    ghost var rest, before := s, prev;
    ghost var done: set<MediaNode> := {};
    while iter != null
      invariant iter == First(rest) && Size(rest) <= Size(s) && Scope(h, rest, parent, before)
      invariant done + Nodes(rest) == Nodes(s) && done !! Nodes(rest) && Swept(c, done) && Describes(c, Nodes(rest))
      invariant Nodes(rest) <= c.Keys && Backed(Contents(c, rest))
      invariant t.log + Wires(SweepNotes(Contents(c, rest))) == old(t.log) + Wires(SweepNotes(Contents(c, s)))
      decreases Size(rest)
    {
      ScopeParts(h, rest, parent, before);
      SweepParts(c, rest);
      ghost var x, log, later := rest.node, t.log, Wires(SweepNotes(Contents(c, rest.next)));
      SweepEach(t, iter, rest.kids, h, c);
      JoinLog(log, Wires(SweptNotes(c[x].path, c[x].data)), Wires(SweepNotes(Contents(c, rest.kids))), later);
      SweptUnion(c, done, {x}, Nodes(rest.kids));
      done := done + {x} + Nodes(rest.kids);
      iter, rest, before := iter.next, rest.next, iter;
    }
    EmptyNodes();
    EmptyContents(c);
    NoWires();
  }

  lemma JoinLog<T>(log: seq<T>, a: seq<T>, b: seq<T>, later: seq<T>)
    ensures log + a + b + later == log + (a + b + later)
  {}

  lemma SweptNothing(c: CellMap)
    ensures Swept(c, {})
  {}

  lemma SweptUnion(c: CellMap, a: set<MediaNode>, b: set<MediaNode>, d: set<MediaNode>)
    requires Swept(c, a) && Swept(c, b) && Swept(c, d)
    ensures Swept(c, a + b + d)
  {}

  lemma SweepParts(c: CellMap, s: MediaShape)
    requires s.Link? && Describes(c, Nodes(s)) && Backed(Contents(c, s))
    ensures Describes(c, {s.node}) && Describes(c, Nodes(s.kids)) && Describes(c, Nodes(s.next))
    ensures s.node in c && Nodes(s.kids) <= c.Keys && Nodes(s.next) <= c.Keys
    ensures Backed(Contents(c, s.kids)) && Backed(Contents(c, s.next))
    ensures Gone(s.node.Data()) ==> s.node.mnt.Some?
    ensures Wires(SweepNotes(Contents(c, s))) ==
      Wires(SweptNotes(c[s.node].path, c[s.node].data)) + Wires(SweepNotes(Contents(c, s.kids)))
      + Wires(SweepNotes(Contents(c, s.next)))
  {
    var own, kids := SweptNotes(c[s.node].path, c[s.node].data), SweepNotes(Contents(c, s.kids));
    WiresAppend(own + kids, SweepNotes(Contents(c, s.next)));
    WiresAppend(own, kids);
  }

  lemma {:induction false} SweptContents(c: CellMap, c': CellMap, s: MediaShape)
    requires Nodes(s) <= c.Keys && Nodes(s) <= c'.Keys
    requires forall n :: n in Nodes(s) ==> c'[n] == Cell(c[n].path, SweptMedia(c[n].data))
    ensures Contents(c', s) == SweepAll(Contents(c, s))
  {
    if s.Link? {
      SweptContents(c, c', s.kids);
      SweptContents(c, c', s.next);
    }
  }

  // ----- the three passes -----

  method MarkDevices(t: DeviceTree)
    requires t.Valid()
    modifies Nodes(t.shape)`counter
    ensures t.Valid() && t.Devices() == MarkAll(old(t.Devices()))
  {
    hide Nodes, Linked, Distinct, Contents, LinksOf;
    ghost var s, c, h := t.shape, CellsOf(Nodes(t.shape)), LinksOf(Nodes(t.shape));
    TracesAll(Nodes(s), Nodes(s));
    MarkSiblings(t.root, s, h, c, null, null);
    MarkedContents(c, CellsOf(Nodes(s)), s);
  }

  method SweepDevices(t: DeviceTree)
    requires t.Valid() && Backed(t.Devices())
    modifies t`log, Nodes(t.shape)`counter, Nodes(t.shape)`mnt, Nodes(t.shape)`opts
    ensures t.Valid() && t.Devices() == SweepAll(old(t.Devices()))
    ensures t.log == old(t.log) + Wires(SweepNotes(old(t.Devices())))
  {
    hide Nodes, Linked, Distinct, Contents, LinksOf, Wires, SweepNotes, Backed;
    ghost var s, c, h := t.shape, CellsOf(Nodes(t.shape)), LinksOf(Nodes(t.shape));
    TracesAll(Nodes(s), Nodes(s));
    SweepSiblings(t, t.root, s, h, c, null, null);
    SweptContents(c, CellsOf(Nodes(s)), s);
  }

  lemma {:induction false} TrackingBacked(f: Forest<Media>)
    requires Tracking(f)
    ensures Backed(f)
  {
    if f.Node? {
      TrackingBacked(f.kids);
      TrackingBacked(f.next);
    }
  }

  /** Whatever the table says, even if it names devices twice, an unmount of the last pass has a mount point to name. */
  lemma ScanBacked(f: Forest<Media>, table: seq<Entry>)
    requires Daemon.CountersFit(f)
    ensures Backed(Scan(MarkAll(f), table).0)
  {
    MarkTracking(f);
    ScanTracking(MarkAll(f), table);
    TrackingBacked(Scan(MarkAll(f), table).0);
  }

  /** A table that cannot be opened changes nothing and stops the daemon. */
  method CheckMountChanges(t: DeviceTree, table: Option<seq<Entry>>) returns (outcome: Daemon.Outcome)
    requires t.Valid() && Daemon.CountersFit(t.Devices())
    modifies t`log, Nodes(t.shape)`counter, Nodes(t.shape)`mnt, Nodes(t.shape)`opts
    ensures t.Valid() && outcome == if table.Some? then Daemon.Success else Daemon.Fatal
    ensures table.None? ==> t.Devices() == old(t.Devices()) && t.log == old(t.log)
    ensures table.Some? ==>
      var (f, notes) := CheckMounts(old(t.Devices()), table.value);
        t.Devices() == f && t.log == old(t.log) + Wires(notes)
  {
    hide Nodes, Linked, Distinct, Contents, LinksOf, Wires, Scan, SweepNotes, SweepAll, MarkAll, Daemon.CountersFit,
      Backed;
    if table.None? { return Daemon.Fatal; }
    ghost var f := MarkAll(t.Devices());
    ScanBacked(t.Devices(), table.value);
    WiresAppend(Scan(f, table.value).1, SweepNotes(Scan(f, table.value).0));
    MarkDevices(t);
    ReadTable(t, table.value);
    SweepDevices(t);
    return Daemon.Success;
  }
}
