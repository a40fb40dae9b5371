/** Reconciling the devices with the system mount table: the three passes over a three-bit counter per
    device, and the declarative meaning they have together. */
module Mounts {
  import opened Basics
  import opened Forests
  import opened Media
  import opened Daemon

  const IS_MOUNTED_NOW: bv32 := 1
  const IS_MOUNTED_LAST: bv32 := 2
  const IS_PROCESSED: bv32 := 4

  /** One line of the mount table. */
  datatype Entry = Entry(fsname: string, dir: Option<string>, opts: Option<string>)

  // ----- first pass: remember who was mounted -----

  function Marked(m: Media): Media { m.(counter := m.counter << 1) }

  function MarkAll(f: Forest<Media>): Forest<Media> {
    match f
    case Nil => Nil
    case Node(p, m, kids, next) => Node(p, Marked(m), MarkAll(kids), MarkAll(next))
  }

  // ----- second pass: one entry of the table -----

  function Present(c: bv32): bv32 { c | IS_PROCESSED | IS_MOUNTED_NOW }

  function Absent(c: bv32): bv32 { (c | IS_PROCESSED) & !IS_MOUNTED_NOW }

  function EntryMedia(m: Media, e: Entry): Media {
    if e.dir.Some? && e.opts.Some? then m.(counter := Present(m.counter), mnt := e.dir, opts := e.opts)
    else m.(counter := Absent(m.counter))
  }

  function EntryNotes(m: Media, e: Entry): seq<Note> {
    if e.dir.Some? && e.opts.Some? && m.mnt != e.dir
    then UnmountNotes(e.fsname, m) + [Mounted(e.fsname, e.dir.value, e.opts.value)]
    else []
  }

  /** A device named by several entries is settled by the first of them. */
  function EntryStep(f: Forest<Media>, e: Entry): (Forest<Media>, seq<Note>) {
    match Find(f, e.fsname)
    case None => (f, [])
    case Some(m) =>
      if m.counter & IS_PROCESSED != 0 then (f, [])
      else (Update(f, e.fsname, EntryMedia(m, e)), EntryNotes(m, e))
  }

  function Scan(f: Forest<Media>, table: seq<Entry>): (Forest<Media>, seq<Note>)
    decreases |table|
  {
    if table == [] then (f, [])
    else
      var (f1, notes1) := EntryStep(f, table[0]);
      var (f2, notes2) := Scan(f1, table[1..]);
      (f2, notes1 + notes2)
  }

  // ----- third pass: announce who is gone -----

  predicate Gone(m: Media) { m.counter & IS_MOUNTED_NOW == 0 && m.counter & IS_MOUNTED_LAST != 0 }

  function SweptMedia(m: Media): Media {
    var m' := if Gone(m) then m.(mnt := None, opts := None) else m;
    m'.(counter := m.counter & IS_MOUNTED_NOW)
  }

  function SweptNotes(p: string, m: Media): seq<Note> {
    if Gone(m) then [Unmounted(p, Text(m.mnt))] else []
  }

  function SweepAll(f: Forest<Media>): Forest<Media> {
    match f
    case Nil => Nil
    case Node(p, m, kids, next) => Node(p, SweptMedia(m), SweepAll(kids), SweepAll(next))
  }

  function SweepNotes(f: Forest<Media>): seq<Note> {
    match f
    case Nil => []
    case Node(p, m, kids, next) => SweptNotes(p, m) + SweepNotes(kids) + SweepNotes(next)
  }

  function CheckMounts(f: Forest<Media>, table: seq<Entry>): (Forest<Media>, seq<Note>) {
    var (f1, notes) := Scan(MarkAll(f), table);
    (SweepAll(f1), notes + SweepNotes(f1))
  }

  // ----- what the three passes amount to -----

  function FirstEntry(table: seq<Entry>, p: string): Option<Entry> {
    if table == [] then None
    else if table[0].fsname == p then Some(table[0])
    else FirstEntry(table[1..], p)
  }

  /** A device is mounted where the first table entry naming it says, or nowhere. */
  function Settled(p: string, m: Media, table: seq<Entry>): Media {
    match FirstEntry(table, p)
    case Some(Entry(_, Some(dir), Some(opts))) => m.(mnt := Some(dir), opts := Some(opts), counter := 1)
    case _ => if m.mnt.Some? then m.(mnt := None, opts := None, counter := 0) else m.(counter := 0)
  }

  function SettleAll(f: Forest<Media>, table: seq<Entry>): Forest<Media> {
    match f
    case Nil => Nil
    case Node(p, m, kids, next) => Node(p, Settled(p, m, table), SettleAll(kids, table), SettleAll(next, table))
  }

  /** The announcements that lead from one mount state to another: unmount first, then mount. */
  function Difference(p: string, before: Media, after: Media): seq<Note> {
    if before.mnt == after.mnt then []
    else UnmountNotes(p, before) + if after.mnt.Some? then [Mounted(p, after.mnt.value, Text(after.opts))] else []
  }

  /** The announcements about one device, in order. */
  function About(notes: seq<Note>, p: string): seq<Note> {
    if notes == [] then []
    else (if notes[0].path == p then [notes[0]] else []) + About(notes[1..], p)
  }

  lemma AboutHead(n: Note, rest: seq<Note>, p: string)
    ensures About([], p) == []
    ensures About([n] + rest, p) == (if n.path == p then [n] else []) + About(rest, p)
  {
    assert ([n] + rest)[1..] == rest;
  }

  lemma {:induction false} AboutAppend(a: seq<Note>, b: seq<Note>, p: string)
    ensures About(a + b, p) == About(a, p) + About(b, p)
  {
    hide About;
    if a == [] {
      AboutHead(Removed(p), [], p);
      assert a + b == b;
    } else {
      var n, rest := a[0], a[1..];
      assert a == [n] + rest && a + b == [n] + (rest + b);
      AboutHead(n, rest, p);
      AboutHead(n, rest + b, p);
      AboutAppend(rest, b, p);
    }
  }

  /** The forest between two entries, in terms of the entries read so far. */
  function Midway(p: string, m: Media, read: seq<Entry>): Media {
    match FirstEntry(read, p)
    case None => Marked(m)
    case Some(e) => EntryMedia(Marked(m), e)
  }

  function MidwayAll(f: Forest<Media>, read: seq<Entry>): Forest<Media> {
    match f
    case Nil => Nil
    case Node(p, m, kids, next) => Node(p, Midway(p, m, read), MidwayAll(kids, read), MidwayAll(next, read))
  }

  lemma {:induction false} MidwayPaths(f: Forest<Media>, read: seq<Entry>)
    ensures Paths(MidwayAll(f, read)) == Paths(f)
    ensures forall p :: p in Paths(f) ==> Get(MidwayAll(f, read), p) == Midway(p, Get(f, p), read)
    ensures read == [] ==> MidwayAll(f, read) == MarkAll(f)
  {
    if f.Node? {
      MidwayPaths(f.kids, read);
      MidwayPaths(f.next, read);
    }
  }

  lemma {:induction false} FirstEntryAppend(a: seq<Entry>, b: seq<Entry>, p: string)
    ensures FirstEntry(a + b, p) == if FirstEntry(a, p).Some? then FirstEntry(a, p) else FirstEntry(b, p)
  {
    if a == [] {
      assert a + b == b;
    } else {
      assert (a + b)[1..] == a[1..] + b;
      FirstEntryAppend(a[1..], b, p);
    }
  }

  /** Reading one more entry only matters for the device it names. */
  lemma {:induction false} MidwayStep(f: Forest<Media>, read: seq<Entry>, e: Entry)
    requires Unique(f)
    ensures e.fsname in Paths(f) && FirstEntry(read, e.fsname).None? ==>
      MidwayAll(f, read + [e]) == Update(MidwayAll(f, read), e.fsname, EntryMedia(Marked(Get(f, e.fsname)), e))
    ensures e.fsname !in Paths(f) || FirstEntry(read, e.fsname).Some? ==> MidwayAll(f, read + [e]) == MidwayAll(f, read)
  {
    if f.Node? {
      FirstEntryAppend(read, [e], f.path);
      MidwayPaths(f.kids, read);
      MidwayStep(f.kids, read, e);
      MidwayStep(f.next, read, e);
    }
  }

  lemma ProcessedBit(m: Media, p: string, read: seq<Entry>)
    requires m.counter == 0 || m.counter == 1
    ensures Midway(p, m, read).counter & IS_PROCESSED != 0 <==> FirstEntry(read, p).Some?
  {}

  /** Whether the next entry is the first to name a device of the forest. */
  predicate Settles(f: Forest<Media>, read: seq<Entry>, e: Entry) {
    e.fsname in Paths(f) && FirstEntry(read, e.fsname).None?
  }

  lemma EntryStepMidway(f: Forest<Media>, read: seq<Entry>, e: Entry)
    requires Unique(f) && CountersFit(f)
    ensures EntryStep(MidwayAll(f, read), e) ==
      (MidwayAll(f, read + [e]), if Settles(f, read, e) then EntryNotes(Marked(Get(f, e.fsname)), e) else [])
  {
    MidwayPaths(f, read);
    MidwayStep(f, read, e);
    FindIffIn(MidwayAll(f, read), e.fsname);
    if e.fsname in Paths(f) {
      CountersFitFind(f, e.fsname);
      ProcessedBit(Get(f, e.fsname), e.fsname, read);
      assert Find(MidwayAll(f, read), e.fsname) == Some(Get(MidwayAll(f, read), e.fsname));
    }
  }

  lemma AboutEntry(m: Media, e: Entry, p: string)
    ensures About(EntryNotes(m, e), p) == if e.fsname == p then EntryNotes(m, e) else []
  {
    if EntryNotes(m, e) != [] {
      AboutAppend(UnmountNotes(e.fsname, m), [Mounted(e.fsname, e.dir.value, e.opts.value)], p);
    }
  }

  lemma {:induction false} ScanFrom(f: Forest<Media>, read: seq<Entry>, rest: seq<Entry>, p: string)
    requires Unique(f) && CountersFit(f)
    ensures Scan(MidwayAll(f, read), rest).0 == MidwayAll(f, read + rest)
    ensures About(Scan(MidwayAll(f, read), rest).1, p) ==
      if p in Paths(f) && FirstEntry(read, p).None? && FirstEntry(rest, p).Some?
      then EntryNotes(Marked(Get(f, p)), FirstEntry(rest, p).value) else []
    decreases |rest|
  {
    hide EntryStep, EntryNotes, MidwayAll, Unique, CountersFit, Scan, About, FirstEntry, Paths, Get;
    AboutHead(Removed(p), [], p);
    ScanParts(MidwayAll(f, read), rest, p);
    if rest == [] {
      assert read + rest == read;
    } else {
      var e := rest[0];
      EntryStepMidway(f, read, e);
      var notes := EntryStep(MidwayAll(f, read), e).1;
      ScanFrom(f, read + [e], rest[1..], p);
      assert read + [e] + rest[1..] == read + rest;
      FirstEntryAppend(read, [e], p);
      FirstEntryOne(e, p);
      AboutAppend(notes, Scan(MidwayAll(f, read + [e]), rest[1..]).1, p);
      if Settles(f, read, e) { AboutEntry(Marked(Get(f, e.fsname)), e, p); }
    }
  }

  lemma ScanParts(f: Forest<Media>, table: seq<Entry>, p: string)
    ensures table == [] ==> Scan(f, table) == (f, []) && FirstEntry(table, p) == None
    ensures table != [] ==>
      var step := EntryStep(f, table[0]);
      var later := Scan(step.0, table[1..]);
      Scan(f, table) == (later.0, step.1 + later.1)
      && FirstEntry(table, p) == if table[0].fsname == p then Some(table[0]) else FirstEntry(table[1..], p)
  {
    hide EntryStep;
  }

  lemma FirstEntryOne(e: Entry, p: string)
    ensures FirstEntry([e], p) == if e.fsname == p then Some(e) else None
  {
    assert [e][1..] == [];
  }

  // ----- one device through all three passes -----

  lemma {:induction false} FirstEntryNames(table: seq<Entry>, p: string)
    requires FirstEntry(table, p).Some?
    ensures FirstEntry(table, p).value.fsname == p
  {
    if table[0].fsname != p { FirstEntryNames(table[1..], p); }
  }

  lemma OneDevice(p: string, m: Media, table: seq<Entry>)
    requires m.counter == if m.mnt.Some? then 1 else 0
    ensures var mid := Midway(p, m, table);
      SweptMedia(mid) == Settled(p, m, table)
      && (if FirstEntry(table, p).Some? then EntryNotes(Marked(m), FirstEntry(table, p).value) else [])
         + SweptNotes(p, mid) == Difference(p, m, Settled(p, m, table))
  {
    if FirstEntry(table, p).Some? { FirstEntryNames(table, p); }
  }

  lemma {:induction false} SweepMidway(f: Forest<Media>, table: seq<Entry>)
    requires CountersFit(f)
    ensures SweepAll(MidwayAll(f, table)) == SettleAll(f, table)
  {
    if f.Node? {
      OneDevice(f.path, f.data, table);
      SweepMidway(f.kids, table);
      SweepMidway(f.next, table);
    }
  }

  lemma AboutSwept(q: string, m: Media, p: string)
    ensures About(SweptNotes(q, m), p) == if q == p then SweptNotes(q, m) else []
  {
    AboutHead(Unmounted(q, Text(m.mnt)), [], p);
    assert [Unmounted(q, Text(m.mnt))] + [] == [Unmounted(q, Text(m.mnt))];
  }

  lemma {:induction false} AboutSweep(f: Forest<Media>, p: string)
    requires Unique(f)
    ensures About(SweepNotes(f), p) == if p in Paths(f) then SweptNotes(p, Get(f, p)) else []
  {
    hide About, SweptNotes;
    AboutHead(Removed(p), [], p);
    if f.Node? {
      AboutSweep(f.kids, p);
      AboutSweep(f.next, p);
      AboutSwept(f.path, f.data, p);
      AboutAppend(SweptNotes(f.path, f.data) + SweepNotes(f.kids), SweepNotes(f.next), p);
      AboutAppend(SweptNotes(f.path, f.data), SweepNotes(f.kids), p);
    }
  }

  lemma SettledFits(p: string, m: Media, table: seq<Entry>)
    ensures var m' := Settled(p, m, table); m'.counter == if m'.mnt.Some? then 1 else 0
  {}

  lemma {:induction false} SettleAllKeeps(f: Forest<Media>, table: seq<Entry>)
    ensures Paths(SettleAll(f, table)) == Paths(f)
    ensures Unique(f) ==> Unique(SettleAll(f, table))
    ensures Sorted(f) ==> Sorted(SettleAll(f, table))
    ensures CountersFit(SettleAll(f, table))
    ensures forall p :: p in Paths(f) ==> Get(SettleAll(f, table), p) == Settled(p, Get(f, p), table)
  {
    if f.Node? {
      SettledFits(f.path, f.data, table);
      hide Settled;
      SettleAllKeeps(f.kids, table);
      SettleAllKeeps(f.next, table);
    }
  }

  /** With unique paths, a check mounts every device where the first table entry naming it says, and tells
      about each device exactly the difference. */
  lemma CheckMountsMeaning(f: Forest<Media>, table: seq<Entry>)
    requires Unique(f) && CountersFit(f)
    ensures CheckMounts(f, table).0 == SettleAll(f, table)
    ensures forall p :: p in Paths(f) ==>
      About(CheckMounts(f, table).1, p) == Difference(p, Get(f, p), Settled(p, Get(f, p), table))
    ensures forall p :: p !in Paths(f) ==> About(CheckMounts(f, table).1, p) == []
  {
    MidwayPaths(f, []);
    MidwayPaths(f, table);
    assert [] + table == table;
    ScanFrom(f, [], table, "");
    SweepMidway(f, table);
    var mid, notes := MidwayAll(f, table), Scan(MarkAll(f), table).1;
    forall p
      ensures About(CheckMounts(f, table).1, p) ==
        if p in Paths(f) then Difference(p, Get(f, p), Settled(p, Get(f, p), table)) else []
    {
      ScanFrom(f, [], table, p);
      MidwayUnique(f, table);
      AboutSweep(mid, p);
      AboutAppend(notes, SweepNotes(mid), p);
      if p in Paths(f) {
        CountersFitFind(f, p);
        OneDevice(p, Get(f, p), table);
      }
    }
  }

  lemma {:induction false} MidwayUnique(f: Forest<Media>, read: seq<Entry>)
    requires Unique(f)
    ensures Unique(MidwayAll(f, read))
  {
    if f.Node? {
      MidwayPaths(f.kids, read);
      MidwayPaths(f.next, read);
      MidwayUnique(f.kids, read);
      MidwayUnique(f.next, read);
    }
  }

  lemma {:induction false} SettleTwice(f: Forest<Media>, table: seq<Entry>)
    ensures SettleAll(SettleAll(f, table), table) == SettleAll(f, table)
  {
    if f.Node? {
      SettleTwice(f.kids, table);
      SettleTwice(f.next, table);
    }
  }

  /** Checking again against the same table changes nothing and announces nothing. */
  lemma CheckMountsTwice(f: Forest<Media>, table: seq<Entry>)
    requires Unique(f) && CountersFit(f)
    ensures var once := CheckMounts(f, table).0; CheckMounts(once, table) == (once, [])
  {
    CheckMountsMeaning(f, table);
    var once := SettleAll(f, table);
    SettleAllKeeps(f, table);
    SettleTwice(f, table);
    CheckMountsMeaning(once, table);
    var notes := CheckMounts(once, table).1;
    if notes != [] {
      var p := notes[0].path;
      assert About(notes, p) != [];
      if p in Paths(f) { SettleAllKeeps(once, table); }
    }
  }

  // ----- counters, also when several devices have the same path -----

  /** Between the passes the two lower bits tell whether there is a mount point, and only a device that an entry
      settled is marked as mounted now. */
  predicate Tracks(m: Media) {
    (m.counter & (IS_MOUNTED_NOW | IS_MOUNTED_LAST) != 0 <==> m.mnt.Some?)
    && (m.counter & IS_PROCESSED == 0 ==> m.counter & IS_MOUNTED_NOW == 0)
  }

  ghost predicate Tracking(f: Forest<Media>) {
    match f
    case Nil => true
    case Node(_, m, kids, next) => Tracks(m) && Tracking(kids) && Tracking(next)
  }

  lemma {:induction false} MarkTracking(f: Forest<Media>)
    requires CountersFit(f)
    ensures Tracking(MarkAll(f))
  {
    if f.Node? {
      MarkTracking(f.kids);
      MarkTracking(f.next);
    }
  }

  lemma {:induction false} EntryTracking(f: Forest<Media>, e: Entry, p: string)
    requires Tracking(f) && p in Paths(f) && Get(f, p).counter & IS_PROCESSED == 0
    ensures Tracking(Update(f, p, EntryMedia(Get(f, p), e)))
  {
    if f.path == p {
      EntryTracks(f.data, e);
    } else if p in Paths(f.kids) {
      EntryTracking(f.kids, e, p);
    } else {
      EntryTracking(f.next, e, p);
    }
  }

  lemma EntryTracks(m: Media, e: Entry)
    requires Tracks(m) && m.counter & IS_PROCESSED == 0
    ensures Tracks(EntryMedia(m, e))
  {}

  lemma {:induction false} ScanTracking(f: Forest<Media>, table: seq<Entry>)
    requires Tracking(f)
    ensures Tracking(Scan(f, table).0)
    decreases |table|
  {
    hide Tracks;
    if table != [] {
      FindIffIn(f, table[0].fsname);
      if table[0].fsname in Paths(f) && Get(f, table[0].fsname).counter & IS_PROCESSED == 0 {
        EntryTracking(f, table[0], table[0].fsname);
      }
      ScanTracking(EntryStep(f, table[0]).0, table[1..]);
    }
  }

  lemma {:induction false} SweepCounters(f: Forest<Media>)
    requires Tracking(f)
    ensures CountersFit(SweepAll(f))
  {
    if f.Node? {
      SweepCounters(f.kids);
      SweepCounters(f.next);
    }
  }

  lemma {:induction false} PassesSorted(f: Forest<Media>)
    requires Sorted(f)
    ensures Sorted(MarkAll(f)) && Sorted(SweepAll(f))
  {
    if f.Node? {
      PassesSorted(f.kids);
      PassesSorted(f.next);
    }
  }

  lemma {:induction false} ScanSorted(f: Forest<Media>, table: seq<Entry>)
    requires Sorted(f)
    ensures Sorted(Scan(f, table).0)
    decreases |table|
  {
    if table != [] {
      var e := table[0];
      if Find(f, e.fsname).Some? { UpdateKeepsShape(f, e.fsname, EntryMedia(Find(f, e.fsname).value, e)); }
      ScanSorted(EntryStep(f, e).0, table[1..]);
    }
  }

  lemma CheckSorted(f: Forest<Media>, table: seq<Entry>)
    requires Sorted(f)
    ensures Sorted(CheckMounts(f, table).0)
  {
    PassesSorted(f);
    ScanSorted(MarkAll(f), table);
    PassesSorted(Scan(MarkAll(f), table).0);
  }

  /** Every check leaves counters 1 for mounted and 0 for other devices, whether their paths are unique or not. */
  lemma CheckCounters(f: Forest<Media>, table: seq<Entry>)
    requires CountersFit(f)
    ensures CountersFit(CheckMounts(f, table).0)
  {
    MarkTracking(f);
    ScanTracking(MarkAll(f), table);
    SweepCounters(Scan(MarkAll(f), table).0);
  }
}
