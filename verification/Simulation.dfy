/** Runs of the daemon, and the theorem that a client which follows the notifications holds its tree. */
module Simulation {
  import opened Basics
  import opened Forests
  import opened Media
  import opened Daemon
  import opened Mounts
  import opened Replica
  import Labels

  /** What the main loop reacts to. */
  datatype Event =
    | Add(parent: string, path: string, report: Report)
    | Drop(path: string)
    | Change(parent: string, path: string, report: Report)
    | Check(table: seq<Entry>)

  /** Device events carry no mount data, and those of unknown type or subtype are skipped. */
  function Dispatch(f: Forest<Media>, e: Event): Effect {
    match e
    case Add(parent, path, r) =>
      if r.kind.UnknownKind? || r.subtype.UnknownSubtype? then Effect(f, [], Fail)
      else AddMedia(f, parent, path, r.(mnt := None, opts := None))
    case Drop(path) => RemoveMedia(f, path)
    case Change(parent, path, r) =>
      if r.kind.UnknownKind? || r.subtype.UnknownSubtype? then Effect(f, [], Fail)
      else ChangeMedia(f, parent, path, r.(mnt := None, opts := None))
    case Check(table) => Effect(CheckMounts(f, table).0, CheckMounts(f, table).1, Success)
  }

  /** A device that is added was not there before. */
  predicate New(f: Forest<Media>, e: Event) {
    e.Add? && Dispatch(f, e).outcome.Success? ==> e.path !in Paths(f)
  }

  /** What a client relies on in the events that have an effect: new devices have new, non-empty paths; a device keeps
      its type and subtype; stateful devices report a known state; a new mount point comes with mount options. */
  predicate Telling(f: Forest<Media>, e: Event) {
    match e
    case Add(_, path, r) => Dispatch(f, e).outcome.Success? ==> path != "" && path !in Paths(f) && Reported(r)
    case Drop(_) => true
    case Change(_, path, r) =>
      Dispatch(f, e).outcome.Success? && path in Paths(f) ==> Reported(r) && SameType(Get(f, path), r)
    case Check(table) => AllTold(f, table)
  }

  /** No device has the root path, which stands for the parent of the outermost devices. */
  predicate Fair(f: Forest<Media>, e: Event) {
    Telling(f, e) && (e.Add? && Dispatch(f, e).outcome.Success? ==> e.path != ROOT_PATH)
  }

  /** A stateful device has to report its state: clients refuse its description otherwise. */
  predicate Reported(report: Report) { report.kind == Stateful ==> report.state != UnknownState }

  /** Whether the announced type and subtype are the stored ones, as far as descriptions carry them. */
  predicate SameType(m: Media, r: Report) {
    m.kind == r.kind && (r.kind != Partition ==> m.subtype == r.subtype)
  }

  /** The device is mounted somewhere new with empty options: clients ignore the line that says so. */
  predicate Untold(p: string, m: Media, table: seq<Entry>) {
    match FirstEntry(table, p)
    case Some(Entry(_, Some(dir), Some(opts))) => opts == "" && dir != "" && m.mnt != Some(dir)
    case _ => false
  }

  predicate AllTold(f: Forest<Media>, table: seq<Entry>) {
    forall p :: p in Paths(f) ==> !Untold(p, Get(f, p), table)
  }

  // ----- what holds between events -----

  ghost predicate Proper(f: Forest<Media>) {
    match f
    case Nil => true
    case Node(p, m, kids, next) => p != "" && Transmissible(m) && Proper(kids) && Proper(next)
  }

  ghost predicate Sane(f: Forest<Media>) { Unique(f) && Sorted(f) && CountersFit(f) && Proper(f) }

  ghost predicate Sound(f: Forest<Media>) { Sane(f) && ROOT_PATH !in Paths(f) }

  lemma {:induction false} ProperPaths(f: Forest<Media>)
    requires Proper(f)
    ensures "" !in Paths(f)
    ensures forall p :: p in Paths(f) ==> Transmissible(Get(f, p))
  {
    if f.Node? {
      ProperPaths(f.kids);
      ProperPaths(f.next);
    }
  }

  lemma {:induction false} ProperUpdates(f: Forest<Media>, parent: string, p: string, m: Media)
    requires Proper(f) && Transmissible(m) && p != ""
    ensures Proper(InsertSorted(f, p, m)) && Proper(InsertUnder(f, parent, p, m)) && Proper(Update(f, p, m))
  {
    hide Transmissible;
    if f.Node? {
      ProperUpdates(f.kids, parent, p, m);
      ProperUpdates(f.next, parent, p, m);
    }
  }

  lemma {:induction false} ProperSettle(f: Forest<Media>, table: seq<Entry>)
    requires Proper(f)
    ensures Proper(SettleAll(f, table))
  {
    if f.Node? {
      ProperSettle(f.kids, table);
      ProperSettle(f.next, table);
    }
  }

  lemma {:induction false} ProperRemove(f: Forest<Media>, p: string)
    requires Proper(f)
    ensures Proper(Remove(f, p))
  {
    if f.Node? {
      ProperRemove(f.kids, p);
      ProperRemove(f.next, p);
    }
  }

  lemma SaneInsert(f: Forest<Media>, parent: string, p: string, m: Media)
    requires Sane(f) && Transmissible(m) && p != "" && p !in Paths(f)
    requires m.counter == if m.mnt.Some? then 1 else 0
    ensures Sane(Insert(f, parent, p, m)) && Paths(Insert(f, parent, p, m)) <= Paths(f) + {p}
  {
    InsertSortedKeeps(f, p, m);
    InsertUnderKeeps(f, parent, p, m);
    InsertSortedSorted(f, p, m);
    InsertUnderSorted(f, parent, p, m);
    CountersFitInsert(f, parent, p, m);
    ProperUpdates(f, parent, p, m);
  }

  lemma SaneRemove(f: Forest<Media>, p: string)
    requires Sane(f)
    ensures Sane(Remove(f, p)) && Paths(Remove(f, p)) <= Paths(f)
  {
    RemoveKeeps(f, p);
    RemoveSorted(f, p);
    if f.Node? { CountersFitUpdate(f, p, f.data); }
    ProperRemove(f, p);
  }

  lemma SaneUpdate(f: Forest<Media>, p: string, m: Media)
    requires Sane(f) && p in Paths(f) && Transmissible(m) && m.counter == if m.mnt.Some? then 1 else 0
    ensures Sane(Update(f, p, m)) && Paths(Update(f, p, m)) == Paths(f)
  {
    UpdateKeepsShape(f, p, m);
    CountersFitUpdate(f, p, m);
    ProperPaths(f);
    ProperUpdates(f, "", p, m);
  }

  lemma SaneSettle(f: Forest<Media>, table: seq<Entry>)
    requires Sane(f)
    ensures Sane(SettleAll(f, table)) && Paths(SettleAll(f, table)) == Paths(f)
  {
    SettleAllKeeps(f, table);
    ProperSettle(f, table);
  }

  // ----- agreement of a replica with the tree -----

  /** What following the notifications teaches about a device: what its description conveys, and the mount
      point whatever the type. Mount options are left out: the daemon can change them silently. */
  function Seen(m: Media): Device { AsDevice(Conveyed(m)).(mnt := Text(m.mnt), opts := "") }

  function Bare(d: Device): Device { d.(opts := "") }

  ghost predicate Agrees(r: Forest<Device>, f: Forest<Media>) { Map(r, Bare) == Map(f, Seen) }

  lemma AgreesPaths(r: Forest<Device>, f: Forest<Media>)
    requires Agrees(r, f)
    ensures Paths(r) == Paths(f) && (Unique(r) <==> Unique(f)) && (Sorted(r) <==> Sorted(f))
    ensures forall p :: p in Paths(f) ==> Bare(Get(r, p)) == Seen(Get(f, p))
    ensures forall p, top :: p in Paths(f) ==> ParentOf(r, p, top) == ParentOf(f, p, top)
  {
    MapPaths(r, Bare);
    MapPaths(f, Seen);
    forall p | p in Paths(f) ensures Bare(Get(r, p)) == Seen(Get(f, p)) {
      assert Find(Map(r, Bare), p) == Find(Map(f, Seen), p);
    }
  }

  lemma AddAgrees(r: Forest<Device>, f: Forest<Media>, parent: string, p: string, m: Media)
    requires Agrees(r, f) && p !in Paths(f) && m.mnt.None?
    ensures Agrees(Apply(r, Added(parent, p, m)), Insert(f, parent, p, m))
  {
    hide Insert, Map, Paths;
    AgreesPaths(r, f);
    MapInsert(r, parent, p, AsDevice(Conveyed(m)), Bare);
    MapInsert(f, parent, p, m, Seen);
  }

  /** The notes of a removal, applied one by one to any replica, remove exactly those paths. */
  lemma {:induction false} FarewellPrunes(r: Forest<Device>, g: Forest<Media>)
    requires Unique(r)
    ensures ApplyAll(r, Farewell(g)) == Prune(r, Paths(g))
    decreases g
  {
    hide Unique, Prune, ApplyAll, UnmountNotes;
    if g.Nil? {
      PruneNone(r, {});
      assert ApplyAll(r, []) == r by { ApplyNone(r); }
    } else {
      var r1 := Prune(r, Paths(g.kids));
      FarewellPrunes(r, g.kids);
      PruneMore(r, Paths(g.kids), {g.path});
      GoodbyePrunes(r1, g.path, g.data);
      var r2 := Prune(r, Paths(g.kids) + {g.path});
      FarewellPrunes(r2, g.next);
      PruneMore(r, Paths(g.kids) + {g.path}, Paths(g.next));
      assert Paths(g.kids) + {g.path} + Paths(g.next) == Paths(g);
      var bye := UnmountNotes(g.path, g.data) + [Removed(g.path)];
      assert Farewell(g) == Farewell(g.kids) + bye + Farewell(g.next);
      ApplyAppend(r, Farewell(g.kids) + bye, Farewell(g.next));
      ApplyAppend(r, Farewell(g.kids), bye);
    }
  }

  lemma ApplyNone(r: Forest<Device>)
    ensures ApplyAll(r, []) == r
  {}

  lemma GoodbyePrunes(r: Forest<Device>, p: string, m: Media)
    requires Unique(r)
    ensures ApplyAll(r, UnmountNotes(p, m) + [Removed(p)]) == Prune(r, {p}) && Unique(Prune(r, {p}))
  {
    PruneOne(r, p);
    RemoveKeeps(r, p);
    if m.mnt.Some? {
      var bye := [Unmounted(p, m.mnt.value), Removed(p)];
      assert UnmountNotes(p, m) + [Removed(p)] == bye;
      ApplyTwo(r, bye[0], bye[1]);
      if p in Paths(r) { RemoveUpdated(r, p, Get(r, p).(mnt := "", opts := "")); }
    } else {
      assert UnmountNotes(p, m) + [Removed(p)] == [Removed(p)];
      ApplyOne(r, Removed(p));
    }
  }

  lemma RemoveAgrees(r: Forest<Device>, f: Forest<Media>, p: string)
    requires Agrees(r, f) && Unique(f)
    ensures Agrees(ApplyAll(r, Farewell(Subtree(f, p))), Remove(f, p))
  {
    AgreesPaths(r, f);
    FarewellPrunes(r, Subtree(f, p));
    MapSubtree(r, p, Bare);
    MapSubtree(f, p, Seen);
    MapPaths(Subtree(r, p), Bare);
    MapPaths(Subtree(f, p), Seen);
    PruneSubtree(r, p);
    MapRemove(r, p, Bare);
    MapRemove(f, p, Seen);
  }

  lemma ChangeAgrees(r: Forest<Device>, f: Forest<Media>, parent: string, p: string, m: Media, before: Media)
    requires Agrees(r, f) && p in Paths(f) && m.mnt.None?
    ensures Agrees(ApplyAll(r, UnmountNotes(p, before) + [Changed(parent, p, m)]), Update(f, p, m))
  {
    hide Update, Map, Paths, Get, ApplyAll;
    AgreesPaths(r, f);
    var d := AsDevice(Conveyed(m));
    MapUpdate(r, p, d, Bare);
    MapUpdate(f, p, m, Seen);
    if before.mnt.Some? {
      var notes := [Unmounted(p, before.mnt.value), Changed(parent, p, m)];
      assert UnmountNotes(p, before) + [Changed(parent, p, m)] == notes;
      ApplyTwo(r, notes[0], notes[1]);
      UpdateTwice(r, p, Get(r, p).(mnt := "", opts := ""), d);
    } else {
      assert UnmountNotes(p, before) + [Changed(parent, p, m)] == [Changed(parent, p, m)];
      ApplyOne(r, Changed(parent, p, m));
    }
  }

  lemma ToldAgreesIff(r: Forest<Device>, f: Forest<Media>, parent: string, p: string, told: Media, stored: Media,
    before: Media)
    requires Agrees(r, f) && Unique(f) && p in Paths(f) && told.mnt.None?
    requires stored == told.(kind := stored.kind, subtype := stored.subtype)
    requires told.kind != UnknownKind
    ensures Agrees(ApplyAll(r, UnmountNotes(p, before) + [Changed(parent, p, told)]), Update(f, p, stored))
      <==> Seen(told) == Seen(stored)
  {
    var r' := ApplyAll(r, UnmountNotes(p, before) + [Changed(parent, p, told)]);
    ChangeAgrees(r, f, parent, p, told, before);
    var g, h := Update(f, p, told), Update(f, p, stored);
    MapUpdate(f, p, told, Seen);
    MapUpdate(f, p, stored, Seen);
    if Agrees(r', h) {
      AgreesPaths(r', h);
      AgreesPaths(r', g);
      FindUpdate(f, p, told, p);
      FindUpdate(f, p, stored, p);
    }
  }

  // ----- mount notes touch nothing but the device they name -----

  predicate MountOnly(notes: seq<Note>) {
    forall i :: 0 <= i < |notes| ==> notes[i].Mounted? || notes[i].Unmounted?
  }

  function MountedBy(d: Device, n: Note): Device {
    match n
    case Mounted(_, mnt, opts) => if mnt != "" && opts != "" then d.(mnt := mnt, opts := opts) else d
    case Unmounted(_, mnt) => if mnt != "" then d.(mnt := "", opts := "") else d
    case _ => d
  }

  function MountedAs(d: Device, notes: seq<Note>): Device
    decreases |notes|
  {
    if notes == [] then d else MountedAs(MountedBy(d, notes[0]), notes[1..])
  }

  /** The same forest as far as paths and order go, and other data only as the map says. */
  ghost predicate SameShape<T>(f: Forest<T>, g: Forest<T>) {
    Paths(f) == Paths(g) && (Unique(f) ==> Unique(g)) && (Sorted(f) ==> Sorted(g))
    && forall p, top :: p in Paths(f) ==> ParentOf(g, p, top) == ParentOf(f, p, top)
  }

  lemma MountNoteIsLocal(r: Forest<Device>, n: Note)
    requires n.Mounted? || n.Unmounted?
    ensures SameShape(r, Apply(r, n))
    ensures forall p :: p in Paths(r) ==>
      Get(Apply(r, n), p) == if p == n.path then MountedBy(Get(r, p), n) else Get(r, p)
  {
    if n.path in Paths(r) && n.mnt != "" && (n.Mounted? ==> n.opts != "") {
      var d := MountedBy(Get(r, n.path), n);
      assert Apply(r, n) == Update(r, n.path, d);
      UpdateKeepsShape(r, n.path, d);
      forall p | p in Paths(r) ensures Get(Apply(r, n), p) == if p == n.path then d else Get(r, p) {
        FindUpdate(r, n.path, d, p);
      }
    }
  }

  lemma {:induction false} MountNotesAreLocal(r: Forest<Device>, notes: seq<Note>)
    requires MountOnly(notes)
    ensures SameShape(r, ApplyAll(r, notes))
    ensures forall p :: p in Paths(r) ==> Get(ApplyAll(r, notes), p) == MountedAs(Get(r, p), About(notes, p))
    decreases |notes|
  {
    hide Apply, MountedBy, Get, Unique, Sorted, ParentOf;
    if notes != [] {
      var n := notes[0];
      MountNoteIsLocal(r, n);
      MountNotesAreLocal(Apply(r, n), notes[1..]);
      forall p | p in Paths(r) ensures Get(ApplyAll(r, notes), p) == MountedAs(Get(r, p), About(notes, p)) {
        var here := if n.path == p then [n] else [];
        assert About(notes, p) == here + About(notes[1..], p);
        assert here == [] ==> About(notes, p) == About(notes[1..], p);
        assert here != [] ==> About(notes, p)[0] == n && About(notes, p)[1..] == About(notes[1..], p);
      }
    }
  }

  lemma {:induction false} AboutHolds(notes: seq<Note>, i: nat)
    requires i < |notes|
    ensures notes[i] in About(notes, notes[i].path)
  {
    if i > 0 { AboutHolds(notes[1..], i - 1); }
  }

  lemma MountedAsNone(d: Device)
    ensures MountedAs(d, []) == d
  {}

  lemma MountedAsFew(d: Device, n: Note, n': Note)
    ensures MountedAs(d, [n]) == MountedBy(d, n)
    ensures MountedAs(d, [n, n']) == MountedBy(MountedBy(d, n), n')
  {
    assert [n][1..] == [] && [n'][1..] == [];
    assert [n, n'][1..] == [n'];
    assert MountedAs(MountedBy(d, n), [n']) == MountedBy(MountedBy(d, n), n');
  }

  /** A mount check changes nothing that a description conveys but the mount data. */
  lemma SettledConveys(p: string, m: Media, table: seq<Entry>)
    ensures AsDevice(Conveyed(Settled(p, m, table))).(mnt := "", opts := "")
      == AsDevice(Conveyed(m)).(mnt := "", opts := "")
  {}

  lemma DifferenceAgrees(d: Device, p: string, m: Media, table: seq<Entry>)
    requires Bare(d) == Seen(m)
    ensures Bare(MountedAs(d, Difference(p, m, Settled(p, m, table)))) == Seen(Settled(p, m, table))
      <==> !Untold(p, m, table)
  {
    hide MountedAs, FirstEntry, Conveyed;
    SettledConveys(p, m, table);
    assert MountedAs(d, []) == d by { MountedAsNone(d); }
    var m' := Settled(p, m, table);
    var down, up := Unmounted(p, Text(m.mnt)), Mounted(p, Text(m'.mnt), Text(m'.opts));
    if m.mnt == m'.mnt {
    } else if m.mnt.None? {
      assert Difference(p, m, m') == [up];
      MountedAsFew(d, up, down);
    } else if m'.mnt.None? {
      assert Difference(p, m, m') == [down];
      MountedAsFew(d, down, up);
    } else {
      assert Difference(p, m, m') == [down, up];
      MountedAsFew(d, down, up);
    }
  }

  lemma {:induction false} SettleAllParents(f: Forest<Media>, table: seq<Entry>)
    ensures Paths(SettleAll(f, table)) == Paths(f)
    ensures forall p, top :: p in Paths(f) ==> ParentOf(SettleAll(f, table), p, top) == ParentOf(f, p, top)
  {
    if f.Node? {
      SettleAllParents(f.kids, table);
      SettleAllParents(f.next, table);
    }
  }

  lemma MountOnlyDifference(p: string, before: Media, after: Media)
    ensures forall n :: n in Difference(p, before, after) ==> n.Mounted? || n.Unmounted?
  {}

  lemma MountOnlyCheck(f: Forest<Media>, table: seq<Entry>)
    requires Unique(f) && CountersFit(f)
    ensures MountOnly(CheckMounts(f, table).1)
  {
    hide CheckMounts, Difference, Settled, Unique, CountersFit, Get, Paths;
    var notes := CheckMounts(f, table).1;
    CheckMountsMeaning(f, table);
    forall i | 0 <= i < |notes| ensures notes[i].Mounted? || notes[i].Unmounted? {
      var p := notes[i].path;
      AboutHolds(notes, i);
      if p in Paths(f) { MountOnlyDifference(p, Get(f, p), Settled(p, Get(f, p), table)); }
    }
  }

  /** After the announcements of a check, replica and tree agree exactly if no new mount point is left untold. */
  lemma CheckAgreesIff(r: Forest<Device>, f: Forest<Media>, table: seq<Entry>)
    requires Agrees(r, f) && Sane(f)
    ensures Agrees(ApplyAll(r, CheckMounts(f, table).1), CheckMounts(f, table).0)
      <==> AllTold(f, table)
  {
    hide Untold, CheckMounts, Get, Find, ParentOf, Unique, Sorted, CountersFit, Proper, Bare, Seen, Map, ApplyAll,
      Paths,
      SettleAll, Settled, Difference;
    var (f', notes) := CheckMounts(f, table);
    CheckMountsMeaning(f, table);
    MountOnlyCheck(f, table);
    var r' := ApplyAll(r, notes);
    AgreesPaths(r, f);
    MountNotesAreLocal(r, notes);
    SettleAllKeeps(f, table);
    SettleAllParents(f, table);
    ProperPaths(f);
    var g, h := Map(r', Bare), Map(f', Seen);
    MapPaths(r', Bare);
    MapPaths(f', Seen);
    forall p | p in Paths(f)
      ensures (Find(g, p) == Find(h, p) <==> !Untold(p, Get(f, p), table))
        && ParentOf(g, p, "") == ParentOf(h, p, "")
    {
      DifferenceAgrees(Get(r, p), p, Get(f, p), table);
      assert Find(r', p) == Some(Get(r', p)) && Find(f', p) == Some(Get(f', p));
    }
    if AllTold(f, table) { Extensional(g, h, ""); }
  }

  // ----- one event -----

  lemma StepSane(f: Forest<Media>, e: Event)
    requires Sane(f) && Telling(f, e) && !Stops(Dispatch(f, e).outcome)
    ensures var effect := Dispatch(f, e);
      Sane(effect.forest)
      && Paths(effect.forest) <= Paths(f) + if e.Add? && effect.outcome.Success? then {e.path} else {}
  {
    hide Sane, CheckMounts, Insert, Remove, Update, AllTold, Labels.Matches, Labels.Decoded;
    var effect := Dispatch(f, e);
    match e
    case Add(parent, p, r) =>
      if effect.outcome.Success? { SaneInsert(f, parent, p, effect.notes[0].media); }
    case Drop(p) => SaneRemove(f, p);
    case Change(parent, p, r) =>
      if effect.outcome.Success? {
        FindIffIn(f, p);
        SaneAt(f, p);
        var told := effect.notes[|effect.notes| - 1].media;
        SaneUpdate(f, p, told.(kind := Get(f, p).kind, subtype := Get(f, p).subtype));
      }
    case Check(table) =>
      SaneMeans(f);
      CheckMountsMeaning(f, table);
      SaneSettle(f, table);
  }

  lemma SaneMeans(f: Forest<Media>)
    requires Sane(f)
    ensures Unique(f) && Sorted(f) && CountersFit(f) && "" !in Paths(f)
  {
    ProperPaths(f);
  }

  lemma SaneAt(f: Forest<Media>, p: string)
    requires Sane(f) && p in Paths(f)
    ensures Transmissible(Get(f, p)) && Get(f, p).counter == if Get(f, p).mnt.Some? then 1 else 0
  {
    CountersFitFind(f, p);
    ProperPaths(f);
  }

  lemma StepSound(f: Forest<Media>, e: Event)
    requires Sound(f) && Fair(f, e) && !Stops(Dispatch(f, e).outcome)
    ensures Sound(Dispatch(f, e).forest)
  {
    hide Sane, Dispatch, Telling;
    StepSane(f, e);
  }

  lemma StepAgrees(r: Forest<Device>, f: Forest<Media>, e: Event)
    requires Agrees(r, f) && Sane(f) && Telling(f, e) && !Stops(Dispatch(f, e).outcome)
    ensures Agrees(ApplyAll(r, Dispatch(f, e).notes), Dispatch(f, e).forest)
  {
    hide AllTold, Labels.Matches, Labels.Decoded;
    var effect := Dispatch(f, e);
    match e
    case Add(parent, p, _) =>
      if effect.outcome.Success? { AddAgrees(r, f, parent, p, effect.notes[0].media); }
    case Drop(p) => if effect.outcome.Success? { RemoveAgrees(r, f, p); }
    case Change(parent, p, _) =>
      if effect.outcome.Success? {
        FindIffIn(f, p);
        var told := effect.notes[|effect.notes| - 1].media;
        ToldAgreesIff(r, f, parent, p, told, told.(kind := Get(f, p).kind, subtype := Get(f, p).subtype), Get(f, p));
      }
    case Check(table) => CheckAgreesIff(r, f, table);
  }

  /** Fair or not, every event leaves the counters right. */
  lemma StepCounters(f: Forest<Media>, e: Event)
    requires CountersFit(f)
    ensures CountersFit(Dispatch(f, e).forest)
  {
    hide CheckMounts, Update, InsertSorted, InsertUnder, Remove, Labels.Decoded, Labels.Matches;
    match e
    case Add(parent, p, r) =>
      var effect := Dispatch(f, e);
      if effect.outcome.Success? { CountersFitInsert(f, parent, p, effect.notes[0].media); }
    case Drop(p) =>
      if p in Paths(f) { CountersFitUpdate(f, p, Get(f, p).(mnt := None, counter := 0)); }
    case Change(_, p, _) =>
      FindIffIn(f, p);
      if p in Paths(f) { CountersFitFind(f, p); }
      forall m: Media | m.counter == if m.mnt.Some? then 1 else 0 ensures CountersFit(Update(f, p, m)) {
        CountersFitUpdate(f, p, m);
      }
    case Check(table) => CheckCounters(f, table);
  }

  /** Fair or not, every event leaves siblings sorted. */
  lemma StepSorted(f: Forest<Media>, e: Event)
    requires Sorted(f)
    ensures Sorted(Dispatch(f, e).forest)
  {
    hide CheckMounts, Update, InsertSorted, InsertUnder, Remove, Labels.Decoded, Labels.Matches;
    match e
    case Add(parent, p, r) =>
      var effect := Dispatch(f, e);
      if effect.outcome.Success? {
        InsertSortedSorted(f, p, effect.notes[0].media);
        InsertUnderSorted(f, parent, p, effect.notes[0].media);
      }
    case Drop(p) => RemoveSorted(f, p);
    case Change(_, p, _) =>
      forall m: Media ensures Sorted(Update(f, p, m)) { UpdateKeepsShape(f, p, m); }
    case Check(table) => CheckSorted(f, table);
  }

  // ----- whole runs -----

  function RunForest(f: Forest<Media>, run: seq<Event>): Forest<Media>
    decreases |run|
  {
    if run == [] then f else RunForest(Dispatch(f, run[0]).forest, run[1..])
  }

  function RunNotes(f: Forest<Media>, run: seq<Event>): seq<Note>
    decreases |run|
  {
    if run == [] then [] else Dispatch(f, run[0]).notes + RunNotes(Dispatch(f, run[0]).forest, run[1..])
  }

  /** What a daemon gets to handle: everything up to the first event that stops it. */
  function Handled(f: Forest<Media>, run: seq<Event>): seq<Event>
    decreases |run|
  {
    if run == [] then []
    else [run[0]] + if Stops(Dispatch(f, run[0]).outcome) then [] else Handled(Dispatch(f, run[0]).forest, run[1..])
  }

  /** Every event is fair and none stops the daemon. */
  predicate FairRun(f: Forest<Media>, run: seq<Event>)
    decreases |run|
  {
    run == []
    || (Fair(f, run[0]) && !Stops(Dispatch(f, run[0]).outcome) && FairRun(Dispatch(f, run[0]).forest, run[1..]))
  }

  lemma {:induction false} FairHandled(f: Forest<Media>, run: seq<Event>)
    requires FairRun(f, run)
    ensures Handled(f, run) == run
    decreases |run|
  {
    if run != [] {
      hide Dispatch, Fair;
      FairHandled(Dispatch(f, run[0]).forest, run[1..]);
    }
  }

  lemma {:induction false} RunSound(f: Forest<Media>, run: seq<Event>)
    requires Sound(f) && FairRun(f, run)
    ensures Sound(RunForest(f, run))
    decreases |run|
  {
    if run != [] {
      StepSound(f, run[0]);
      RunSound(Dispatch(f, run[0]).forest, run[1..]);
    }
  }

  lemma {:induction false} RunAgrees(r: Forest<Device>, f: Forest<Media>, run: seq<Event>)
    requires Agrees(r, f) && Sound(f) && FairRun(f, run)
    ensures Agrees(ApplyAll(r, RunNotes(f, run)), RunForest(f, run))
    decreases |run|
  {
    if run != [] {
      hide Dispatch, Agrees, Sound, Fair;
      var effect := Dispatch(f, run[0]);
      StepSound(f, run[0]);
      StepAgrees(r, f, run[0]);
      RunAgrees(ApplyAll(r, effect.notes), effect.forest, run[1..]);
      ApplyAppend(r, effect.notes, RunNotes(effect.forest, run[1..]));
    }
  }

  /** From the empty tree, the folded notifications of every fair run give the daemon's tree. */
  lemma ReplicaFollowsDaemon(run: seq<Event>)
    requires FairRun(Nil, run)
    ensures Agrees(ApplyAll(Nil, RunNotes(Nil, run)), RunForest(Nil, run))
    ensures Sound(RunForest(Nil, run))
  {
    RunAgrees(Nil, Nil, run);
    RunSound(Nil, run);
  }
}
