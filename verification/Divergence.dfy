/** Where a client that follows the notifications and the daemon part, and exactly when: a path that is added
    twice, a change that alters the type, mount options that change silently. Every statement is about the lines
    that a client processes. */
module Divergence {
  import opened Basics
  import opened Forests
  import opened Media
  import opened Daemon
  import opened Mounts
  import opened Replica
  import opened Simulation
  import opened Convergence
  import opened Delivery
  import Labels

  /** The replica after the lines of one event, as far as the library passes them on. */
  function Follow(r: Forest<Device>, f: Forest<Media>, e: Event): Forest<Device> {
    ProcessAll(r, Commands(Delivered(Wires(Dispatch(f, e).notes))))
  }

  // ----- a path that is there already -----

  function Size<T>(f: Forest<T>): nat {
    match f
    case Nil => 0
    case Node(_, _, kids, next) => 1 + Size(kids) + Size(next)
  }

  lemma {:induction false} MapSize<T, U>(f: Forest<T>, g: T -> U)
    ensures Size(Map(f, g)) == Size(f)
  {
    if f.Node? {
      MapSize(f.kids, g);
      MapSize(f.next, g);
    }
  }

  lemma {:induction false} InsertSize<T>(f: Forest<T>, parent: string, p: string, d: T)
    ensures Size(InsertSorted(f, p, d)) == Size(f) + 1
    ensures Size(InsertUnder(f, parent, p, d)) == Size(f) + if parent in Paths(f) then 1 else 0
    ensures parent == ROOT_PATH || parent in Paths(f) ==> Size(Insert(f, parent, p, d)) == Size(f) + 1
  {
    if f.Node? {
      InsertSize(f.kids, parent, p, d);
      InsertSize(f.next, parent, p, d);
    }
  }

  lemma AddParts(f: Forest<Media>, parent: string, p: string, report: Report) returns (m: Media)
    requires Dispatch(f, Add(parent, p, report)).outcome.Success?
    ensures Dispatch(f, Add(parent, p, report)) == Effect(Insert(f, parent, p, m), [Added(parent, p, m)], Success)
    ensures m.mnt.None? && (parent == ROOT_PATH || parent in Paths(f))
    ensures Readable(Added(parent, p, m)) <==> p != "" && parent != "" && Reported(report)
  {
    m := Dispatch(f, Add(parent, p, report)).notes[0].media;
  }

  lemma HeardOne(r: Forest<Device>, n: Note)
    ensures ProcessAll(r, Commands(Delivered(Wires([n])))) == if Readable(n) then Apply(r, n) else r
  {
    hide Process, Wire, Wires, Readable, Apply, Delivered;
    ProcessDelivered(r, [n]);
    HeardInTime([n]);
    assert [n][1..] == [];
    assert Heard([n]) == if Readable(n) then [n] else [];
    if Readable(n) { ApplyOne(r, n); }
  }

  /** The daemon does not look whether a new device is there already, a client does: they agree afterwards exactly
      if it is not, and a client accepts its description. */
  lemma AddAgreesIff(r: Forest<Device>, f: Forest<Media>, parent: string, p: string, report: Report)
    requires Agrees(r, f) && Dispatch(f, Add(parent, p, report)).outcome.Success?
    ensures var e := Add(parent, p, report);
      Agrees(Follow(r, f, e), Dispatch(f, e).forest)
      <==> p !in Paths(f) && p != "" && parent != "" && Reported(report)
  {
    hide Dispatch, Readable, Unique, Sorted, Insert;
    var m := AddParts(f, parent, p, report);
    HeardOne(r, Added(parent, p, m));
    AgreesPaths(r, f);
    if Readable(Added(parent, p, m)) && p !in Paths(f) {
      AddAgrees(r, f, parent, p, m);
    } else {
      InsertSize(f, parent, p, m);
      MapSize(r, Bare);
      MapSize(f, Seen);
      MapSize(Insert(f, parent, p, m), Seen);
    }
  }

  lemma RunMore(f: Forest<Media>, e: Event, rest: seq<Event>)
    ensures RunForest(f, [e] + rest) == RunForest(Dispatch(f, e).forest, rest)
    ensures RunNotes(f, [e] + rest) == Dispatch(f, e).notes + RunNotes(Dispatch(f, e).forest, rest)
    ensures RunForest(f, []) == f && RunNotes(f, []) == []
  {
    hide Dispatch;
    assert ([e] + rest)[1..] == rest;
  }

  lemma RunThree(f: Forest<Media>, a: Event, b: Event, c: Event)
    ensures var x := Dispatch(f, a);
      var y := Dispatch(x.forest, b);
      var z := Dispatch(y.forest, c);
      RunForest(f, [a, b, c]) == z.forest && RunNotes(f, [a, b, c]) == x.notes + y.notes + z.notes
  {
    hide Dispatch, RunForest, RunNotes;
    var x := Dispatch(f, a);
    var y := Dispatch(x.forest, b);
    assert [a, b, c] == [a] + [b, c] && [b, c] == [b] + [c] && [c] == [c] + [];
    RunMore(f, a, [b, c]);
    RunMore(x.forest, b, [c]);
    RunMore(y.forest, c, []);
    RunMore(Dispatch(y.forest, c).forest, c, []);
  }

  lemma PlainAdd(f: Forest<Media>, p: string, report: Report)
    requires report.kind == Stateless && report.subtype == RemovableDisk && report.volume.None?
    ensures var m := NewMedia(report.(mnt := None, opts := None), None);
      Dispatch(f, Add(ROOT_PATH, p, report)) == Effect(InsertSorted(f, p, m), [Added(ROOT_PATH, p, m)], Success)
      && Readable(Added(ROOT_PATH, p, m)) == (p != "")
  {}

  /** Watching for devices begins before those present are listed, so one of them can be added twice. If it is then
      unplugged, the daemon still has a device that no client has. */
  lemma DuplicateExample(report: Report)
    requires report.kind == Stateless && report.subtype == RemovableDisk && report.volume.None?
    ensures var p := "/dev/sdb";
      var run := [Add(ROOT_PATH, p, report), Add(ROOT_PATH, p, report), Drop(p)];
      p in Paths(RunForest(Nil, run)) && ProcessAll(Nil, Commands(Delivered(Wires(RunNotes(Nil, run))))) == Nil
  {
    hide Dispatch, Less, RunForest, RunNotes;
    var p := "/dev/sdb";
    var add, drop := Add(ROOT_PATH, p, report), Drop(p);
    var m := NewMedia(report.(mnt := None, opts := None), None);
    var one, two := Node(p, m, Nil, Nil), Node(p, m, Nil, Node(p, m, Nil, Nil));
    LessIrreflexive(p);
    PlainAdd(Nil, p, report);
    PlainAdd(one, p, report);
    DropFirst(p, m);
    RunThree(Nil, add, add, drop);
    var notes := [Added(ROOT_PATH, p, m), Added(ROOT_PATH, p, m), Removed(p)];
    ProcessReadable(Nil, notes);
    ForgetTwice(p, m);
  }

  lemma DropFirst(p: string, m: Media)
    requires m.mnt.None?
    ensures var one, two := Node(p, m, Nil, Nil), Node(p, m, Nil, Node(p, m, Nil, Nil));
      Dispatch(two, Drop(p)) == Effect(one, [Removed(p)], Success)
  {
    assert Farewell(Node(p, m, Nil, Nil)) == [Removed(p)];
  }

  lemma ForgetTwice(p: string, m: Media)
    ensures ApplyAll(Nil, [Added(ROOT_PATH, p, m), Added(ROOT_PATH, p, m), Removed(p)]) == Nil
  {
    var add, gone := Added(ROOT_PATH, p, m), Removed(p);
    assert [add, add, gone] == [add, add] + [gone];
    ApplyAppend(Nil, [add, add], [gone]);
    ApplyTwo(Nil, add, add);
    ApplyOne(ApplyAll(Nil, [add, add]), gone);
  }

  // ----- a change that alters the type -----

  function NewVolume(m: Media, report: Report): Option<string> {
    if SameVolume(m.volume, report.volume) then m.volume
    else match DecodedVolume(report)
      case Some(volume) => volume
      case None => None
  }

  /** Nothing that a description of the stored device carries is different in the report. */
  predicate Unseen(m: Media, report: Report) {
    m.kind == Stateless
    || (Text(m.fstype) == Text(report.fstype) && Text(m.volume) == Text(NewVolume(m, report))
        && (m.kind == Stateful ==> m.state == report.state))
  }

  /** What is stored, and what is announced, by a change that succeeds. */
  function Stored(m: Media, report: Report): Media {
    ChangedMedia(m, report.(mnt := None, opts := None), NewVolume(m, report))
  }

  function Told(m: Media, report: Report): Media {
    Stored(m, report).(kind := report.kind, subtype := report.subtype)
  }

  lemma ChangeParts(f: Forest<Media>, parent: string, p: string, report: Report)
    requires Dispatch(f, Change(parent, p, report)).outcome.Success?
    ensures report.kind != UnknownKind && report.subtype != UnknownSubtype && p in Paths(f)
      && parent == ParentOf(f, p, ROOT_PATH)
    ensures var effect, m := Dispatch(f, Change(parent, p, report)), Get(f, p);
      effect.notes == UnmountNotes(p, m) + [Changed(parent, p, Told(m, report))]
      && effect.forest == Update(f, p, Stored(m, report))
  {
    hide Labels.Matches, Labels.Decoded, Paths, Get, Update, ParentOf, Find;
    FindIffIn(f, p);
  }

  lemma ViewsDiffer(m: Media, report: Report)
    requires Transmissible(m) && report.kind != UnknownKind && report.subtype != UnknownSubtype
    ensures Seen(Told(m, report)) == Seen(Stored(m, report)) <==> SameType(m, report)
    ensures Seen(m.(mnt := None)) == Seen(Stored(m, report)) <==> Unseen(m, report)
  {
    hide NewVolume;
  }

  /** A change announces the reported type without storing it. Afterwards client and daemon agree exactly if it was
      the stored type or, when the clients refuse the line, if they miss nothing by it. */
  lemma TypeChangeAgreesIff(r: Forest<Device>, f: Forest<Media>, parent: string, p: string, report: Report)
    requires Agrees(r, f) && Sane(f) && Dispatch(f, Change(parent, p, report)).outcome.Success?
    ensures var e := Change(parent, p, report);
      p in Paths(f)
      && (Agrees(Follow(r, f, e), Dispatch(f, e).forest)
          <==> if Reported(report) then SameType(Get(f, p), report) else Unseen(Get(f, p), report))
  {
    hide Dispatch, Process, Received, Wire, Wires, Delivered, Unique, Sorted, CountersFit, Seen, SameType, Unseen, Map;
    ChangeParts(f, parent, p, report);
    ProperPaths(f);
    ParentInside(f, p, ROOT_PATH);
    var m := Get(f, p);
    var n := Changed(parent, p, Told(m, report));
    ProcessDelivered(r, UnmountNotes(p, m) + [n]);
    HeardInTime(UnmountNotes(p, m) + [n]);
    HeardLast(p, m, n);
    ViewsDiffer(m, report);
    if Readable(n) {
      ToldAgreesIff(r, f, parent, p, n.media, Stored(m, report), m);
    } else {
      UnmountAgreesIff(r, f, p, m, Stored(m, report));
    }
  }

  lemma HeardLast(p: string, m: Media, n: Note)
    requires p != ""
    ensures Heard(UnmountNotes(p, m) + [n]) == UnmountNotes(p, m) + if Readable(n) then [n] else []
  {
    assert [n][1..] == [];
    assert Heard([n]) == if Readable(n) then [n] else [];
    if m.mnt.Some? {
      var notes := UnmountNotes(p, m) + [n];
      assert notes[1..] == [n];
    } else {
      assert UnmountNotes(p, m) + [n] == [n];
    }
  }

  lemma UnmountAgreesIff(r: Forest<Device>, f: Forest<Media>, p: string, m: Media, stored: Media)
    requires Agrees(r, f) && Unique(f) && p in Paths(f) && m == Get(f, p)
    ensures Agrees(ApplyAll(r, UnmountNotes(p, m)), Update(f, p, stored)) <==> Seen(m.(mnt := None)) == Seen(stored)
  {
    hide Seen, Bare;
    var bare := m.(mnt := None);
    var r' := ApplyAll(r, UnmountNotes(p, m));
    AgreesPaths(r, f);
    assert Agrees(r', Update(f, p, bare)) by { UnmountAgrees(r, f, p, m); }
    if Agrees(r', Update(f, p, stored)) {
      AgreesPaths(r', Update(f, p, stored));
      AgreesPaths(r', Update(f, p, bare));
      FindUpdate(f, p, stored, p);
      FindUpdate(f, p, bare, p);
    }
    if Seen(bare) == Seen(stored) {
      MapUpdate(f, p, bare, Seen);
      MapUpdate(f, p, stored, Seen);
    }
  }

  lemma UnmountAgrees(r: Forest<Device>, f: Forest<Media>, p: string, m: Media)
    requires Agrees(r, f) && p in Paths(f) && m == Get(f, p)
    ensures Agrees(ApplyAll(r, UnmountNotes(p, m)), Update(f, p, m.(mnt := None)))
  {
    hide Unique, Sorted, Update, Map, Paths, Get, Find, ApplyAll;
    AgreesPaths(r, f);
    var quiet := m.(mnt := None);
    MapUpdate(f, p, quiet, Seen);
    if m.mnt.None? || m.mnt.value == "" {
      MapPaths(f, Seen);
      UpdateSame(Map(f, Seen), p, Seen(m));
      if m.mnt.Some? { ApplyOne(r, Unmounted(p, "")); } else { assert ApplyAll(r, []) == r by { Nothing(r); } }
    } else {
      var d := Get(r, p).(mnt := "", opts := "");
      ApplyOne(r, Unmounted(p, m.mnt.value));
      MapUpdate(r, p, d, Bare);
    }
  }

  lemma Nothing(r: Forest<Device>)
    ensures ApplyAll(r, []) == r
  {}

  // ----- a mount check -----

  /** After the lines of a mount check, client and daemon agree exactly if no device is mounted somewhere new with
      empty options: the client ignores the line that says so. */
  lemma CheckLinesAgreeIff(r: Forest<Device>, f: Forest<Media>, table: seq<Entry>)
    requires Agrees(r, f) && Sane(f)
    ensures var e := Check(table);
      Agrees(Follow(r, f, e), Dispatch(f, e).forest) <==> AllTold(f, table)
  {
    hide CheckMounts, Agrees, AllTold;
    CheckReadable(f, table);
    ProcessReadable(r, CheckMounts(f, table).1);
    CheckAgreesIff(r, f, table);
  }

  // ----- any event -----

  /** What an event has to be like for its lines to tell everything a client sees. */
  predicate Faithful(f: Forest<Media>, e: Event) {
    match e
    case Add(parent, p, report) =>
      Dispatch(f, e).outcome.Success? ==> p !in Paths(f) && p != "" && parent != "" && Reported(report)
    case Drop(_) => true
    case Change(_, p, report) =>
      Dispatch(f, e).outcome.Success? && p in Paths(f) ==>
        if Reported(report) then SameType(Get(f, p), report) else Unseen(Get(f, p), report)
    case Check(table) => AllTold(f, table)
  }

  /** Whatever the event, fair or not: if it does not stop the daemon, a client that processes its lines agrees with
      the tree afterwards exactly if the event is faithful. */
  lemma StepAgreesIff(r: Forest<Device>, f: Forest<Media>, e: Event)
    requires Agrees(r, f) && Sane(f) && !Stops(Dispatch(f, e).outcome)
    ensures Agrees(Follow(r, f, e), Dispatch(f, e).forest) <==> Faithful(f, e)
  {
    hide Agrees, Sane, Follow, Unseen, SameType, AllTold, AddMedia, RemoveMedia, ChangeMedia, CheckMounts;
    match e
    case Add(parent, p, report) =>
      if Dispatch(f, e).outcome.Success? { AddAgreesIff(r, f, parent, p, report); } else { NothingHappens(r, f, e); }
    case Drop(p) =>
      if Dispatch(f, e).outcome.Success? { DropAgrees(r, f, p); } else { NothingHappens(r, f, e); }
    case Change(parent, p, report) =>
      if Dispatch(f, e).outcome.Success? {
        TypeChangeAgreesIff(r, f, parent, p, report);
      } else {
        NothingHappens(r, f, e);
      }
    case Check(table) => CheckLinesAgreeIff(r, f, table);
  }

  lemma NothingHappens(r: Forest<Device>, f: Forest<Media>, e: Event)
    requires !Stops(Dispatch(f, e).outcome) && !Dispatch(f, e).outcome.Success?
    ensures Dispatch(f, e).forest == f && Follow(r, f, e) == r
  {
    hide CheckMounts, Labels.Matches, Labels.Decoded, Update, ParentOf, Find;
  }

  lemma DropAgrees(r: Forest<Device>, f: Forest<Media>, p: string)
    requires Agrees(r, f) && Sane(f) && Dispatch(f, Drop(p)).outcome.Success?
    ensures Agrees(Follow(r, f, Drop(p)), Dispatch(f, Drop(p)).forest)
  {
    hide Agrees, Process, Received, Wire, Remove, Farewell;
    StepReadable(f, Drop(p));
    ProcessReadable(r, Dispatch(f, Drop(p)).notes);
    RemoveAgrees(r, f, p);
  }

  // ----- mount options that change silently -----

  /** Everything a client can know of a device, mount options included. */
  function Whole(m: Media): Device { AsDevice(Conveyed(m)).(mnt := Text(m.mnt), opts := Text(m.opts)) }

  ghost predicate Mirrors(r: Forest<Device>, f: Forest<Media>) { r == Map(f, Whole) }

  /** The client is left with other options: those the device had if nothing, or no unmount, is heard, and none after
      an unmount. A device that stays where it is while the table has other options for it is the usual case. */
  predicate Silent(p: string, m: Media, table: seq<Entry>) {
    var m' := Settled(p, m, table);
    var left := if m.mnt == m'.mnt || Text(m.mnt) == "" then Text(m.opts) else "";
    (m.mnt == m'.mnt || Text(m'.mnt) == "") && Text(m'.opts) != left
  }

  lemma DifferenceMirrors(p: string, m: Media, table: seq<Entry>)
    ensures var m' := Settled(p, m, table);
      MountedAs(Whole(m), Difference(p, m, m')) == Whole(m') <==> !Silent(p, m, table) && !Untold(p, m, table)
  {
    hide MountedAs, FirstEntry, Conveyed;
    assert MountedAs(Whole(m), []) == Whole(m) by { MountedAsNone(Whole(m)); }
    var m' := Settled(p, m, table);
    var down, up := Unmounted(p, Text(m.mnt)), Mounted(p, Text(m'.mnt), Text(m'.opts));
    SettledConveys(p, m, table);
    if m.mnt == m'.mnt {
    } else if m.mnt.None? {
      assert Difference(p, m, m') == [up];
      MountedAsFew(Whole(m), up, down);
    } else if m'.mnt.None? {
      assert Difference(p, m, m') == [down];
      MountedAsFew(Whole(m), down, up);
    } else {
      assert Difference(p, m, m') == [down, up];
      MountedAsFew(Whole(m), down, up);
    }
  }

  predicate NoneSilent(f: Forest<Media>, table: seq<Entry>) {
    forall p :: p in Paths(f) ==> !Silent(p, Get(f, p), table) && !Untold(p, Get(f, p), table)
  }

  /** After the lines of a mount check, whatever the table, client and daemon agree on everything with mount options
      included exactly if each device's new options, and its new mount point, are told. */
  lemma OptionsAgreeIff(r: Forest<Device>, f: Forest<Media>, table: seq<Entry>)
    requires Mirrors(r, f) && Sane(f)
    ensures var e := Check(table); Mirrors(Follow(r, f, e), Dispatch(f, e).forest) <==> NoneSilent(f, table)
  {
    hide CheckMounts, Find, ParentOf, Unique, Sorted, CountersFit, Proper, Whole, Map, ApplyAll, Settled, Silent,
      Untold,
      Difference, Get, Paths, SettleAll, Delivered;
    var (f', notes) := CheckMounts(f, table);
    CheckMountsMeaning(f, table);
    MountOnlyCheck(f, table);
    CheckReadable(f, table);
    ProcessReadable(r, notes);
    var r', g := ApplyAll(r, notes), Map(f', Whole);
    MapPaths(f, Whole);
    MapPaths(f', Whole);
    MountNotesAreLocal(r, notes);
    SettleAllKeeps(f, table);
    SettleAllParents(f, table);
    ProperPaths(f);
    forall p | p in Paths(f)
      ensures Find(r', p) == Find(g, p) <==> !Silent(p, Get(f, p), table) && !Untold(p, Get(f, p), table)
    {
      DifferenceMirrors(p, Get(f, p), table);
      assert Find(f, p) == Some(Get(f, p)) && Find(r, p) == Some(Whole(Get(f, p))) && Find(r', p) == Some(Get(r', p));
      assert Find(f', p) == Some(Get(f', p)) && Find(g, p) == Some(Whole(Get(f', p)));
    }
    if NoneSilent(f, table) { Extensional(r', g, ""); }
  }
}
