/** A listing in the middle of the notifications: a client that combines it with the notifications around it ends
    up with the daemon's tree, except for mount points that no listing shows. */
module Snapshots {
  import opened Basics
  import opened Forests
  import opened Media
  import opened Replica
  import opened Simulation
  import opened CatchUp
  import opened Delivery
  import opened Listing
  import opened Convergence

  /** What a client makes of the listing of a tree. */
  function Snapshot(f: Forest<Media>): Forest<Device> { Map(Map(f, Conveyed), AsDevice) }

  /** The mounted devices of a type whose description omits the mount point: the mounting of stateless devices is
      announced, but a listing does not show it. */
  function Hidden(f: Forest<Media>): set<string> {
    set p | p in Paths(f) && Get(f, p).kind == Stateless && Text(Get(f, p).mnt) != ""
  }

  /** Every hidden device is removed, changed, mounted or unmounted in these notes. */
  ghost predicate Discloses(notes: seq<Note>, f: Forest<Media>) {
    forall p :: p in Hidden(f) ==> Leaves(p, notes) || Writes(notes, p) != Keep
  }

  // ----- replicas that differ in mount data only -----

  function Off(d: Device): Device { d.(mnt := "", opts := "") }

  ghost predicate Parallel(t: Forest<Device>, s: Forest<Device>) { Map(t, Off) == Map(s, Off) }

  /** Where two such replicas do differ, mount options aside. */
  ghost function Gap(t: Forest<Device>, s: Forest<Device>): set<string> {
    set p | p in Paths(t) && p in Paths(s) && Bare(Get(t, p)) != Bare(Get(s, p))
  }

  lemma ParallelAt(t: Forest<Device>, s: Forest<Device>)
    requires Parallel(t, s)
    ensures Paths(t) == Paths(s) && (Unique(t) <==> Unique(s)) && (Sorted(t) <==> Sorted(s))
    ensures forall p :: p in Paths(t) ==> Off(Get(t, p)) == Off(Get(s, p))
  {
    MapPaths(t, Off);
    MapPaths(s, Off);
    forall p | p in Paths(t) ensures Off(Get(t, p)) == Off(Get(s, p)) {
      assert Find(Map(t, Off), p) == Find(Map(s, Off), p);
    }
  }

  lemma GapParts(t: Forest<Device>, s: Forest<Device>)
    requires Parallel(t, s) && Unique(t) && t.Node?
    ensures s.Node? && t.path == s.path && Unique(t.kids) && Unique(t.next)
    ensures Parallel(t.kids, s.kids) && Parallel(t.next, s.next)
    ensures Gap(t, s) == (if Bare(t.data) != Bare(s.data) then {t.path} else {}) + Gap(t.kids, s.kids)
      + Gap(t.next, s.next)
  {
    hide Gap, Off, Bare;
    ParallelAt(t.kids, s.kids);
    ParallelAt(t.next, s.next);
    GapSum(t, s);
  }

  lemma GapSum(t: Forest<Device>, s: Forest<Device>)
    requires t.Node? && s.Node? && t.path == s.path && Paths(t.kids) == Paths(s.kids) && Paths(t.next) == Paths(s.next)
    requires t.path !in Paths(t.kids) && t.path !in Paths(t.next) && Paths(t.kids) !! Paths(t.next)
    ensures Gap(t, s) == (if Bare(t.data) != Bare(s.data) then {t.path} else {}) + Gap(t.kids, s.kids)
      + Gap(t.next, s.next)
  {
    hide Bare;
  }

  /** Without a gap they are the same, mount options aside. */
  lemma {:induction false} NoGap(t: Forest<Device>, s: Forest<Device>)
    requires Parallel(t, s) && Unique(t)
    ensures Gap(t, s) == {} <==> Map(t, Bare) == Map(s, Bare)
  {
    if t.Node? {
      hide Gap, Unique, Parallel;
      GapParts(t, s);
      NoGap(t.kids, s.kids);
      NoGap(t.next, s.next);
    } else {
      ParallelAt(t, s);
    }
  }

  lemma {:induction false} OffTwice(r: Forest<Device>)
    ensures Map(Map(r, Off), Off) == Map(r, Off)
  {
    if r.Node? {
      OffTwice(r.kids);
      OffTwice(r.next);
    }
  }

  /** What a note does, mount data aside, depends on nothing but the replica, mount data aside. */
  lemma ApplyOff(r: Forest<Device>, n: Note)
    ensures Map(Apply(r, n), Off) == Map(Apply(Map(r, Off), n), Off)
  {
    var b := Map(r, Off);
    MapPaths(r, Off);
    OffTwice(r);
    match n
    case Added(parent, p, m) =>
      MapInsert(r, parent, p, AsDevice(Conveyed(m)), Off);
      MapInsert(b, parent, p, AsDevice(Conveyed(m)), Off);
    case Removed(p) =>
      MapRemove(r, p, Off);
      MapRemove(b, p, Off);
    case Changed(_, p, m) =>
      MapUpdate(r, p, AsDevice(Conveyed(m)), Off);
      MapUpdate(b, p, AsDevice(Conveyed(m)), Off);
    case Mounted(p, mnt, opts) =>
      if p in Paths(r) { UpdateOff(r, p, mnt, opts); }
    case Unmounted(p, _) =>
      if p in Paths(r) { UpdateOff(r, p, "", ""); }
  }

  lemma UpdateOff(r: Forest<Device>, p: string, mnt: string, opts: string)
    requires p in Paths(r)
    ensures var b := Map(r, Off);
      p in Paths(b) && Map(Update(r, p, Get(r, p).(mnt := mnt, opts := opts)), Off)
                       == Map(Update(b, p, Get(b, p).(mnt := mnt, opts := opts)), Off)
  {
    var b := Map(r, Off);
    MapPaths(r, Off);
    OffTwice(r);
    assert Find(b, p) == Some(Off(Get(r, p)));
    MapUpdate(r, p, Get(r, p).(mnt := mnt, opts := opts), Off);
    MapUpdate(b, p, Get(b, p).(mnt := mnt, opts := opts), Off);
  }

  /** A note closes the gap at the device that leaves or that it writes, and opens none. */
  lemma GapStep(t: Forest<Device>, s: Forest<Device>, n: Note)
    requires Tidy(t) && Tidy(s) && Parallel(t, s) && (n.Added? ==> n.path != ROOT_PATH)
    ensures Tidy(Apply(t, n)) && Tidy(Apply(s, n)) && Parallel(Apply(t, n), Apply(s, n))
    ensures forall p :: p in Gap(Apply(t, n), Apply(s, n)) <==>
                        p in Gap(t, s) && p in Paths(Apply(s, n)) && WriteOf(n, p) == Keep
  {
    hide Apply, Unique, Sorted, Map, WriteOf, Off;
    ApplyTidy(t, n);
    ApplyTidy(s, n);
    ApplyOff(t, n);
    ApplyOff(s, n);
    ParallelAt(t, s);
    ParallelAt(Apply(t, n), Apply(s, n));
    forall p | p in Paths(Apply(s, n))
      ensures Bare(Get(Apply(t, n), p)) != Bare(Get(Apply(s, n), p)) <==> p in Gap(t, s) && WriteOf(n, p) == Keep
    {
      if p in Paths(s) {
        ApplyKeeps(t, n, p);
        ApplyKeeps(s, n, p);
        WriteCloses(WriteOf(n, p), Get(t, p), Get(s, p));
      } else {
        ApplyPaths(s, n);
        AddedAt(t, n);
        AddedAt(s, n);
      }
    }
  }

  lemma WriteCloses(w: Write, d: Device, e: Device)
    requires Off(d) == Off(e)
    ensures Bare(Do(w, d)) != Bare(Do(w, e)) <==> Bare(d) != Bare(e) && w == Keep
  {}

  lemma {:induction false} GapAfter(t: Forest<Device>, s: Forest<Device>, log: seq<Note>)
    requires Tidy(t) && Tidy(s) && Parallel(t, s) && forall i :: 0 <= i < |log| && log[i].Added? ==>
      log[i].path != ROOT_PATH
    ensures var t', s' := ApplyAll(t, log), ApplyAll(s, log);
      Tidy(s') && Parallel(t', s')
      && forall p :: p in Gap(t', s') <==> p in Gap(t, s) && Remains(s, log, p) && Writes(log, p) == Keep
    decreases |log|
  {
    hide Apply, Tidy, Parallel, WriteOf;
    if log != [] {
      GapStep(t, s, log[0]);
      GapAfter(Apply(t, log[0]), Apply(s, log[0]), log[1..]);
    }
  }

  // ----- the gap that a listing opens, and how it closes -----

  lemma {:induction false} SnapshotParallel(f: Forest<Media>)
    requires AllTransmissible(f)
    ensures Map(Snapshot(f), Off) == Map(Map(f, Seen), Off)
  {
    if f.Node? {
      SnapshotParallel(f.kids);
      SnapshotParallel(f.next);
    }
  }

  lemma {:induction false} AgreesParallel(r: Forest<Device>, f: Forest<Media>)
    requires Agrees(r, f)
    ensures Map(r, Off) == Map(Map(f, Seen), Off)
  {
    if f.Node? {
      AgreesParallel(r.kids, f.kids);
      AgreesParallel(r.next, f.next);
    }
  }

  /** Right after the listing it is open exactly at the hidden mount points. */
  lemma SnapshotGap(f: Forest<Media>, r: Forest<Device>)
    requires AllTransmissible(f) && Agrees(r, f)
    ensures Parallel(Snapshot(f), r) && Gap(Snapshot(f), r) == Hidden(f)
  {
    hide Seen;
    SnapshotParallel(f);
    AgreesParallel(r, f);
    AgreesPaths(r, f);
    MapPaths(f, Conveyed);
    MapPaths(Map(f, Conveyed), AsDevice);
    forall p | p in Paths(f)
      ensures p in Paths(Snapshot(f)) && (Bare(Get(Snapshot(f), p)) != Bare(Get(r, p)) <==> p in Hidden(f))
    {
      TransmissibleAt(f, p);
      assert Find(Snapshot(f), p) == Some(AsDevice(Conveyed(Get(f, p))));
      SeenAt(Get(f, p));
    }
  }

  lemma {:induction false} TransmissibleAt(f: Forest<Media>, p: string)
    requires AllTransmissible(f) && p in Paths(f)
    ensures Transmissible(Get(f, p))
  {
    if f.path != p {
      if p in Paths(f.kids) { TransmissibleAt(f.kids, p); } else { TransmissibleAt(f.next, p); }
    }
  }

  lemma SeenAt(m: Media)
    requires Transmissible(m)
    ensures Bare(AsDevice(Conveyed(m))) != Seen(m) <==> m.kind == Stateless && Text(m.mnt) != ""
  {}

  /** A listing agrees with the tree exactly when it hides no mount point. */
  lemma SnapshotAgreesIff(f: Forest<Media>)
    requires AllTransmissible(f) && Unique(f)
    ensures Agrees(Snapshot(f), f) <==> Hidden(f) == {}
  {
    var r := Map(f, Seen);
    SeenAgrees(f);
    SnapshotGap(f, r);
    AgreesPaths(r, f);
    ParallelAt(Snapshot(f), r);
    NoGap(Snapshot(f), r);
  }

  lemma {:induction false} SeenAgrees(f: Forest<Media>)
    ensures Agrees(Map(f, Seen), f)
  {
    if f.Node? {
      SeenAgrees(f.kids);
      SeenAgrees(f.next);
    }
  }

  /** A stateless device that was added and never mounted since has no mount point. */
  lemma {:induction false} NotMountedYet(s: Forest<Device>, log: seq<Note>, p: string)
    requires Tidy(s) && LegalLog(s, log) && Writes(log, p) == Keep
    requires p in Paths(s) ==> Get(s, p).kind == Stateless ==> Get(s, p).mnt == ""
    ensures var f := ApplyAll(s, log); p in Paths(f) ==> Get(f, p).kind == Stateless ==> Get(f, p).mnt == ""
    decreases |log|
  {
    if log != [] {
      hide Apply, Unique, Sorted, WriteOf;
      ApplyTidy(s, log[0]);
      ApplyPaths(s, log[0]);
      if p in Paths(Apply(s, log[0])) {
        if p in Paths(s) { ApplyKeeps(s, log[0], p); } else { AddedAt(s, log[0]); }
      }
      NotMountedYet(Apply(s, log[0]), log[1..], p);
    }
  }

  lemma {:induction false} LegalAdds(s: Forest<Device>, log: seq<Note>)
    requires LegalLog(s, log)
    ensures forall i :: 0 <= i < |log| && log[i].Added? ==> log[i].path != ROOT_PATH
    decreases |log|
  {
    if log != [] { LegalAdds(Apply(s, log[0]), log[1..]); }
  }

  lemma {:induction false} WritesAppend(a: seq<Note>, b: seq<Note>, p: string)
    ensures Writes(a + b, p) == Keep <==> Writes(a, p) == Keep && Writes(b, p) == Keep
    ensures Leaves(p, a + b) <==> Leaves(p, a) || Leaves(p, b)
  {
    if a == [] {
      assert a + b == b;
    } else {
      assert (a + b)[1..] == a[1..] + b;
      WritesAppend(a[1..], b, p);
    }
  }

  /** A hidden device that the notes neither remove nor write is there all the time while they are replayed. */
  lemma HiddenRemains(middle: Forest<Device>, saved: seq<Note>, later: seq<Note>, p: string)
    requires Tidy(middle) && LegalLog(middle, saved + later)
    requires var s := ApplyAll(middle, saved); p in Paths(s) && Get(s, p).kind == Stateless && Get(s, p).mnt != ""
    requires !Leaves(p, saved + later) && Writes(saved + later, p) == Keep
    ensures Remains(ApplyAll(middle, saved), saved + later, p)
  {
    hide Apply, Tidy, Converging, Get, Writes, Leaves;
    var s := ApplyAll(middle, saved);
    LegalAppend(middle, saved, later);
    WritesAppend(saved, later, p);
    if p !in Paths(middle) { NotMountedYet(middle, saved, p); }
    ReflectsConverges(middle, saved);
    StayersRemain(s, middle, saved, p);
    Converge(s, middle, saved);
    SelfConverging(s, later);
    StayersRemain(s, s, later, p);
    RemainsAppend(s, saved, later, p);
  }

  lemma SelfConverging(s: Forest<Device>, log: seq<Note>)
    ensures Converging(s, s, log)
  {}

  /** The gap of a listing closes exactly if each hidden device is removed, changed, mounted or unmounted in the
      notes that are replayed. */
  lemma GapCloses(f: Forest<Media>, middle: Forest<Device>, saved: seq<Note>, later: seq<Note>)
    requires AllTransmissible(f) && Tidy(middle) && LegalLog(middle, saved + later)
      && Agrees(ApplyAll(middle, saved), f)
    ensures var notes, s := saved + later, ApplyAll(middle, saved);
      Map(ApplyAll(Snapshot(f), notes), Bare) == Map(ApplyAll(s, notes), Bare)
      <==> Discloses(notes, f)
  {
    hide Apply, Tidy, Get, Writes, Leaves, Agrees, Parallel, Map;
    var notes, s := saved + later, ApplyAll(middle, saved);
    LegalAppend(middle, saved, later);
    LogTidy(middle, saved);
    SnapshotGap(f, s);
    SnapshotTidy(f, s);
    LegalAdds(middle, notes);
    GapAfter(Snapshot(f), s, notes);
    var t', s' := ApplyAll(Snapshot(f), notes), ApplyAll(s, notes);
    forall p | p in Hidden(f)
      ensures Remains(s, notes, p) && Writes(notes, p) == Keep <==> !Leaves(p, notes) && Writes(notes, p) == Keep
    {
      if Leaves(p, notes) { LeaversDoNotRemain(s, notes, p); }
      HiddenSeen(f, s, p);
      if !Leaves(p, notes) && Writes(notes, p) == Keep { HiddenRemains(middle, saved, later, p); }
    }
    GapTidy(t', s');
    NoGap(t', s');
  }

  lemma GapTidy(t: Forest<Device>, s: Forest<Device>)
    requires Parallel(t, s) && Tidy(s)
    ensures Unique(t) && Tidy(t)
  {
    ParallelAt(t, s);
  }

  lemma SnapshotTidy(f: Forest<Media>, s: Forest<Device>)
    requires Parallel(Snapshot(f), s) && Tidy(s)
    ensures Tidy(Snapshot(f))
  {
    ParallelAt(Snapshot(f), s);
  }

  lemma HiddenSeen(f: Forest<Media>, s: Forest<Device>, p: string)
    requires Agrees(s, f) && p in Hidden(f)
    ensures p in Paths(s) && Get(s, p).kind == Stateless && Get(s, p).mnt != ""
  {
    AgreesPaths(s, f);
    assert Bare(Get(s, p)) == Seen(Get(f, p));
  }

  /** Take a listing between two runs, and replay over it any suffix of the notes before it followed by all the
      notes after it: the client ends with the daemon's tree exactly if each stateless device that was mounted
      at the listing is removed, changed, mounted or unmounted in these notes. */
  lemma SnapshotConverges(before: seq<Event>, after: seq<Event>, early: seq<Note>, saved: seq<Note>)
    requires FairRun(Nil, before) && FairRun(RunForest(Nil, before), after)
    requires RunNotes(Nil, before) == early + saved
    ensures var f := RunForest(Nil, before);
      var notes := saved + RunNotes(f, after);
      Agrees(ApplyAll(Snapshot(f), notes), RunForest(f, after))
      <==> Discloses(notes, f)
  {
    hide Dispatch, Fair, Apply, Map, Sound, Proper, Discloses, Tidy;
    var f := RunForest(Nil, before);
    var later := RunNotes(f, after);
    EmptyAgrees();
    ReplicaFollowsDaemon(before);
    RunLegal(Nil, Nil, before);
    var middle, s := ApplyAll(Nil, early), ApplyAll(Nil, early + saved);
    RunLegal(s, f, after);
    ReplayIsHarmless(Nil, early, saved) by { NothingTidy(); }
    RunAgrees(s, f, after);
    ApplyAppend(s, saved, later);
    LegalAppend(Nil, early, saved);
    ApplyAppend(Nil, early, saved);
    LegalAppend(middle, saved, later);
    LogTidy(Nil, early) by { NothingTidy(); }
    SoundTransmissible(f);
    GapCloses(f, middle, saved, later);
  }

  lemma NothingTidy()
    ensures Tidy<Device>(Nil)
  {}

  lemma {:induction false} ProperTransmissible(f: Forest<Media>)
    requires Proper(f)
    ensures AllTransmissible(f)
  {
    if f.Node? {
      ProperTransmissible(f.kids);
      ProperTransmissible(f.next);
    }
  }

  lemma SoundTransmissible(f: Forest<Media>)
    requires Sound(f)
    ensures AllTransmissible(f) && Unique(f) && Sorted(f) && ROOT_PATH !in Paths(f)
  {
    ProperTransmissible(f);
    ProperPaths(f);
  }

  /** End to end, on the lines themselves: list, rebuild, replay. */
  lemma ListThenReplay(before: seq<Event>, after: seq<Event>, early: seq<Note>, saved: seq<Note>)
    requires FairRun(Nil, before) && FairRun(RunForest(Nil, before), after)
    requires RunNotes(Nil, before) == early + saved
    ensures var f := RunForest(Nil, before);
      var listing := Rebuild(Nil, Lines(Preorder(f, ROOT_PATH)), None);
      var notes := saved + RunNotes(f, after);
      listing.Some? && Delivered(Wires(notes)) == Wires(notes)
      && (Agrees(ProcessAll(Map(listing.value, AsDevice), Commands(Wires(notes))), RunForest(f, after))
          <==> Discloses(notes, f))
  {
    hide Dispatch, Fair, Apply, Map, Sound, Proper, Preorder, Lines, Rebuild, Agrees, Readable, Discloses;
    var f := RunForest(Nil, before);
    EmptyAgrees();
    ReplicaFollowsDaemon(before);
    SoundTransmissible(f);
    ListAllRoundTrip(f, None);
    RunLegal(Nil, Nil, before);
    RunLegal(ApplyAll(Nil, RunNotes(Nil, before)), f, after);
    var notes := saved + RunNotes(f, after);
    forall i | 0 <= i < |notes| ensures Readable(notes[i]) {
      if i < |saved| { assert notes[i] == RunNotes(Nil, before)[|early| + i]; }
    }
    ProcessReadable(Snapshot(f), notes);
    SnapshotConverges(before, after, early, saved);
  }
}
