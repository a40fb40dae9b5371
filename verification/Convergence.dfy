/** The lines of a fair run: they form a legal log, clients can read all of them, and a client that processes
    them from the start ends up with the daemon's tree. */
module Convergence {
  import opened Forests
  import opened Media
  import opened Daemon
  import opened Mounts
  import opened Replica
  import opened Simulation
  import opened CatchUp
  import opened Delivery
  import Labels

  // ----- removals announce leaves only -----

  /** The forest hangs in the replica, with the same parents and nothing else below it. */
  ghost predicate Embedded(r: Forest<Device>, g: Forest<Media>, above: string) {
    Paths(g) <= Paths(r)
    && (forall x :: x in Paths(g) ==> ParentOf(r, x, ROOT_PATH) == ParentOf(g, x, above))
    && (forall x :: x in Paths(r) && ParentOf(r, x, ROOT_PATH) in Paths(g) ==> x in Paths(g))
  }

  /** The replica after some paths left it, everything else being as before. */
  ghost predicate Without(r: Forest<Device>, r': Forest<Device>, gone: set<string>) {
    Tidy(r') && Paths(r') == Paths(r) - gone
    && forall x :: x in Paths(r') ==> ParentOf(r', x, ROOT_PATH) == ParentOf(r, x, ROOT_PATH)
  }

  lemma EmbeddedParts(r: Forest<Device>, g: Forest<Media>, above: string)
    requires g.Node? && Unique(g) && above !in Paths(g) && Embedded(r, g, above)
    ensures Embedded(r, g.kids, g.path)
    ensures forall r' :: Without(r, r', Paths(g.kids)) ==> g.path in Paths(r') && IsLeaf(r', g.path)
    ensures forall r' :: Without(r, r', Paths(g.kids) + {g.path}) ==> Embedded(r', g.next, above)
  {
    forall x | x in Paths(g.kids) ensures ParentOf(r, x, ROOT_PATH) == ParentOf(g.kids, x, g.path) {
      assert ParentOf(g, x, above) == ParentOf(g.kids, x, g.path);
    }
    forall x | x in Paths(r) && ParentOf(r, x, ROOT_PATH) in Paths(g) && x !in Paths(g.kids)
      ensures x in Paths(g) && ParentOf(r, x, ROOT_PATH) !in Paths(g.kids) + {g.path}
    {
      if x != g.path { ParentInside(g.next, x, above); }
    }
    forall r' | Without(r, r', Paths(g.kids) + {g.path}) ensures Embedded(r', g.next, above) {
      forall x | x in Paths(g.next) ensures ParentOf(r', x, ROOT_PATH) == ParentOf(g.next, x, above) {
        assert ParentOf(g, x, above) == ParentOf(g.next, x, above);
      }
    }
  }

  lemma GoodbyeLegal(r: Forest<Device>, p: string, m: Media)
    requires Tidy(r) && p in Paths(r) && IsLeaf(r, p)
    ensures var bye := UnmountNotes(p, m) + [Removed(p)]; LegalLog(r, bye) && Without(r, ApplyAll(r, bye), {p})
  {
    var r1 := ApplyAll(r, UnmountNotes(p, m));
    if m.mnt.Some? {
      var n := Unmounted(p, m.mnt.value);
      ApplyOne(r, n);
      ApplyPaths(r, n);
      ApplyTidy(r, n);
      assert UnmountNotes(p, m) == [n] && [n][1..] == [];
      forall x | x in Paths(r) ensures ParentOf(r1, x, ROOT_PATH) == ParentOf(r, x, ROOT_PATH) { ApplyKeeps(r, n, x); }
    }
    assert Without(r, r1, {});
    var n := Removed(p);
    ApplyOne(r1, n);
    ApplyPaths(r1, n);
    ApplyTidy(r1, n);
    forall x | x in Paths(Apply(r1, n)) ensures ParentOf(Apply(r1, n), x, ROOT_PATH) == ParentOf(r1, x, ROOT_PATH) {
      ApplyKeeps(r1, n, x);
    }
    LegalAppend(r, UnmountNotes(p, m), [n]);
    ApplyAppend(r, UnmountNotes(p, m), [n]);
    assert [n][1..] == [];
  }

  lemma WithoutTwice(r: Forest<Device>, r': Forest<Device>, r'': Forest<Device>, a: set<string>, b: set<string>)
    requires Without(r, r', a) && Without(r', r'', b)
    ensures Without(r, r'', a + b)
  {}

  lemma FarewellParts(r: Forest<Device>, g: Forest<Media>, above: string)
    requires Unique(g) && above !in Paths(g)
    ensures g.Nil? ==>
      Farewell(g) == [] && Paths(g) == {} && (Tidy(r) ==> LegalLog(r, []) && Without(r, ApplyAll(r, []), {}))
    ensures g.Node? ==>
      Farewell(g) == Farewell(g.kids) + (UnmountNotes(g.path, g.data) + [Removed(g.path)]) + Farewell(g.next)
      && Paths(g) == Paths(g.kids) + {g.path} + Paths(g.next)
      && Unique(g.kids) && g.path !in Paths(g.kids) && Unique(g.next) && above !in Paths(g.next)
  {
    if g.Node? {
      assert Farewell(g) == Farewell(g.kids) + (UnmountNotes(g.path, g.data) + [Removed(g.path)]) + Farewell(g.next);
    }
  }

  lemma {:induction false} FarewellLegal(r: Forest<Device>, g: Forest<Media>, above: string)
    requires Tidy(r) && Unique(g) && above !in Paths(g) && Embedded(r, g, above)
    ensures LegalLog(r, Farewell(g)) && Without(r, ApplyAll(r, Farewell(g)), Paths(g))
    decreases g
  {
    hide *;
    FarewellParts(r, g, above);
    if g.Node? {
      var kids, bye, rest := Farewell(g.kids), UnmountNotes(g.path, g.data) + [Removed(g.path)], Farewell(g.next);
      EmbeddedParts(r, g, above);
      FarewellLegal(r, g.kids, g.path);
      var r1 := ApplyAll(r, kids);
      WithoutTidy(r, r1, Paths(g.kids));
      GoodbyeLegal(r1, g.path, g.data);
      var r2 := ApplyAll(r1, bye);
      WithoutTwice(r, r1, r2, Paths(g.kids), {g.path});
      WithoutTidy(r1, r2, {g.path});
      FarewellLegal(r2, g.next, above);
      WithoutTwice(r, r2, ApplyAll(r2, rest), Paths(g.kids) + {g.path}, Paths(g.next));
      LegalAppend(r, kids + bye, rest);
      LegalAppend(r, kids, bye);
      ApplyAppend(r, kids + bye, rest);
      ApplyAppend(r, kids, bye);
    }
  }

  lemma WithoutTidy(r: Forest<Device>, r': Forest<Device>, gone: set<string>)
    requires Without(r, r', gone)
    ensures Tidy(r')
  {}

  /** A subtree of the tree the replica agrees with is embedded in it. */
  lemma {:induction false} SubtreeEmbedded(f: Forest<Media>, p: string, top: string)
    requires Unique(f) && top !in Paths(f) && p in Paths(f)
    ensures var g := Subtree(f, p);
      Unique(g) && Paths(g) <= Paths(f) && ParentOf(f, p, top) !in Paths(g)
      && (forall x :: x in Paths(g) ==> ParentOf(f, x, top) == ParentOf(g, x, ParentOf(f, p, top)))
      && (forall x :: x in Paths(f) && ParentOf(f, x, top) in Paths(g) ==> x in Paths(g))
  {
    var g := Subtree(f, p);
    if f.path == p {
      forall x | x in Paths(f.next) ensures ParentOf(f, x, top) !in Paths(g) { ParentInside(f.next, x, top); }
    } else if p in Paths(f.kids) {
      SubtreeEmbedded(f.kids, p, f.path);
      forall x | x in Paths(f.next) ensures ParentOf(f, x, top) !in Paths(g) { ParentInside(f.next, x, top); }
    } else {
      SubtreeEmbedded(f.next, p, top);
      forall x | x in Paths(f.kids) ensures ParentOf(f, x, top) !in Paths(g) { ParentInside(f.kids, x, f.path); }
    }
  }

  lemma {:induction false} PresentNotesLegal(r: Forest<Device>, notes: seq<Note>)
    requires Tidy(r)
    requires forall i :: 0 <= i < |notes| ==> !notes[i].Added? && !notes[i].Removed? && notes[i].path in Paths(r)
    ensures LegalLog(r, notes)
    decreases |notes|
  {
    if notes != [] {
      ApplyTidy(r, notes[0]);
      ApplyPaths(r, notes[0]);
      PresentNotesLegal(Apply(r, notes[0]), notes[1..]);
    }
  }

  // ----- one event's notes are legal and readable -----

  lemma CheckNotesPresent(f: Forest<Media>, table: seq<Entry>)
    requires Unique(f) && CountersFit(f)
    ensures forall i :: 0 <= i < |CheckMounts(f, table).1| ==> CheckMounts(f, table).1[i].path in Paths(f)
  {
    hide CheckMounts;
    var notes := CheckMounts(f, table).1;
    CheckMountsMeaning(f, table);
    forall i | 0 <= i < |notes| ensures notes[i].path in Paths(f) { AboutHolds(notes, i); }
  }

  lemma {:induction false} FarewellPaths(g: Forest<Media>)
    ensures forall i :: 0 <= i < |Farewell(g)| ==>
      Farewell(g)[i].path in Paths(g) && (Farewell(g)[i].Unmounted? || Farewell(g)[i].Removed?)
  {
    if g.Node? {
      FarewellPaths(g.kids);
      FarewellPaths(g.next);
    }
  }

  lemma AddLegal(r: Forest<Device>, f: Forest<Media>, e: Event)
    requires Paths(r) == Paths(f) && e.Add? && Fair(f, e)
    ensures LegalLog(r, Dispatch(f, e).notes)
  {
    hide Apply, Insert, Labels.Decoded;
    var notes := Dispatch(f, e).notes;
    if notes != [] { assert notes[1..] == []; }
  }

  lemma ChangePresent(f: Forest<Media>, e: Event)
    requires e.Change?
    ensures var notes := Dispatch(f, e).notes;
      forall i :: 0 <= i < |notes| ==> !notes[i].Added? && !notes[i].Removed? && notes[i].path in Paths(f)
  {
    hide Update, ParentOf, Labels.Matches, Labels.Decoded;
    FindIffIn(f, e.path);
  }

  lemma StepLegal(r: Forest<Device>, f: Forest<Media>, e: Event)
    requires Agrees(r, f) && Sound(f) && Fair(f, e) && !Stops(Dispatch(f, e).outcome)
    ensures Tidy(r) && LegalLog(r, Dispatch(f, e).notes)
  {
    hide CheckMounts, Farewell, Sorted, CountersFit, Remove, Update, Insert, AddMedia, ChangeMedia, LegalLog, Fair;
    AgreesPaths(r, f);
    ProperPaths(f);
    var notes := Dispatch(f, e).notes;
    match e
    case Add(_, _, _) => AddLegal(r, f, e);
    case Drop(p) =>
      PresentNotesLegal(r, []);
      if p in Paths(f) {
        SubtreeEmbedded(f, p, ROOT_PATH);
        FarewellLegal(r, Subtree(f, p), ParentOf(f, p, ROOT_PATH));
      }
    case Change(_, _, _) =>
      ChangePresent(f, e);
      PresentNotesLegal(r, notes);
    case Check(table) =>
      CheckNotesPresent(f, table);
      MountOnlyCheck(f, table);
      PresentNotesLegal(r, notes);
  }

  predicate AllReadable(notes: seq<Note>) { forall i :: 0 <= i < |notes| ==> Readable(notes[i]) }

  lemma StepReadable(f: Forest<Media>, e: Event)
    requires Sane(f) && Telling(f, e) && !Stops(Dispatch(f, e).outcome)
    ensures AllReadable(Dispatch(f, e).notes)
  {
    hide CheckMounts, Farewell, Remove, Update, Insert, Labels.Matches, Labels.Decoded;
    ProperPaths(f);
    match e
    case Add(_, _, _) =>
    case Drop(p) =>
      if p in Paths(f) {
        PruneSubtree(f, p);
        FarewellPaths(Subtree(f, p));
      }
    case Change(_, p, _) =>
      FindIffIn(f, p);
      if p in Paths(f) { ParentInside(f, p, ROOT_PATH); }
    case Check(table) => CheckReadable(f, table);
  }

  /** Whatever the table says, the lines of a check can be read. */
  lemma CheckReadable(f: Forest<Media>, table: seq<Entry>)
    requires Sane(f)
    ensures AllReadable(CheckMounts(f, table).1)
  {
    hide CheckMounts;
    ProperPaths(f);
    CheckNotesPresent(f, table);
    MountOnlyCheck(f, table);
  }

  // ----- whole runs -----

  lemma {:induction false} RunLegal(r: Forest<Device>, f: Forest<Media>, run: seq<Event>)
    requires Agrees(r, f) && Sound(f) && FairRun(f, run)
    ensures LegalLog(r, RunNotes(f, run)) && AllReadable(RunNotes(f, run))
    decreases |run|
  {
    if run != [] {
      hide Dispatch, Agrees, Sound, Fair, Readable;
      var effect := Dispatch(f, run[0]);
      StepSound(f, run[0]);
      StepAgrees(r, f, run[0]);
      StepLegal(r, f, run[0]);
      StepReadable(f, run[0]);
      RunLegal(ApplyAll(r, effect.notes), effect.forest, run[1..]);
      LegalAppend(r, effect.notes, RunNotes(effect.forest, run[1..]));
    }
  }

  /** A client that processes, from nothing, every line of a fair run holds the daemon's tree. */
  lemma ClientFollowsDaemon(run: seq<Event>)
    requires FairRun(Nil, run)
    ensures var lines := Wires(RunNotes(Nil, run));
      Delivered(lines) == lines && Agrees(ProcessAll(Nil, Commands(lines)), RunForest(Nil, run))
  {
    RunLegal(Nil, Nil, run);
    ProcessReadable(Nil, RunNotes(Nil, run));
    ReplicaFollowsDaemon(run);
  }

  lemma EmptyAgrees()
    ensures Agrees(Nil, Nil) && Sound(Nil)
  {}
}
