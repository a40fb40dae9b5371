/** The life of one device in the notifications of a run. */
module MountHistory {
  import opened Basics
  import opened Forests
  import opened Media
  import opened Daemon
  import Labels
  import opened Mounts
  import opened Simulation

  datatype Life = Absent | Present(mnt: Option<string>)

  /** The next stage, or nothing if the note is out of order: devices appear unmounted, unmounts name the
      current mount point, and only unmounted devices change or leave. */
  function Next(l: Life, n: Note): Option<Life> {
    match (l, n)
    case (Absent, Added(_, _, m)) => if m.mnt.None? then Some(Present(None)) else None
    case (Present(None), Mounted(_, mnt, _)) => Some(Present(Some(mnt)))
    case (Present(Some(x)), Unmounted(_, mnt)) => if x == mnt then Some(Present(None)) else None
    case (Present(None), Changed(_, _, m)) => if m.mnt.None? then Some(l) else None
    case (Present(None), Removed(_)) => Some(Absent)
    case _ => None
  }

  function Lived(l: Life, notes: seq<Note>): Option<Life>
    decreases |notes|
  {
    if notes == [] then Some(l)
    else match Next(l, notes[0])
      case None => None
      case Some(l') => Lived(l', notes[1..])
  }

  lemma {:induction false} LivedAppend(l: Life, a: seq<Note>, b: seq<Note>)
    requires Lived(l, a).Some?
    ensures Lived(l, a + b) == Lived(Lived(l, a).value, b)
    decreases |a|
  {
    if a == [] {
      assert a + b == b;
    } else {
      assert (a + b)[0] == a[0] && (a + b)[1..] == a[1..] + b;
      LivedAppend(Next(l, a[0]).value, a[1..], b);
    }
  }

  lemma LivedFew(l: Life, n: Note, n': Note)
    ensures Lived(l, []) == Some(l)
    ensures Lived(l, [n]) == Next(l, n)
    ensures Lived(l, [n, n']) == if Next(l, n).None? then None else Next(Next(l, n).value, n')
  {
    LivedOne(l, n);
    if Next(l, n).Some? {
      var l' := Next(l, n).value;
      assert [n, n'][0] == n && [n, n'][1..] == [n'];
      assert Lived(l, [n, n']) == Lived(l', [n']);
      LivedOne(l', n');
    }
  }

  lemma LivedOne(l: Life, n: Note)
    ensures Lived(l, [n]) == Next(l, n)
  {
    assert [n][1..] == [];
  }

  function LifeOf(f: Forest<Media>, p: string): Life {
    if p in Paths(f) then Present(Get(f, p).mnt) else Absent
  }

  // ----- one event -----

  lemma AboutFew(n: Note, n': Note, p: string)
    requires n.path == n'.path
    ensures About([n], p) == if n.path == p then [n] else []
    ensures About([n, n'], p) == if n.path == p then [n, n'] else []
  {
    assert [n][1..] == [] && [n'][1..] == [] && [n, n'][1..] == [n'];
  }

  lemma AboutGoodbye(g: string, m: Media, p: string)
    ensures About(UnmountNotes(g, m) + [Removed(g)], p) == if g == p then UnmountNotes(g, m) + [Removed(g)] else []
  {
    var gone := Removed(g);
    if m.mnt.Some? {
      var down := Unmounted(g, m.mnt.value);
      assert UnmountNotes(g, m) + [gone] == [down, gone];
      AboutFew(down, gone, p);
    } else {
      assert UnmountNotes(g, m) + [gone] == [gone];
      AboutFew(gone, gone, p);
    }
  }

  lemma {:induction false} AboutFarewell(g: Forest<Media>, p: string)
    requires Unique(g)
    ensures About(Farewell(g), p) == if p in Paths(g) then UnmountNotes(p, Get(g, p)) + [Removed(p)] else []
    decreases g
  {
    hide About, UnmountNotes;
    if g.Node? {
      var bye := UnmountNotes(g.path, g.data) + [Removed(g.path)];
      assert Farewell(g) == Farewell(g.kids) + bye + Farewell(g.next);
      AboutAppend(Farewell(g.kids) + bye, Farewell(g.next), p);
      AboutAppend(Farewell(g.kids), bye, p);
      AboutFarewell(g.kids, p);
      AboutFarewell(g.next, p);
      AboutGoodbye(g.path, g.data, p);
    } else {
      AboutNothing(p);
    }
  }

  lemma AboutNothing(p: string)
    ensures About([], p) == []
  {}

  /** Removal drops exactly the paths of the subtree, each with its own data. */
  lemma {:induction false} RemovedSubtree(f: Forest<Media>, p: string, q: string)
    requires Unique(f) && p in Paths(f)
    ensures Paths(Remove(f, p)) == Paths(f) - Paths(Subtree(f, p)) && Unique(Subtree(f, p))
      && Paths(Subtree(f, p)) <= Paths(f)
    ensures q in Paths(Subtree(f, p)) ==> Get(Subtree(f, p), q) == Get(f, q)
    ensures q in Paths(Remove(f, p)) ==> Get(Remove(f, p), q) == Get(f, q)
  {
    if f.path != p {
      if p in Paths(f.kids) { RemovedSubtree(f.kids, p, q); } else { RemovedSubtree(f.next, p, q); }
    }
  }

  lemma DropLived(f: Forest<Media>, p: string, q: string)
    requires Unique(f) && p in Paths(f)
    ensures Lived(LifeOf(f, q), About(Farewell(Subtree(f, p)), q)) == Some(LifeOf(Remove(f, p), q))
  {
    var g := Subtree(f, p);
    RemovedSubtree(f, p, q);
    AboutFarewell(g, q);
    var down, gone := Unmounted(q, if q in Paths(f) then Text(Get(f, q).mnt) else ""), Removed(q);
    LivedFew(LifeOf(f, q), down, gone);
    LivedFew(LifeOf(f, q), gone, gone);
    if q in Paths(g) {
      assert About(Farewell(g), q) == if Get(f, q).mnt.Some? then [down, gone] else [gone];
    }
  }

  lemma ChangeLived(f: Forest<Media>, parent: string, p: string, r: Report, q: string)
    requires Unique(f) && r.mnt.None? && ChangeMedia(f, parent, p, r).outcome.Success?
    ensures var effect := ChangeMedia(f, parent, p, r);
      Lived(LifeOf(f, q), About(effect.notes, q)) == Some(LifeOf(effect.forest, q))
  {
    hide Labels.Matches, Labels.Decoded, Update, ParentOf, Lived, About, Unique;
    FindIffIn(f, p);
    var effect := ChangeMedia(f, parent, p, r);
    var m, told := Get(f, p), effect.notes[|effect.notes| - 1];
    var stored := told.media.(kind := m.kind, subtype := m.subtype);
    assert effect.forest == Update(f, p, stored);
    FindUpdate(f, p, stored, q);
    var down := Unmounted(p, Text(m.mnt));
    assert effect.notes == if m.mnt.Some? then [down, told] else [told];
    AboutFew(down, told, q);
    AboutFew(told, told, q);
    LivedFew(LifeOf(f, q), down, told);
    LivedFew(LifeOf(f, q), told, told);
    if q in Paths(f) { assert Find(effect.forest, q) == Some(Get(effect.forest, q)); }
  }

  lemma DifferenceLived(p: string, m: Media, m': Media)
    ensures Lived(Present(m.mnt), Difference(p, m, m')) == Some(Present(m'.mnt))
  {
    var down, up := Unmounted(p, Text(m.mnt)), Mounted(p, Text(m'.mnt), Text(m'.opts));
    LivedFew(Present(m.mnt), down, up);
    LivedFew(Present(m.mnt), up, up);
    assert Difference(p, m, m') ==
      if m.mnt == m'.mnt then [] else if m.mnt.None? then [up] else if m'.mnt.None? then [down] else [down, up];
  }

  lemma AddLived(f: Forest<Media>, parent: string, p: string, m: Media, q: string)
    requires p !in Paths(f) && m.mnt.None? && (parent == ROOT_PATH || parent in Paths(f))
    ensures Lived(LifeOf(f, q), About([Added(parent, p, m)], q)) == Some(LifeOf(Insert(f, parent, p, m), q))
  {
    var n, g := Added(parent, p, m), Insert(f, parent, p, m);
    AboutFew(n, n, q);
    LivedFew(LifeOf(f, q), n, n);
    InsertSortedKeeps(f, p, m);
    InsertUnderKeeps(f, parent, p, m);
    if q in Paths(g) { assert Find(g, q) == Some(Get(g, q)); }
  }

  /** Whatever an event does to a device, it is a legal step of the device's life, as long as paths are unique. */
  lemma StepLived(f: Forest<Media>, e: Event, q: string)
    requires Unique(f) && CountersFit(f) && New(f, e) && !Stops(Dispatch(f, e).outcome)
    ensures Lived(LifeOf(f, q), About(Dispatch(f, e).notes, q)) == Some(LifeOf(Dispatch(f, e).forest, q))
  {
    var effect := Dispatch(f, e);
    match e
    case Add(parent, p, _) =>
      if effect.outcome.Success? { AddLived(f, parent, p, effect.notes[0].media, q); }
    case Drop(p) => if p in Paths(f) { DropLived(f, p, q); }
    case Change(parent, p, r) =>
      if effect.outcome.Success? { ChangeLived(f, parent, p, r.(mnt := None, opts := None), q); }
    case Check(table) =>
      CheckMountsMeaning(f, table);
      SettleAllKeeps(f, table);
      if q in Paths(f) { DifferenceLived(q, Get(f, q), Settled(q, Get(f, q), table)); }
  }

  // ----- whole runs -----

  /** Devices that are added are new, and no event stops the daemon. */
  predicate NewRun(f: Forest<Media>, run: seq<Event>)
    decreases |run|
  {
    run == []
    || (New(f, run[0]) && !Stops(Dispatch(f, run[0]).outcome) && NewRun(Dispatch(f, run[0]).forest, run[1..]))
  }

  /** New devices are all it takes to keep paths unique. */
  lemma StepUnique(f: Forest<Media>, e: Event)
    requires Unique(f) && CountersFit(f) && New(f, e)
    ensures Unique(Dispatch(f, e).forest)
  {
    hide CheckMounts, Update, InsertSorted, InsertUnder, Remove, Labels.Decoded, Labels.Matches, ParentOf;
    match e
    case Add(parent, p, r) =>
      var effect := Dispatch(f, e);
      if effect.outcome.Success? {
        InsertSortedKeeps(f, p, effect.notes[0].media);
        InsertUnderKeeps(f, parent, p, effect.notes[0].media);
      }
    case Drop(p) => RemoveKeeps(f, p);
    case Change(_, p, _) =>
      forall m: Media ensures Unique(Update(f, p, m)) { UpdateKeepsShape(f, p, m); }
    case Check(table) =>
      CheckMountsMeaning(f, table);
      SettleAllKeeps(f, table);
  }

  /** In every such run, the notes about any path tell a well-ordered life that ends as the tree has it. */
  lemma {:induction false} RunLived(f: Forest<Media>, run: seq<Event>, q: string)
    requires Unique(f) && CountersFit(f) && NewRun(f, run)
    ensures Lived(LifeOf(f, q), About(RunNotes(f, run), q)) == Some(LifeOf(RunForest(f, run), q))
    ensures Unique(RunForest(f, run)) && CountersFit(RunForest(f, run))
    decreases |run|
  {
    hide Dispatch, Unique, CountersFit, New, LifeOf;
    if run != [] {
      var effect := Dispatch(f, run[0]);
      var later := RunNotes(effect.forest, run[1..]);
      StepUnique(f, run[0]);
      StepCounters(f, run[0]);
      StepLived(f, run[0], q);
      RunLived(effect.forest, run[1..], q);
      AboutAppend(effect.notes, later, q);
      LivedAppend(LifeOf(f, q), About(effect.notes, q), About(later, q));
    }
  }

  /** Fair runs are among them. */
  lemma {:induction false} FairIsNew(f: Forest<Media>, run: seq<Event>)
    requires FairRun(f, run)
    ensures NewRun(f, run)
    decreases |run|
  {
    hide Dispatch;
    if run != [] { FairIsNew(Dispatch(f, run[0]).forest, run[1..]); }
  }

  /** Mount and unmount notes take turns. */
  predicate TakeTurns(notes: seq<Note>, mounted: bool)
    decreases |notes|
  {
    notes == []
    || (if notes[0].Mounted? then !mounted && TakeTurns(notes[1..], true)
        else if notes[0].Unmounted? then mounted && TakeTurns(notes[1..], false)
        else TakeTurns(notes[1..], mounted))
  }

  lemma {:induction false} LivesTakeTurns(l: Life, notes: seq<Note>)
    requires Lived(l, notes).Some?
    ensures TakeTurns(notes, l.Present? && l.mnt.Some?)
    decreases |notes|
  {
    if notes != [] { LivesTakeTurns(Next(l, notes[0]).value, notes[1..]); }
  }

  /** In every run whose new devices are new, whatever else the events report: the mounts and unmounts announced for a
      device strictly alternate, starting with a mount, and between events every counter is 1 for a mounted device and
      0 for another. */
  lemma MountsAlternate(run: seq<Event>, q: string)
    requires NewRun(Nil, run)
    ensures TakeTurns(About(RunNotes(Nil, run), q), false)
    ensures CountersFit(RunForest(Nil, run))
  {
    RunLived(Nil, run, q);
    LivesTakeTurns(Absent, About(RunNotes(Nil, run), q));
  }
}
