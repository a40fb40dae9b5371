/** The daemon at work on its linked list, event by event, and what its clients make of what it sends. */
module DaemonRun {
  import opened Basics
  import opened Forests
  import opened Media
  import opened Shapes
  import opened Mounts
  import opened Replica
  import opened Simulation
  import opened Delivery
  import opened Links
  import opened DeviceTree
  import Convergence
  import Daemon
  import MountCheck

  /** One event of the main loop. Device events of unknown type or subtype are skipped, and none carries mount data. */
  method Handle(t: DeviceTree, e: Event) returns (outcome: Daemon.Outcome, ghost more: set<MediaNode>)
    requires t.Valid() && t.Clean() && Daemon.CountersFit(t.Devices())
    modifies t, Nodes(t.shape)
    ensures t.Valid() && t.Clean() && fresh(more) && Nodes(t.shape) <= old(Nodes(t.shape)) + more
    ensures var effect := Dispatch(old(t.Devices()), e);
      t.Devices() == effect.forest && t.log == old(t.log) + Wires(effect.notes) && outcome == effect.outcome
  {
    hide Nodes, Linked, Distinct, Contents, LinksOf, Accounted, Daemon.AddMedia, Daemon.RemoveMedia,
      Daemon.ChangeMedia, CheckMounts;
    hide Daemon.CountersFit;
    ghost var was := Nodes(t.shape);
    assert allocated(was);
    more := {};
    match e {
    case Add(parent, path, r) =>
      if r.kind.UnknownKind? || r.subtype.UnknownSubtype? { return Daemon.Fail, {}; }
      outcome := t.AddMedia(parent, path, r.(mnt := None, opts := None));
      more := Nodes(t.shape) - was;
    case Drop(path) => outcome := t.RemoveMedia(path);
    case Change(parent, path, r) =>
      if r.kind.UnknownKind? || r.subtype.UnknownSubtype? { return Daemon.Fail, {}; }
      outcome := t.ChangeMedia(parent, path, r.(mnt := None, opts := None));
    case Check(table) => outcome := MountCheck.CheckMountChanges(t, Some(table));
    }
  }

  /** What is still to come leads where the run leads. */
  ghost predicate Ahead(f: Forest<Media>, log: seq<Message>, rest: seq<Event>, run: seq<Event>) {
    RunForest(f, rest) == RunForest(Nil, run) && log + Wires(RunNotes(f, rest)) == Wires(RunNotes(Nil, run))
  }

  lemma AheadStep(f: Forest<Media>, log: seq<Message>, e: Event, rest: seq<Event>, run: seq<Event>)
    requires Ahead(f, log, [e] + rest, run)
    ensures var effect := Dispatch(f, e); Ahead(effect.forest, log + Wires(effect.notes), rest, run)
  {
    hide Dispatch, Wires;
    var effect := Dispatch(f, e);
    assert ([e] + rest)[1..] == rest;
    WiresAppend(effect.notes, RunNotes(effect.forest, rest));
    assert log + (Wires(effect.notes) + Wires(RunNotes(effect.forest, rest)))
        == log + Wires(effect.notes) + Wires(RunNotes(effect.forest, rest));
  }

  lemma AheadEnds(f: Forest<Media>, log: seq<Message>, run: seq<Event>)
    ensures Ahead(Nil, [], run, run)
    ensures Ahead(f, log, [], run) ==> f == RunForest(Nil, run) && log == Wires(RunNotes(Nil, run))
  {
    hide Dispatch;
    assert log + [] == log;
  }

  lemma NextHandled(f: Forest<Media>, events: seq<Event>, i: nat)
    requires i < |events|
    ensures var effect := Dispatch(f, events[i]);
      Handled(f, events[i..]) ==
        [events[i]] + if Daemon.Stops(effect.outcome) then [] else Handled(effect.forest, events[i + 1..])
  {
    hide Dispatch;
    assert events[i..][0] == events[i] && events[i..][1..] == events[i + 1..];
  }

  lemma NoneLeft(f: Forest<Media>, events: seq<Event>)
    ensures Handled(f, events[|events|..]) == [] && events[0..] == events
  {}

  /** However a run goes, fair or not, the list and the lines sent are those of the run on forests up to the first
      event that stops the daemon, siblings are sorted, no node is lost or freed twice, and every counter tells whether
      its device is mounted. If the run is fair, a client that follows the lines from the start holds the daemon's
      devices. */
  method Run(events: seq<Event>) returns (t: DeviceTree)
    ensures t.Valid() && t.Clean() && Daemon.CountersFit(t.Devices()) && Sorted(t.Devices())
    ensures var run := Handled(Nil, events); t.Devices() == RunForest(Nil, run) && t.log == Wires(RunNotes(Nil, run))
    ensures FairRun(Nil, events) ==>
      Handled(Nil, events) == events && Delivered(t.log) == t.log
      && Agrees(ProcessAll(Nil, Commands(t.log)), t.Devices())
  {
    hide Nodes, Linked, Distinct, Contents, LinksOf, CellsOf, Accounted, Dispatch, Agrees, Wires, Commands, ProcessAll;
    hide Daemon.CountersFit, Sorted, Ahead, Handled, RunForest, RunNotes, FairRun;
    t := new DeviceTree();
    NothingYet();
    ghost var run := Handled(Nil, events);
    AheadEnds(Nil, [], run);
    NoneLeft(Nil, events);
    var i: nat := 0;
    var outcome := Daemon.Success;
    ghost var rest := run;
    while i < |events| && !Daemon.Stops(outcome)
      invariant i <= |events| && t.Valid() && t.Clean() && fresh(t) && fresh(Nodes(t.shape))
      invariant Daemon.CountersFit(t.Devices()) && Sorted(t.Devices()) && Ahead(t.Devices(), t.log, rest, run)
      invariant rest == if Daemon.Stops(outcome) then [] else Handled(t.Devices(), events[i..])
    {
      ghost var f, log := t.Devices(), t.log;
      NextHandled(f, events, i);
      rest := rest[1..];
      AheadStep(f, log, events[i], rest, run);
      StepCounters(f, events[i]);
      StepSorted(f, events[i]);
      ghost var more;
      outcome, more := Handle(t, events[i]);
      i := i + 1;
    }
    NoneLeft(t.Devices(), events);
    AheadEnds(t.Devices(), t.log, run);
    if FairRun(Nil, events) {
      FairHandled(Nil, events);
      Convergence.ClientFollowsDaemon(events);
    }
  }

  lemma NothingYet()
    ensures Sound(Nil) && Daemon.CountersFit(Nil) && Sorted<Media>(Nil) && Wires([]) == []
  {}
}
