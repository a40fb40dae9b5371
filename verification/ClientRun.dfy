/** A client session on the heap: what arrives before the listing is saved, the listing is adopted, and everything
    else is processed as it comes. */
module ClientRun {
  import opened Basics
  import opened Forests
  import opened Media
  import opened Shapes
  import opened Replica
  import opened Simulation
  import opened Delivery
  import opened Snapshots
  import opened MediaSets
  import opened Control
  import Listing

  /** Unique sorted siblings ascend, so the sets keep the listing of a daemon as it is. */
  lemma {:induction false} SortedAscends<T>(f: Forest<T>)
    requires Unique(f) && Sorted(f)
    ensures Ascending(f)
  {
    if f.Node? {
      SortedAscends(f.kids);
      SortedAscends(f.next);
      if f.next.Node? { LessTotal(f.path, f.next.path); }
    }
  }

  lemma ListingKept(f: Forest<Media>)
    requires Sound(f)
    ensures Collected(Snapshot(f), Nil) == Snapshot(f)
  {
    hide Proper;
    MapPaths(f, Conveyed);
    MapPaths(Map(f, Conveyed), AsDevice);
    SortedAscends(Snapshot(f));
    CollectedAscending(Snapshot(f), Nil);
  }

  lemma NextLine(f: Forest<Device>, lines: seq<Message>, i: nat)
    requires i < |lines|
    ensures var c := Received(lines[i]);
      Commands(lines[i..]) == [c] + Commands(lines[i + 1..])
      && ProcessAll(f, Commands(lines[i..])) == ProcessAll(Process(f, c).0, Commands(lines[i + 1..]))
  {
    hide Process, Received;
    assert lines[i..][0] == lines[i] && lines[i..][1..] == lines[i + 1..];
    assert Commands(lines[i..])[1..] == Commands(lines[i + 1..]);
  }

  lemma NoLineLeft(f: Forest<Device>, lines: seq<Message>)
    ensures Commands(lines[|lines|..]) == [] && lines[0..] == lines && ProcessAll(f, []) == f
  {}

  method Receive(client: Control, lines: seq<Message>) returns (ghost more: set<RemovableMedia>)
    requires client.Valid()
    modifies client, Nodes(client.shape)
    ensures client.Valid() && fresh(more) && Nodes(client.shape) <= old(Nodes(client.shape)) + more
    ensures client.initialized == old(client.initialized)
    ensures old(client.initialized) ==>
      client.Devices() == ProcessAll(old(client.Devices()), Commands(lines)) && client.saved == old(client.saved)
    ensures !old(client.initialized) ==>
      client.Devices() == old(client.Devices()) && client.saved == old(client.saved) + Commands(lines)
  {
    hide Nodes, Process, Received, Commands, ProcessAll, Contents, Tree, Roots, LinksOf, CellsOf;
    NoLineLeft(client.Devices(), lines);
    ghost var before, was, start, saved := Nodes(client.shape), client.initialized, client.Devices(), client.saved;
    more := {};
    for i := 0 to |lines|
      invariant client.Valid() && fresh(more) && Nodes(client.shape) <= before + more && client.initialized == was
      invariant was ==>
        ProcessAll(start, Commands(lines)) == ProcessAll(client.Devices(), Commands(lines[i..]))
          && client.saved == saved
      invariant !was ==> client.Devices() == start && client.saved + Commands(lines[i..]) == saved + Commands(lines)
    {
      NextLine(client.Devices(), lines, i);
      ghost var added := client.Callback(Received(lines[i]));
      more := more + added;
    }
    NoLineLeft(client.Devices(), lines);
  }

  lemma SessionAgrees(before: seq<Event>, after: seq<Event>, early: seq<Note>, saved: seq<Note>,
                      first: seq<Note>, rest: seq<Note>)
    requires FairRun(Nil, before) && FairRun(RunForest(Nil, before), after)
    requires RunNotes(Nil, before) == early + saved && RunNotes(RunForest(Nil, before), after) == first + rest
    ensures var f := RunForest(Nil, before);
      var start := ProcessAll(Collected(Snapshot(f), Nil), Commands(Wires(saved + first)));
      (Agrees(ProcessAll(start, Commands(Wires(rest))), RunForest(f, after)) <==> Discloses(saved + first + rest, f))
      && Delivered(Wires(saved + first + rest)) == Wires(saved + first + rest)
  {
    hide Process, Received, Agrees, Dispatch, Fair, Discloses, Commands, Wires, Collected, Sound, ProcessAll;
    hide Listing.Rebuild, Listing.Preorder, Listing.Lines;
    var f := RunForest(Nil, before);
    assert saved + first + rest == saved + (first + rest);
    ReplicaFollowsDaemon(before);
    ListingKept(f);
    SnapshotListed(f);
    ListThenReplay(before, after, early, saved);
    WiresAppend(saved + first, rest);
    CommandsAppend(Wires(saved + first), Wires(rest));
    ProcessAppend(Snapshot(f), Commands(Wires(saved + first)), Commands(Wires(rest)));
  }

  /** The listing of a daemon is read as what its tree conveys. */
  lemma SnapshotListed(f: Forest<Media>)
    requires Sound(f)
    ensures Listing.Rebuild(Nil, Listing.Lines(Listing.Preorder(f, ROOT_PATH)), None) == Some(Map(f, Conveyed))
  {
    SoundTransmissible(f);
    Listing.ListAllRoundTrip(f, None);
  }

  /** However a fair run is cut by the start of the session, by the printing of the listing and by its adoption, the
      nodes of the client and the daemon's tree agree in the end exactly if each device whose mount point the listing
      hides is removed, changed, mounted or unmounted in the lines that the client processes. The lines of `first`
      were sent after the listing and arrive before it is adopted. */
  method Session(before: seq<Event>, after: seq<Event>, ghost early: seq<Note>, saved: seq<Note>, first: seq<Note>,
                 rest: seq<Note>)
    returns (client: Control)
    requires FairRun(Nil, before) && FairRun(RunForest(Nil, before), after)
    requires RunNotes(Nil, before) == early + saved && RunNotes(RunForest(Nil, before), after) == first + rest
    ensures client.Valid() && client.initialized
    ensures var f := RunForest(Nil, before);
      (Agrees(client.Devices(), RunForest(f, after)) <==> Discloses(saved + first + rest, f))
      && Delivered(Wires(saved + first + rest)) == Wires(saved + first + rest)
  {
    hide Nodes, Process, Received, Agrees, Dispatch, Fair, FairRun, Discloses, Commands, Wires, Collected, ProcessAll,
      Snapshot;
    SessionAgrees(before, after, early, saved, first, rest);
    client := new Control();
    ghost var none := Receive(client, Wires(saved + first));
    assert client.saved == Commands(Wires(saved + first));
    client.PopulateDevices(Some(Snapshot(RunForest(Nil, before))));
    ghost var more := Receive(client, Wires(rest));
  }
}
