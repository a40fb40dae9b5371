/** Exactly which runs a client follows: at every point of the run its handle has accepted all lines, and its replica
    agrees with the daemon's tree. */
module Following {
  import opened Forests
  import opened Media
  import opened Daemon
  import opened Replica
  import opened Mounts
  import opened Simulation
  import opened Convergence
  import opened Delivery
  import opened Divergence

  /** No event stops the daemon. */
  predicate Lasts(f: Forest<Media>, run: seq<Event>)
    decreases |run|
  {
    run == [] || (!Stops(Dispatch(f, run[0]).outcome) && Lasts(Dispatch(f, run[0]).forest, run[1..]))
  }

  predicate TellingRun(f: Forest<Media>, run: seq<Event>)
    decreases |run|
  {
    run == [] || (Telling(f, run[0]) && TellingRun(Dispatch(f, run[0]).forest, run[1..]))
  }

  /** After a run the client's handle is alive and its replica agrees with the tree. */
  ghost predicate Follows(r: Forest<Device>, f: Forest<Media>, run: seq<Event>) {
    var lines := Wires(RunNotes(f, run));
    Delivered(lines) == lines && Agrees(ProcessAll(r, Commands(lines)), RunForest(f, run))
  }

  // ----- one event -----

  lemma TellingFaithful(f: Forest<Media>, e: Event)
    requires Sane(f) && !Stops(Dispatch(f, e).outcome)
    ensures Telling(f, e) <==> Faithful(f, e) && AllAccepted(Dispatch(f, e).notes)
  {
    hide Agrees, SameType, Unseen, AllTold, Sane, Update, ParentOf, CheckMounts, Farewell;
    SaneMeans(f);
    if Telling(f, e) {
      StepReadable(f, e);
      ReadableDelivered(Dispatch(f, e).notes);
    }
    match e
    case Add(parent, p, report) => if Dispatch(f, e).outcome.Success? { var m := AddParts(f, parent, p, report); }
    case Drop(_) =>
    case Change(parent, p, report) =>
      if Dispatch(f, e).outcome.Success? { ChangeTold(f, parent, p, report); }
    case Check(_) =>
  }

  /** A change is only accepted if the state it announces is known. */
  lemma ChangeTold(f: Forest<Media>, parent: string, p: string, report: Report)
    requires Dispatch(f, Change(parent, p, report)).outcome.Success?
    ensures p in Paths(f) && (AllAccepted(Dispatch(f, Change(parent, p, report)).notes) ==> Reported(report))
  {
    hide Dispatch, Paths, Get;
    ChangeParts(f, parent, p, report);
    var notes := Dispatch(f, Change(parent, p, report)).notes;
    var n := Changed(parent, p, Told(Get(f, p), report));
    assert notes[|notes| - 1] == n;
    assert AllAccepted(notes) ==> Accepted(n);
  }

  /** One more event: the client goes on following exactly if the event tells everything. */
  lemma StepFollowsIff(r: Forest<Device>, f: Forest<Media>, e: Event)
    requires Agrees(r, f) && Sane(f) && !Stops(Dispatch(f, e).outcome)
    ensures AllAccepted(Dispatch(f, e).notes) && Agrees(Follow(r, f, e), Dispatch(f, e).forest) <==> Telling(f, e)
  {
    hide Agrees, Sane, Dispatch, Telling, Faithful, Follow;
    StepAgreesIff(r, f, e);
    TellingFaithful(f, e);
  }

  // ----- whole runs -----

  /** The same, event by event. */
  ghost predicate StaysWith(r: Forest<Device>, f: Forest<Media>, run: seq<Event>)
    decreases |run|
  {
    Agrees(r, f)
    && (run != [] ==>
          AllAccepted(Dispatch(f, run[0]).notes)
          && StaysWith(Follow(r, f, run[0]), Dispatch(f, run[0]).forest, run[1..]))
  }

  lemma {:induction false} StaysIffTelling(r: Forest<Device>, f: Forest<Media>, run: seq<Event>)
    requires Agrees(r, f) && Sane(f) && Lasts(f, run)
    ensures StaysWith(r, f, run) <==> TellingRun(f, run)
    decreases |run|
  {
    hide Agrees, Sane, Dispatch, Telling, Follow;
    if run != [] {
      var e := run[0];
      StepFollowsIff(r, f, e);
      if Telling(f, e) {
        StepSane(f, e);
        StaysIffTelling(Follow(r, f, e), Dispatch(f, e).forest, run[1..]);
      } else {
        var r', f' := Follow(r, f, e), Dispatch(f, e).forest;
        assert StaysWith(r', f', run[1..]) ==> Agrees(r', f');
      }
    }
  }

  /** The lines of an event and of what follows it. */
  lemma FollowsParts(r: Forest<Device>, f: Forest<Media>, e: Event, rest: seq<Event>)
    ensures Follows(r, f, [e] + rest) <==>
      AllAccepted(Dispatch(f, e).notes) && Follows(Follow(r, f, e), Dispatch(f, e).forest, rest)
    ensures Follows(r, f, []) <==> Agrees(r, f)
  {
    hide Dispatch, Agrees, Accepted, Process, Received, Wire;
    var effect := Dispatch(f, e);
    var notes, later := effect.notes, RunNotes(effect.forest, rest);
    RunMore(f, e, rest);
    WiresAppend(notes, later);
    CommandsAppend(Wires(notes), Wires(later));
    ProcessAppend(r, Commands(Wires(notes)), Commands(Wires(later)));
    SurvivesIff(notes);
    SurvivesIff(later);
    SurvivesIff(notes + later);
    AcceptedAppend(notes, later);
    NoLines(r, f);
  }

  lemma NoLines(r: Forest<Device>, f: Forest<Media>)
    ensures Wires(RunNotes(f, [])) == [] && RunForest(f, []) == f && ProcessAll(r, Commands([])) == r
      && Delivered([]) == []
  {}

  lemma AcceptedAppend(a: seq<Note>, b: seq<Note>)
    ensures AllAccepted(a + b) <==> AllAccepted(a) && AllAccepted(b)
  {
    hide Accepted;
    assert forall i :: 0 <= i < |a| ==> (a + b)[i] == a[i];
    assert forall i :: 0 <= i < |b| ==> (a + b)[|a| + i] == b[i];
  }

  lemma {:induction false} StaysIffFollows(r: Forest<Device>, f: Forest<Media>, run: seq<Event>)
    ensures StaysWith(r, f, run) <==> forall k :: 0 <= k <= |run| ==> Follows(r, f, run[..k])
    decreases |run|
  {
    hide Dispatch, Agrees, AllAccepted, Follow, Follows;
    assert run[..0] == [];
    if run == [] {
      FollowsParts(r, f, Drop(""), []);
    } else {
      var e, rest := run[0], run[1..];
      var r', f' := Follow(r, f, e), Dispatch(f, e).forest;
      FollowsParts(r, f, e, []);
      StaysIffFollows(r', f', rest);
      forall k | 1 <= k <= |run|
        ensures Follows(r, f, run[..k]) <==> AllAccepted(Dispatch(f, e).notes) && Follows(r', f', rest[..k - 1])
      {
        assert run[..k] == [e] + rest[..k - 1];
        FollowsParts(r, f, e, rest[..k - 1]);
      }
      forall k | 0 <= k <= |rest|
        ensures Follows(r, f, run[..k + 1]) <==> AllAccepted(Dispatch(f, e).notes) && Follows(r', f', rest[..k])
      {
      }
      assert rest[..0] == [];
    }
  }

  /** From the start, a client follows a run at every point exactly if each event tells everything: additions that
      succeed are of new, non-empty paths, no change that succeeds alters the type, stateful devices report a known
      state, and no device is mounted somewhere new with empty options. */
  lemma FollowsIff(run: seq<Event>)
    requires Lasts(Nil, run)
    ensures (forall k :: 0 <= k <= |run| ==> Follows(Nil, Nil, run[..k])) <==> TellingRun(Nil, run)
  {
    EmptyAgrees();
    StaysIffTelling(Nil, Nil, run);
    StaysIffFollows(Nil, Nil, run);
  }
}
