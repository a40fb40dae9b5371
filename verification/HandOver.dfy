/** The worker thread of the client library lends its socket and buffer to a calling thread: a byte in a pipe asks
    for them, a byte in the feedback pipe grants them, a semaphore gives them back. */
module HandOver {
  import opened Basics

  /** The worker uses the buffer only while it is `Running`; it is `Parked` while it waits on the semaphore. */
  datatype Worker = Running | Granting | Parked | Dying | Gone

  /** A caller uses the buffer only while it is `Holding`. `Stopping` is between telling the worker to stop and
      posting the semaphore; `Refused` got the byte of a dead worker; `Joining` waits for the thread's end. */
  datatype Caller = Idle | Waiting | Holding | Refused | Stopping | Joining | Closed

  /** In `pipe` a true byte is a request and a false one the order to stop; in `feedback` a true byte is a grant
      and a false one the worker's last word. `abandoned` counts the waits that were given up. */
  datatype State = State(worker: Worker, caller: Caller, pipe: seq<bool>, feedback: seq<bool>, sem: nat, usable: bool,
    abandoned: nat)

  const INITIAL := State(Running, Idle, [], [], 0, true, 0)

  datatype Action =
    | WorkerWorks | WorkerReads | WorkerGrants | WorkerWakes | WorkerFails | WorkerDies
    | CallerBegins | CallerReceives | CallerWorks | CallerFinishes | CallerGivesUp(usable: bool) | CallerPosts
    | CallerTimesOut | CallerAborts | CallerCloses | CallerJoins

  /** A wait for the grant that does not complete. */
  predicate Abandons(a: Action) { a.CallerTimesOut? || a.CallerAborts? }

  /** One step of either thread, if it is possible. */
  function Act(s: State, a: Action): Option<State> {
    match a
    case WorkerWorks => if s.worker.Running? then Some(s) else None
    case WorkerReads =>
      if s.worker.Running? && s.pipe != []
        then Some(s.(worker := if s.pipe[0] then Granting else Dying, pipe := s.pipe[1..])) else None
    case WorkerGrants => if s.worker.Granting? then Some(s.(worker := Parked, feedback := s.feedback + [true]))
      else None
    case WorkerWakes => if s.worker.Parked? && s.sem > 0 then Some(s.(worker := Running, sem := s.sem - 1)) else None
    case WorkerFails => if s.worker.Running? then Some(s.(worker := Dying)) else None
    case WorkerDies => if s.worker.Dying? then Some(s.(worker := Gone, feedback := s.feedback + [false])) else None
    case CallerBegins =>
      if s.caller.Idle? && s.usable then Some(s.(caller := Waiting, pipe := s.pipe + [true])) else None
    case CallerReceives =>
      if s.caller.Waiting? && s.feedback != []
      then Some(s.(caller := if s.feedback[0] then Holding else Refused, feedback := s.feedback[1..])) else None
    case CallerWorks => if s.caller.Holding? then Some(s) else None
    case CallerFinishes => if s.caller.Holding? then Some(s.(caller := Idle, sem := s.sem + 1)) else None
    case CallerGivesUp(still) =>
      if s.caller.Holding? || s.caller.Refused?
      then Some(s.(caller := Stopping, pipe := s.pipe + [false], usable := still && s.caller.Holding? && s.usable))
        else None
    case CallerPosts => if s.caller.Stopping? then Some(s.(caller := Idle, sem := s.sem + 1)) else None
    case CallerTimesOut =>
      if s.caller.Waiting? then Some(s.(caller := Idle, sem := s.sem + 1, abandoned := s.abandoned + 1)) else None
    case CallerAborts =>
      if s.caller.Waiting?
      then Some(s.(caller := Stopping, pipe := s.pipe + [false], usable := false, abandoned := s.abandoned + 1))
        else None
    case CallerCloses => if s.caller.Idle? then Some(s.(caller := Joining, pipe := s.pipe + [false])) else None
    case CallerJoins => if s.caller.Joining? && s.worker.Gone? then Some(s.(caller := Closed)) else None
  }

  function Exec(s: State, run: seq<Action>): Option<State>
    decreases |run|
  {
    if run == [] then Some(s)
    else match Act(s, run[0])
      case None => None
      case Some(s') => Exec(s', run[1..])
  }

  /** The two threads never use the buffer and the socket at the same time. */
  predicate Exclusive(s: State) { !(s.worker.Running? && s.caller.Holding?) }

  // ----- counting -----

  function Trues(bytes: seq<bool>): nat { if bytes == [] then 0 else (if bytes[0] then 1 else 0) + Trues(bytes[1..]) }

  lemma {:induction false} TruesAppend(a: seq<bool>, b: bool)
    ensures Trues(a + [b]) == Trues(a) + if b then 1 else 0
  {
    if a != [] {
      assert (a + [b])[1..] == a[1..] + [b];
      TruesAppend(a[1..], b);
    }
  }

  function Bit(b: bool): nat { if b then 1 else 0 }

  predicate Alive(w: Worker) { !w.Gone? }

  predicate Owns(c: Caller) { c.Holding? || c.Stopping? }

  /** The permission to use the buffer is in one place: with the worker, in the feedback pipe, with the caller, or
      in the semaphore. Every abandoned wait adds one permission too many. */
  predicate OnePermission(s: State) {
    Trues(s.feedback) + Bit(Owns(s.caller)) + s.sem == Bit(s.worker.Parked?) + s.abandoned
  }

  /** Every request is on its way: in the pipe, read by the worker, or granted. */
  predicate Answerable(s: State) {
    Trues(s.pipe) + Bit(s.worker.Granting?) + Trues(s.feedback) == Bit(s.caller.Waiting?) + s.abandoned
  }

  /** A dead worker has said so, and a caller that heard it asks no more. */
  predicate LastWord(s: State) {
    (s.worker.Gone? && s.usable && !s.caller.Refused? ==> s.feedback != [] && !s.feedback[|s.feedback| - 1])
    && (s.caller.Waiting? ==> s.usable)
    && (s.caller.Closed? ==> s.worker.Gone?)
    && (s.caller.Refused? ==> s.worker.Gone?)
    && (Alive(s.worker) ==> forall i :: 0 <= i < |s.feedback| ==> s.feedback[i])
    && (s.caller.Joining? && Alive(s.worker) && !s.worker.Dying? ==> s.pipe != [] && !s.pipe[|s.pipe| - 1])
  }

  predicate Consistent(s: State) { (Alive(s.worker) ==> OnePermission(s) && Answerable(s)) && LastWord(s) }

  lemma StepCounts(s: State, a: Action)
    requires Act(s, a).Some? && Alive(s.worker) && OnePermission(s) && Answerable(s)
    requires forall i :: 0 <= i < |s.feedback| ==> s.feedback[i]
    requires s.caller.Refused? ==> s.worker.Gone?
    ensures var t := Act(s, a).value; Alive(t.worker) ==> OnePermission(t) && Answerable(t)
  {
    hide Trues;
    match a
    case WorkerReads => ReadCounts(s);
    case WorkerGrants => TruesAppend(s.feedback, true);
    case CallerReceives => ReceiptCounts(s);
    case CallerBegins => TruesAppend(s.pipe, true);
    case CallerGivesUp(_) => TruesAppend(s.pipe, false);
    case CallerAborts => TruesAppend(s.pipe, false);
    case CallerCloses => TruesAppend(s.pipe, false);
    case _ =>
  }

  lemma ReadCounts(s: State)
    requires Act(s, WorkerReads).Some? && OnePermission(s) && Answerable(s)
    ensures var t := Act(s, WorkerReads).value; OnePermission(t) && Answerable(t)
  {}

  lemma ReceiptCounts(s: State)
    requires Act(s, CallerReceives).Some? && OnePermission(s) && Answerable(s) && s.feedback[0]
    ensures var t := Act(s, CallerReceives).value; OnePermission(t) && Answerable(t)
  {}

  lemma StepLastWord(s: State, a: Action)
    requires Act(s, a).Some? && LastWord(s)
    ensures LastWord(Act(s, a).value)
  {}

  lemma StepConsistent(s: State, a: Action)
    requires Consistent(s) && Act(s, a).Some?
    ensures Consistent(Act(s, a).value)
  {
    hide Trues, Bit, OnePermission, Answerable;
    StepLastWord(s, a);
    if Alive(s.worker) { StepCounts(s, a); }
  }

  lemma {:induction false} RunConsistent(s: State, run: seq<Action>)
    requires Consistent(s) && Exec(s, run).Some?
    ensures Consistent(Exec(s, run).value)
    ensures (forall i :: 0 <= i < |run| ==> !Abandons(run[i])) ==> Exec(s, run).value.abandoned == s.abandoned
    decreases |run|
  {
    if run != [] {
      StepConsistent(s, run[0]);
      RunConsistent(Act(s, run[0]).value, run[1..]);
    }
  }

  predicate Patient(run: seq<Action>) { forall i :: 0 <= i < |run| ==> !Abandons(run[i]) }

  /** As long as no wait is abandoned, in every interleaving the threads exclude each other, and while the worker
      lives there is a permission outside of it exactly when it is parked. */
  lemma HandOverExclusive(run: seq<Action>)
    requires Patient(run) && Exec(INITIAL, run).Some?
    ensures var s := Exec(INITIAL, run).value;
      Exclusive(s)
      && (Alive(s.worker) ==> Trues(s.feedback) + Bit(Owns(s.caller)) + s.sem == Bit(s.worker.Parked?))
  {
    RunConsistent(INITIAL, run);
  }

  // ----- a call and a shutdown that go well -----

  /** Nothing is on its way, the worker works and the caller does not. */
  predicate Resting(s: State) {
    s.worker.Running? && s.caller.Idle? && s.pipe == [] && s.feedback == [] && s.sem == 0
  }

  /** A call that borrows the buffer, uses it and gives it back leaves everything as it was. */
  lemma CallCycle(s: State)
    requires Resting(s) && s.usable
    ensures Exec(s, [CallerBegins, WorkerReads] + [WorkerGrants, CallerReceives] + [CallerWorks, CallerFinishes]
      + [WorkerWakes]) == Some(s)
  {
    var first, second := [CallerBegins, WorkerReads], [WorkerGrants, CallerReceives];
    var third := [CallerWorks, CallerFinishes];
    ExecAppend(s, first + second + third, [WorkerWakes]);
    ExecAppend(s, first + second, third);
    ExecAppend(s, first, second);
    var a := s.(caller := Waiting, worker := Granting);
    assert Exec(s, first) == Some(a) by { TwoSteps(s, CallerBegins, WorkerReads); }
    var b := s.(caller := Holding, worker := Parked);
    assert Exec(a, second) == Some(b) by { TwoSteps(a, WorkerGrants, CallerReceives); }
    var c := s.(worker := Parked, sem := 1);
    assert Exec(b, third) == Some(c) by { TwoSteps(b, CallerWorks, CallerFinishes); }
    assert Exec(c, [WorkerWakes]) == Some(s) by { ExecOne(c, WorkerWakes); }
  }

  lemma TwoSteps(s: State, a: Action, b: Action)
    requires Act(s, a).Some? && Act(Act(s, a).value, b).Some?
    ensures Exec(s, [a, b]) == Act(Act(s, a).value, b)
  {
    hide Act;
    assert [a, b] + [] == [a, b];
    ExecTwo(s, a, b, []);
  }

  /** However it was used, a handle is closed only when its worker is gone. */
  lemma ClosedMeansGone(run: seq<Action>)
    requires Exec(INITIAL, run).Some? && Exec(INITIAL, run).value.caller.Closed?
    ensures Exec(INITIAL, run).value.worker.Gone?
  {
    RunConsistent(INITIAL, run);
  }

  /** Closing the handle ends the worker and is not held up by it. */
  lemma ShutdownEnds(s: State)
    requires Resting(s)
    ensures var t := Exec(s, [CallerCloses, WorkerReads] + [WorkerDies, CallerJoins]);
      t.Some? && t.value.worker.Gone? && t.value.caller.Closed?
  {
    ExecAppend(s, [CallerCloses, WorkerReads], [WorkerDies, CallerJoins]);
    TwoSteps(s, CallerCloses, WorkerReads);
    TwoSteps(Act(Act(s, CallerCloses).value, WorkerReads).value, WorkerDies, CallerJoins);
  }

  // ----- a failure is heard -----

  /** A worker that fails while a caller waits for it, with no wait given up before, says so in its last word: the
      caller gets that instead of a grant. */
  lemma FailureIsHeard(s: State)
    requires Consistent(s) && s.abandoned == 0 && s.worker.Running? && s.caller.Waiting?
    ensures var t := Exec(s, [WorkerFails, WorkerDies, CallerReceives]);
      t.Some? && t.value.worker.Gone? && t.value.caller.Refused?
  {
    NoGrantYet(s);
    assert [WorkerFails, WorkerDies] + [CallerReceives] == [WorkerFails, WorkerDies, CallerReceives];
    ExecTwo(s, WorkerFails, WorkerDies, [CallerReceives]);
    ExecOne(Act(Act(s, WorkerFails).value, WorkerDies).value, CallerReceives);
  }

  /** A caller that is refused, or whose wait fails, ends its call and never begins another. */
  lemma RefusalIsFinal(s: State, still: bool, run: seq<Action>)
    requires s.caller.Refused? || s.caller.Waiting?
    ensures var t := Exec(s, [if s.caller.Refused? then CallerGivesUp(still) else CallerAborts, CallerPosts]);
      t.Some? && t.value.caller.Idle?
      && (Exec(t.value, run).Some? ==> CallerBegins !in run && Act(Exec(t.value, run).value, CallerBegins).None?)
  {
    var a := if s.caller.Refused? then CallerGivesUp(still) else CallerAborts;
    assert [a, CallerPosts] + [] == [a, CallerPosts];
    ExecTwo(s, a, CallerPosts, []);
    var t := Act(Act(s, a).value, CallerPosts).value;
    if Exec(t, run).Some? { NeverAgain(t, run); }
  }

  lemma {:induction false} NeverAgain(s: State, run: seq<Action>)
    requires !s.usable && Exec(s, run).Some?
    ensures CallerBegins !in run && !Exec(s, run).value.usable
    decreases |run|
  {
    if run != [] { NeverAgain(Act(s, run[0]).value, run[1..]); }
  }

  lemma NoGrantYet(s: State)
    requires Consistent(s) && s.abandoned == 0 && s.worker.Running?
    ensures s.feedback == []
  {
    AllTrue(s.feedback);
  }

  // ----- nobody waits forever -----

  /** How far the worker is from a state in which it can only wait for the caller. */
  function Distance(s: State): nat {
    3 * |s.pipe| + match s.worker
                   case Granting => 4
                   case Parked => 3
                   case Running => 2
                   case Dying => 1
                   case Gone => 0
  }

  /** What the worker does of its own accord to serve its pipe; failing is not among it. */
  predicate Serves(a: Action) { a.WorkerReads? || a.WorkerGrants? || a.WorkerWakes? || a.WorkerDies? }

  /** The caller is blocked in the wait for a grant or for the end of the worker. */
  predicate Blocked(s: State) { s.caller.Waiting? || s.caller.Joining? }

  predicate CanGoOn(s: State) { Act(s, CallerReceives).Some? || Act(s, CallerJoins).Some? }

  /** Every such step, and a failure too, brings the worker nearer and leaves the caller where it is. */
  lemma ServingProgress(s: State, a: Action)
    requires (Serves(a) || a.WorkerFails?) && Act(s, a).Some?
    ensures Act(s, a).value.caller == s.caller && Distance(Act(s, a).value) < Distance(s)
  {
    if a.WorkerReads? { assert |Act(s, a).value.pipe| == |s.pipe| - 1; }
  }

  /** While the caller is blocked and cannot go on, the worker can. */
  lemma WorkerIsFree(s: State) returns (a: Action)
    requires Consistent(s) && Blocked(s) && !CanGoOn(s)
    ensures Serves(a) && Act(s, a).Some?
  {
    a := match s.worker
         case Granting => WorkerGrants
         case Parked => WorkerWakes
         case Dying => WorkerDies
         case _ => WorkerReads;
  }

  /** Whatever happened before, waits given up included, a bounded number of serving steps lets a blocked caller go
      on: no call and no shutdown waits forever on a worker that keeps going. */
  lemma {:induction false} BlockedCallerGoesOn(s: State) returns (steps: seq<Action>)
    requires Consistent(s) && Blocked(s)
    ensures |steps| <= Distance(s) && (forall i :: 0 <= i < |steps| ==> Serves(steps[i]))
    ensures Exec(s, steps).Some? && Exec(s, steps).value.caller == s.caller && CanGoOn(Exec(s, steps).value)
    decreases Distance(s)
  {
    hide Distance, Consistent;
    if CanGoOn(s) { return []; }
    var a := WorkerIsFree(s);
    ServingProgress(s, a);
    StepConsistent(s, a);
    var rest := BlockedCallerGoesOn(Act(s, a).value);
    steps := [a] + rest;
    assert steps[1..] == rest;
  }

  /** And it does so however the worker goes: as long as the caller is blocked and nobody else acts, each run of
      worker steps that is as long as the distance has met a state in which the caller can go on. */
  lemma {:induction false} NoEndlessWait(s: State, run: seq<Action>)
    requires Consistent(s) && Blocked(s) && Exec(s, run).Some? && |run| >= Distance(s)
    requires forall i :: 0 <= i < |run| ==> Serves(run[i]) || run[i].WorkerFails?
    ensures exists k :: 0 <= k <= |run| && Exec(s, run[..k]).Some? && CanGoOn(Exec(s, run[..k]).value)
    decreases |run|
  {
    hide Distance, Consistent, CanGoOn;
    assert run[..0] == [];
    if CanGoOn(s) {
      assert Exec(s, run[..0]) == Some(s);
    } else {
      var b := WorkerIsFree(s);
      ServingProgress(s, b);
      var a := run[0];
      ServingProgress(s, a);
      StepConsistent(s, a);
      var t := Act(s, a).value;
      NoEndlessWait(t, run[1..]);
      var k :| 0 <= k <= |run| - 1 && Exec(t, run[1..][..k]).Some? && CanGoOn(Exec(t, run[1..][..k]).value);
      assert run[..k + 1][0] == a && run[..k + 1][1..] == run[1..][..k];
      assert Exec(s, run[..k + 1]) == Exec(t, run[1..][..k]);
    }
  }

  // ----- what an abandoned wait costs -----

  lemma {:induction false} ExecAppend(s: State, a: seq<Action>, b: seq<Action>)
    ensures Exec(s, a + b) == match Exec(s, a) case None => None case Some(t) => Exec(t, b)
    decreases |a|
  {
    if a == [] {
      assert a + b == b;
    } else {
      assert (a + b)[0] == a[0] && (a + b)[1..] == a[1..] + b;
      if Act(s, a[0]).Some? { ExecAppend(Act(s, a[0]).value, a[1..], b); }
    }
  }

  /** A usable handle between two calls, with a worker that nobody told to stop. */
  predicate Ready(s: State) {
    Consistent(s) && s.caller.Idle? && s.usable && Alive(s.worker) && !s.worker.Dying?
    && forall i :: 0 <= i < |s.pipe| ==> s.pipe[i]
  }

  function Delay(s: State): nat { 3 * |s.pipe| + if s.worker.Granting? then 2 else if s.worker.Parked? then 1 else 0 }

  lemma AllTrue(bytes: seq<bool>)
    requires forall i :: 0 <= i < |bytes| ==> bytes[i]
    ensures Trues(bytes) == |bytes|
  {
    if bytes != [] { AllTrue(bytes[1..]); }
  }

  /** Let the worker serve the stale requests; then the next call picks up a stale grant while the worker runs. */
  lemma {:induction false} StaleGrant(s: State) returns (run: seq<Action>)
    requires Ready(s) && s.abandoned > 0
    ensures Patient(run) && Exec(s, run).Some? && !Exclusive(Exec(s, run).value)
    decreases Delay(s)
  {
    AllTrue(s.pipe);
    AllTrue(s.feedback);
    var a := match s.worker
             case Granting => WorkerGrants
             case Parked => WorkerWakes
             case _ => if s.pipe != [] then WorkerReads else CallerBegins;
    StepConsistent(s, a);
    var t := Act(s, a).value;
    var rest;
    if a.CallerBegins? {
      rest := [CallerReceives];
      assert rest[1..] == [];
      assert Exec(t, rest) == Act(t, CallerReceives);
    } else {
      rest := StaleGrant(t);
    }
    run := [a] + rest;
    assert run[1..] == rest;
  }

  /** Between two calls on a usable handle, exclusion is safe for all that follows without another abandoned wait
      exactly when no wait was abandoned before. */
  lemma ExclusiveIffNoneAbandoned(s: State)
    requires Ready(s)
    ensures s.abandoned == 0 <==>
            forall run :: Patient(run) && Exec(s, run).Some? ==> Exclusive(Exec(s, run).value)
  {
    if s.abandoned > 0 {
      var run := StaleGrant(s);
      assert !Exclusive(Exec(s, run).value);
    } else {
      forall run | Patient(run) && Exec(s, run).Some? ensures Exclusive(Exec(s, run).value) {
        RunConsistent(s, run);
      }
    }
  }

  /** The shortest such accident: one call times out, the worker grants nevertheless and goes on at once, and the
      next call takes the old grant. */
  lemma TimeoutExample()
    ensures var run := [CallerBegins, CallerTimesOut, WorkerReads, WorkerGrants, WorkerWakes, CallerBegins,
      CallerReceives];
      Exec(INITIAL, run).Some? && !Exclusive(Exec(INITIAL, run).value)
  {
    hide Exec;
    var s1 := Act(INITIAL, CallerBegins).value;
    assert s1.pipe == [true];
    var s2 := Act(s1, CallerTimesOut).value;
    var s3 := Act(s2, WorkerReads).value;
    assert s3.pipe == [];
    var s4 := Act(s3, WorkerGrants).value;
    assert s4.feedback == [true];
    var s5 := Act(s4, WorkerWakes).value;
    var s6 := Act(s5, CallerBegins).value;
    var rest6, rest4 := [CallerReceives], [WorkerWakes, CallerBegins, CallerReceives];
    var rest2 := [WorkerReads, WorkerGrants, WorkerWakes, CallerBegins, CallerReceives];
    ExecTwo(INITIAL, CallerBegins, CallerTimesOut, rest2);
    ExecTwo(s2, WorkerReads, WorkerGrants, rest4);
    ExecTwo(s4, WorkerWakes, CallerBegins, rest6);
    ExecOne(s6, CallerReceives);
    assert [CallerBegins, CallerTimesOut] + rest2 ==
      [CallerBegins, CallerTimesOut, WorkerReads, WorkerGrants, WorkerWakes, CallerBegins, CallerReceives];
    assert [WorkerReads, WorkerGrants] + rest4 == rest2 && [WorkerWakes, CallerBegins] + rest6 == rest4;
  }

  lemma ExecOne(s: State, a: Action)
    ensures Exec(s, [a]) == Act(s, a)
  {
    assert [a][1..] == [];
  }

  lemma ExecTwo(s: State, a: Action, b: Action, rest: seq<Action>)
    requires Act(s, a).Some? && Act(Act(s, a).value, b).Some?
    ensures Exec(s, [a, b] + rest) == Exec(Act(Act(s, a).value, b).value, rest)
  {
    hide Act;
    assert ([a, b] + rest)[1..] == [b] + rest && ([b] + rest)[1..] == rest;
  }
}
