/** Device events fanned out to every monitor: reference-counted records, one queue per monitor, and one pipe
    byte for each queued record. Each step is what one thread does under the control mutex. */
module Broadcast {
  import opened Basics

  datatype Byte = Failed | Data | Left

  /** A published event. `freed` counts how often its memory was released. */
  datatype Record = Record(event: string, counter: nat, freed: nat)

  /** Queues hold record numbers. `since` and `got` are history: how many events came before the monitor, and what
      was handed out by it. A closed monitor is off the list and gives its queue back piece by piece. */
  datatype Monitor = Monitor(queue: seq<nat>, pipe: seq<Byte>, open: bool, since: nat, got: seq<nat>)

  /** `held` are references in the hands of readers, `own` is the worker's reference to what it just published. */
  datatype State = State(records: seq<Record>, monitors: seq<Monitor>, held: seq<nat>, own: Option<nat>, working: bool)

  const INITIAL := State([], [], [], None, true)

  datatype Action =
    | Register | Publish(event: string) | WorkerReleases | WorkerStops(why: Byte)
    | Get(monitor: nat) | Release(index: nat) | Close(monitor: nat) | Discard(monitor: nat)

  /** One reference less; the last one frees the record. */
  function Drop(r: Record): Record {
    var left := if r.counter == 0 then 0 else r.counter - 1;
    Record(r.event, left, if left == 0 then r.freed + 1 else r.freed)
  }

  function DropAt(records: seq<Record>, id: nat): seq<Record> {
    if id < |records| then records[id := Drop(records[id])] else records
  }

  function Opened(ms: seq<Monitor>): nat {
    if ms == [] then 0 else (if ms[0].open then 1 else 0) + Opened(ms[1..])
  }

  function Enqueue(m: Monitor, id: nat): Monitor {
    if m.open then m.(queue := m.queue + [id], pipe := m.pipe + [Data]) else m
  }

  function EnqueueAll(ms: seq<Monitor>, id: nat): (r: seq<Monitor>)
    ensures |r| == |ms|
  {
    if ms == [] then [] else [Enqueue(ms[0], id)] + EnqueueAll(ms[1..], id)
  }

  function Signal(m: Monitor, b: Byte): Monitor { if m.open then m.(pipe := m.pipe + [b]) else m }

  function SignalAll(ms: seq<Monitor>, b: Byte): (r: seq<Monitor>)
    ensures |r| == |ms|
  {
    if ms == [] then [] else [Signal(ms[0], b)] + SignalAll(ms[1..], b)
  }

  /** A reader takes one byte, and with a data byte the head of the queue. */
  function Take(s: State, i: nat): Option<State> {
    if i >= |s.monitors| || !s.monitors[i].open || s.monitors[i].pipe == [] then None
    else
      var m := s.monitors[i].(pipe := s.monitors[i].pipe[1..]);
      if s.monitors[i].pipe[0].Data? && m.queue != [] then
        Some(s.(monitors := s.monitors[i := m.(queue := m.queue[1..], got := m.got + [m.queue[0]])],
          held := s.held + [m.queue[0]]))
      else Some(s.(monitors := s.monitors[i := m]))
  }

  function Act(s: State, a: Action): Option<State> {
    match a
    case Register => Some(s.(monitors := s.monitors + [Monitor([], [], true, |s.records|, [])]))
    case Publish(event) =>
      if !s.working || s.own.Some? then None
      else
        Some(s.(records := s.records + [Record(event, 1 + Opened(s.monitors), 0)],
                monitors := EnqueueAll(s.monitors, |s.records|), own := Some(|s.records|)))
    case WorkerReleases =>
      if s.own.None? then None else Some(s.(records := DropAt(s.records, s.own.value), own := None))
    case WorkerStops(why) =>
      if !s.working || s.own.Some? || why.Data? then None
      else Some(s.(monitors := SignalAll(s.monitors, why), working := false))
    case Get(i) => Take(s, i)
    case Release(k) =>
      if k >= |s.held| then None
      else Some(s.(records := DropAt(s.records, s.held[k]), held := s.held[..k] + s.held[k + 1..]))
    case Close(i) =>
      if i >= |s.monitors| || !s.monitors[i].open then None
      else Some(s.(monitors := s.monitors[i := s.monitors[i].(open := false)]))
    case Discard(i) =>
      if i >= |s.monitors| || s.monitors[i].open || s.monitors[i].queue == [] then None
      else
        var m := s.monitors[i];
        Some(s.(records := DropAt(s.records, m.queue[0]), monitors := s.monitors[i := m.(queue := m.queue[1..])]))
  }

  function Exec(s: State, run: seq<Action>): Option<State>
    decreases |run|
  {
    if run == [] then Some(s)
    else match Act(s, run[0])
      case None => None
      case Some(s') => Exec(s', run[1..])
  }

  // ----- references -----

  function Count(s: seq<nat>, id: nat): nat {
    if s == [] then 0 else (if s[0] == id then 1 else 0) + Count(s[1..], id)
  }

  function Queued(ms: seq<Monitor>, id: nat): nat {
    if ms == [] then 0 else Count(ms[0].queue, id) + Queued(ms[1..], id)
  }

  function References(s: State, id: nat): nat {
    Queued(s.monitors, id) + Count(s.held, id) + if s.own == Some(id) then 1 else 0
  }

  /** Every counter is the number of references there are, and a record is freed once, when none is left. */
  ghost predicate Counted(s: State) {
    (forall id :: 0 <= id < |s.records| ==>
      s.records[id].counter == References(s, id) && s.records[id].freed == if References(s, id) == 0 then 1 else 0)
    && forall id :: id >= |s.records| ==> References(s, id) == 0
  }

  lemma {:induction false} CountAppend(a: seq<nat>, b: seq<nat>, id: nat)
    ensures Count(a + b, id) == Count(a, id) + Count(b, id)
  {
    if a == [] {
      assert a + b == b;
    } else {
      assert (a + b)[1..] == a[1..] + b;
      CountAppend(a[1..], b, id);
    }
  }

  lemma {:induction false} QueuedUpdate(ms: seq<Monitor>, i: nat, m: Monitor, id: nat)
    requires i < |ms|
    ensures Queued(ms[i := m], id) + Count(ms[i].queue, id) == Queued(ms, id) + Count(m.queue, id)
  {
    if i == 0 {
      assert ms[0 := m][1..] == ms[1..];
    } else {
      assert ms[i := m][1..] == ms[1..][i - 1 := m];
      QueuedUpdate(ms[1..], i - 1, m, id);
    }
  }

  lemma {:induction false} QueuedAppend(a: seq<Monitor>, m: Monitor, id: nat)
    ensures Queued(a + [m], id) == Queued(a, id) + Count(m.queue, id)
  {
    if a != [] {
      assert (a + [m])[1..] == a[1..] + [m];
      QueuedAppend(a[1..], m, id);
    } else {
      assert [m][1..] == [];
    }
  }

  lemma {:induction false} QueuedEnqueue(ms: seq<Monitor>, added: nat, id: nat)
    ensures Queued(EnqueueAll(ms, added), id) == Queued(ms, id) + if id == added then Opened(ms) else 0
  {
    if ms != [] {
      QueuedEnqueue(ms[1..], added, id);
      CountAppend(ms[0].queue, [added], id);
      assert EnqueueAll(ms, added)[1..] == EnqueueAll(ms[1..], added);
      assert [added][1..] == [];
    }
  }

  lemma {:induction false} QueuedSignal(ms: seq<Monitor>, b: Byte, id: nat)
    ensures Queued(SignalAll(ms, b), id) == Queued(ms, id)
  {
    if ms != [] {
      QueuedSignal(ms[1..], b, id);
      assert SignalAll(ms, b)[1..] == SignalAll(ms[1..], b);
    }
  }

  lemma CountHead(s: seq<nat>, id: nat)
    requires s != []
    ensures Count(s, id) == Count(s[1..], id) + if s[0] == id then 1 else 0
  {}

  lemma CountWithout(s: seq<nat>, k: nat, id: nat)
    requires k < |s|
    ensures Count(s, id) == Count(s[..k] + s[k + 1..], id) + if s[k] == id then 1 else 0
  {
    assert s == s[..k] + ([s[k]] + s[k + 1..]);
    CountAppend(s[..k], [s[k]] + s[k + 1..], id);
    CountAppend(s[..k], s[k + 1..], id);
    assert ([s[k]] + s[k + 1..])[1..] == s[k + 1..];
  }

  lemma TakeReferences(s: State, i: nat, id: nat)
    requires Act(s, Get(i)).Some?
    ensures References(Act(s, Get(i)).value, id) == References(s, id)
  {
    hide Count, Queued;
    var t, m := Act(s, Get(i)).value, s.monitors[i];
    QueuedUpdate(s.monitors, i, t.monitors[i], id);
    if m.queue != [] {
      CountHead(m.queue, id);
      CountAppend(s.held, [m.queue[0]], id);
      CountOne(m.queue[0], id);
    }
  }

  lemma DiscardReferences(s: State, i: nat, id: nat)
    requires Act(s, Discard(i)).Some?
    ensures References(Act(s, Discard(i)).value, id) + (if s.monitors[i].queue[0] == id then 1 else 0) ==
      References(s, id)
  {
    hide Count, Queued;
    QueuedUpdate(s.monitors, i, Act(s, Discard(i)).value.monitors[i], id);
    CountHead(s.monitors[i].queue, id);
  }

  lemma PublishReferences(s: State, event: string, id: nat)
    requires Act(s, Publish(event)).Some?
    ensures References(Act(s, Publish(event)).value, id) ==
      References(s, id) + if id == |s.records| then 1 + Opened(s.monitors) else 0
  {
    hide Count, Queued, Opened, EnqueueAll;
    QueuedEnqueue(s.monitors, |s.records|, id);
  }

  lemma OtherReferences(s: State, a: Action, id: nat)
    requires Act(s, a).Some? && !a.Publish? && !a.Get? && !a.Discard?
    ensures References(Act(s, a).value, id) + (if Dropped(s, a) == Some(id) then 1 else 0) == References(s, id)
  {
    hide Count, Queued, SignalAll;
    match a
    case Register => QueuedAppend(s.monitors, Monitor([], [], true, |s.records|, []), id); CountNothing(id);
    case WorkerReleases =>
    case WorkerStops(why) => QueuedSignal(s.monitors, why, id);
    case Release(k) => CountWithout(s.held, k, id);
    case Close(i) => QueuedUpdate(s.monitors, i, Act(s, a).value.monitors[i], id);
  }

  /** How one step changes the references to one record. */
  lemma StepReferences(s: State, a: Action, id: nat)
    requires Act(s, a).Some?
    ensures References(Act(s, a).value, id) + (if Dropped(s, a) == Some(id) then 1 else 0) ==
      References(s, id) + if a.Publish? && id == |s.records| then 1 + Opened(s.monitors) else 0
  {
    hide References, Opened;
    match a
    case Get(i) => TakeReferences(s, i, id);
    case Discard(i) => DiscardReferences(s, i, id);
    case Publish(event) => PublishReferences(s, event, id);
    case _ => OtherReferences(s, a, id);
  }

  lemma CountNothing(id: nat)
    ensures Count([], id) == 0
  {}

  lemma CountOne(x: nat, id: nat)
    ensures Count([x], id) == if x == id then 1 else 0
  {
    assert [x][1..] == [];
  }

  /** The record a step gives up a reference to. */
  function Dropped(s: State, a: Action): Option<nat>
    requires Act(s, a).Some?
  {
    match a
    case WorkerReleases => s.own
    case Release(k) => Some(s.held[k])
    case Discard(i) => Some(s.monitors[i].queue[0])
    case _ => None
  }

  lemma StepCounted(s: State, a: Action)
    requires Counted(s) && Act(s, a).Some?
    ensures Counted(Act(s, a).value)
  {
    hide Count, Queued, Opened, EnqueueAll, SignalAll, References;
    var t := Act(s, a).value;
    forall id: nat ensures
      References(t, id) + (if Dropped(s, a) == Some(id) then 1 else 0) ==
        References(s, id) + if a.Publish? && id == |s.records| then 1 + Opened(s.monitors) else 0
    {
      StepReferences(s, a, id);
    }
    StepRecords(s, a);
  }

  /** How one step changes the records. */
  lemma StepRecords(s: State, a: Action)
    requires Act(s, a).Some?
    ensures var t := Act(s, a).value;
      (a.Publish? ==> t.records == s.records + [Record(a.event, 1 + Opened(s.monitors), 0)])
      && (!a.Publish? ==> t.records == if Dropped(s, a).Some? then DropAt(s.records, Dropped(s, a).value)
        else s.records)
  {}

  // ----- delivery -----

  function Numbers(from: nat, to: nat): seq<nat>
    decreases if from < to then to - from else 0
  {
    if from >= to then [] else [from] + Numbers(from + 1, to)
  }

  /** The bytes in a pipe: one per queued record, then perhaps the worker's last word. */
  predicate PipeFits(m: Monitor, working: bool) {
    |m.pipe| >= |m.queue| && (forall i :: 0 <= i < |m.queue| ==> m.pipe[i].Data?)
    && |m.pipe| <= |m.queue| + (if working then 0 else 1)
    && (|m.pipe| > |m.queue| ==> !m.pipe[|m.queue|].Data?)
  }

  /** A monitor on the list gets what was published since it came, in order and once. */
  predicate Delivers(m: Monitor, published: nat, working: bool) {
    m.since <= published && (m.open ==> m.got + m.queue == Numbers(m.since, published) && PipeFits(m, working))
  }

  ghost predicate Delivered(s: State) {
    forall i :: 0 <= i < |s.monitors| ==> Delivers(s.monitors[i], |s.records|, s.working)
  }

  lemma {:induction false} OneNumberMore(from: nat, to: nat)
    requires from <= to
    ensures Numbers(from, to + 1) == Numbers(from, to) + [to]
    decreases if from < to then to - from else 0
  {
    if from < to { OneNumberMore(from + 1, to); }
  }

  lemma {:induction false} AllChanged(ms: seq<Monitor>, id: nat, b: Byte, i: nat)
    requires i < |ms|
    ensures EnqueueAll(ms, id)[i] == Enqueue(ms[i], id) && SignalAll(ms, b)[i] == Signal(ms[i], b)
  {
    if i > 0 { AllChanged(ms[1..], id, b, i - 1); }
  }

  lemma EnqueueDelivers(m: Monitor, published: nat)
    requires Delivers(m, published, true)
    ensures Delivers(Enqueue(m, published), published + 1, true)
  {
    OneNumberMore(m.since, published);
    assert m.got + (m.queue + [published]) == m.got + m.queue + [published];
  }

  lemma TakeDelivers(m: Monitor, published: nat, working: bool)
    requires Delivers(m, published, working) && m.open && m.pipe != []
    ensures m.pipe[0].Data? <==> m.queue != []
    ensures m.queue != [] ==>
      Delivers(m.(pipe := m.pipe[1..], queue := m.queue[1..], got := m.got + [m.queue[0]]), published, working)
    ensures m.queue == [] ==> Delivers(m.(pipe := m.pipe[1..]), published, working)
  {
    if m.queue != [] {
      assert m.got + [m.queue[0]] + m.queue[1..] == m.got + m.queue;
    }
  }

  lemma StepDelivered(s: State, a: Action)
    requires Delivered(s) && Act(s, a).Some?
    ensures Delivered(Act(s, a).value)
  {
    hide EnqueueAll, SignalAll, Numbers;
    var t := Act(s, a).value;
    forall i | 0 <= i < |t.monitors| ensures Delivers(t.monitors[i], |t.records|, t.working) {
      if i < |s.monitors| {
        AllChanged(s.monitors, |s.records|, if a.WorkerStops? then a.why else Data, i);
        if a.Publish? { EnqueueDelivers(s.monitors[i], |s.records|); }
        if a.Get? && a.monitor == i { TakeDelivers(s.monitors[i], |s.records|, s.working); }
      } else {
        NoNumbers(|s.records|);
      }
    }
  }

  lemma NoNumbers(n: nat)
    ensures Numbers(n, n) == []
  {}

  // ----- the theorems -----

  lemma {:induction false} RunKeeps(s: State, run: seq<Action>)
    requires Counted(s) && Delivered(s) && Exec(s, run).Some?
    ensures Counted(Exec(s, run).value) && Delivered(Exec(s, run).value)
    decreases |run|
  {
    hide Counted, Delivered, Act;
    if run != [] {
      StepCounted(s, run[0]);
      StepDelivered(s, run[0]);
      RunKeeps(Act(s, run[0]).value, run[1..]);
    }
  }

  /** In every interleaving: every counter is exact, nothing in use is freed, nothing is freed twice, and what has no
      user left is freed. */
  lemma CountersExact(run: seq<Action>)
    requires Exec(INITIAL, run).Some?
    ensures var s := Exec(INITIAL, run).value;
      forall id :: 0 <= id < |s.records| ==>
        s.records[id].counter == References(s, id) && s.records[id].freed == if References(s, id) == 0 then 1 else 0
  {
    RunKeeps(INITIAL, run);
  }

  /** In every interleaving: each monitor on the list has handed out, in order and once, a beginning of what was
      published since it registered; the rest is in its queue, with one data byte for each record, and a data byte
      never meets an empty queue. */
  lemma EveryEventOnce(run: seq<Action>, i: nat)
    requires Exec(INITIAL, run).Some?
    requires i < |Exec(INITIAL, run).value.monitors| && Exec(INITIAL, run).value.monitors[i].open
    ensures var s := Exec(INITIAL, run).value; var m := s.monitors[i];
      m.got + m.queue == Numbers(m.since, |s.records|) && PipeFits(m, s.working)
      && (m.pipe != [] && m.pipe[0].Data? ==> m.queue != [])
  {
    RunKeeps(INITIAL, run);
    var s := Exec(INITIAL, run).value;
    assert Delivers(s.monitors[i], |s.records|, s.working);
  }

  // ----- nothing leaks -----

  /** What one monitor still has to give back: its place on the list and its queue. */
  function Burden(ms: seq<Monitor>): nat {
    if ms == [] then 0 else (if ms[0].open then 1 else 0) + |ms[0].queue| + Burden(ms[1..])
  }

  function Debt(s: State): nat { (if s.own.Some? then 1 else 0) + |s.held| + Burden(s.monitors) }

  lemma {:induction false} BurdenUpdate(ms: seq<Monitor>, i: nat, m: Monitor)
    requires i < |ms|
    ensures Burden(ms[i := m]) + |ms[i].queue| + (if ms[i].open then 1 else 0) ==
      Burden(ms) + |m.queue| + if m.open then 1 else 0
  {
    if i == 0 {
      assert ms[0 := m][1..] == ms[1..];
    } else {
      assert ms[i := m][1..] == ms[1..][i - 1 := m];
      BurdenUpdate(ms[1..], i - 1, m);
    }
  }

  lemma {:induction false} Burdened(ms: seq<Monitor>) returns (i: nat)
    requires Burden(ms) > 0
    ensures i < |ms| && (ms[i].open || ms[i].queue != [])
  {
    i := 0;
    if !ms[0].open && ms[0].queue == [] {
      i := Burdened(ms[1..]);
      i := i + 1;
    }
  }

  lemma {:induction false} NoBurden(ms: seq<Monitor>, id: nat)
    requires Burden(ms) == 0
    ensures Queued(ms, id) == 0
  {
    if ms != [] { NoBurden(ms[1..], id); }
  }

  predicate LetsGo(a: Action) { a.WorkerReleases? || a.Release? || a.Close? || a.Discard? }

  /** As long as somebody has a reference or a place on the list, something can be given back. */
  lemma NextRelease(s: State) returns (a: Action)
    requires Debt(s) > 0
    ensures LetsGo(a) && Act(s, a).Some? && Debt(Act(s, a).value) < Debt(s)
    ensures |Act(s, a).value.records| == |s.records|
  {
    hide Burden;
    if s.own.Some? {
      a := WorkerReleases;
    } else if s.held != [] {
      a := Release(0);
    } else {
      var i := Burdened(s.monitors);
      a := if s.monitors[i].open then Close(i) else Discard(i);
      BurdenUpdate(s.monitors, i, Act(s, a).value.monitors[i]);
    }
  }

  lemma {:induction false} LettingGo(s: State) returns (run: seq<Action>)
    requires Counted(s)
    ensures |run| <= Debt(s) && (forall i :: 0 <= i < |run| ==> LetsGo(run[i])) && Exec(s, run).Some?
    ensures var t := Exec(s, run).value; Counted(t) && Debt(t) == 0 && |t.records| == |s.records|
    decreases Debt(s)
  {
    hide Counted, Debt, Act;
    if Debt(s) == 0 {
      run := [];
    } else {
      var a := NextRelease(s);
      StepCounted(s, a);
      var rest := LettingGo(Act(s, a).value);
      run := [a] + rest;
      assert run[1..] == rest;
    }
  }

  /** From every state that can be reached, releases alone lead to one in which every record ever published is freed,
      and freed once. */
  lemma NothingLeaks(run: seq<Action>) returns (rest: seq<Action>)
    requires Exec(INITIAL, run).Some?
    ensures forall i :: 0 <= i < |rest| ==> LetsGo(rest[i])
    ensures Exec(Exec(INITIAL, run).value, rest).Some?
    ensures var s, t := Exec(INITIAL, run).value, Exec(Exec(INITIAL, run).value, rest).value;
      |t.records| == |s.records| && forall id :: 0 <= id < |t.records| ==> t.records[id].freed == 1
  {
    RunKeeps(INITIAL, run);
    var s := Exec(INITIAL, run).value;
    rest := LettingGo(s);
    var t := Exec(s, rest).value;
    forall id | 0 <= id < |t.records| ensures t.records[id].freed == 1 {
      NoBurden(t.monitors, id);
      assert References(t, id) == 0;
    }
  }

  /** How often a run gives up the last counted reference to a record, or one that is not counted any more. */
  function Frees(s: State, run: seq<Action>, id: nat): nat
    requires Exec(s, run).Some?
    decreases |run|
  {
    if run == [] then 0
    else (if Dropped(s, run[0]) == Some(id) && id < |s.records| && s.records[id].counter <= 1 then 1 else 0)
         + Frees(Act(s, run[0]).value, run[1..], id)
  }

  lemma {:induction false} FreesCounted(s: State, run: seq<Action>, id: nat)
    requires Exec(s, run).Some?
    ensures |Exec(s, run).value.records| >= |s.records|
    ensures id < |Exec(s, run).value.records| ==>
      Exec(s, run).value.records[id].freed == (if id < |s.records| then s.records[id].freed else 0) + Frees(s, run, id)
    decreases |run|
  {
    hide Act, Opened;
    if run != [] {
      StepRecords(s, run[0]);
      FreesCounted(Act(s, run[0]).value, run[1..], id);
    }
  }

  /** In every interleaving the last reference to each record that nobody uses was given up once, and no other record
      has lost its last reference. */
  lemma FreedOnce(run: seq<Action>, id: nat)
    requires Exec(INITIAL, run).Some? && id < |Exec(INITIAL, run).value.records|
    ensures Frees(INITIAL, run, id) == if References(Exec(INITIAL, run).value, id) == 0 then 1 else 0
  {
    hide References, Frees, Exec;
    CountersExact(run);
    FreesCounted(INITIAL, run, id);
  }

  // ----- what the records hold -----

  function EventsOf(records: seq<Record>): (r: seq<string>)
    ensures |r| == |records| && forall i :: 0 <= i < |r| ==> r[i] == records[i].event
  {
    if records == [] then [] else [records[0].event] + EventsOf(records[1..])
  }

  function Published(run: seq<Action>): seq<string> {
    if run == [] then [] else (if run[0].Publish? then [run[0].event] else []) + Published(run[1..])
  }

  /** The records hold, in order, the events that were published, whoever has freed or still uses them. */
  lemma {:induction false} RecordsHoldEvents(s: State, run: seq<Action>)
    requires Exec(s, run).Some?
    ensures EventsOf(Exec(s, run).value.records) == EventsOf(s.records) + Published(run)
    decreases |run|
  {
    hide Act, EventsOf;
    var before := EventsOf(s.records);
    if run == [] {
      assert before + [] == before;
    } else {
      var first := if run[0].Publish? then [run[0].event] else [];
      StepEvents(s, run[0]);
      RecordsHoldEvents(Act(s, run[0]).value, run[1..]);
      assert before + first + Published(run[1..]) == before + (first + Published(run[1..]));
    }
  }

  lemma StepEvents(s: State, a: Action)
    requires Act(s, a).Some?
    ensures EventsOf(Act(s, a).value.records) == EventsOf(s.records) + if a.Publish? then [a.event] else []
  {
    StepRecords(s, a);
  }

  /** What publishing does to one monitor. */
  predicate Hears(m: Monitor, m': Monitor, id: nat) {
    m' == if m.open then m.(queue := m.queue + [id], pipe := m.pipe + [Data]) else m
  }

  /** A working worker that holds no record can publish: every monitor on the list gets the new record and a byte for
      it, nobody else does, and after the worker has let go the record is used by these monitors alone. */
  lemma PublishReaches(s: State, event: string)
    requires s.working && s.own.None?
    ensures var t := Exec(s, [Publish(event), WorkerReleases]);
      t.Some? && |t.value.monitors| == |s.monitors| && t.value.own.None?
      && EventsOf(t.value.records) == EventsOf(s.records) + [event]
      && t.value.records[|s.records|].counter == Opened(s.monitors)
      && forall i :: 0 <= i < |s.monitors| ==> Hears(s.monitors[i], t.value.monitors[i], |s.records|)
  {
    hide EnqueueAll, Opened, Act, Hears;
    PublishParts(s, event);
    StepEvents(s, Publish(event));
    var u := Act(s, Publish(event)).value;
    ReleaseParts(u);
    StepEvents(u, WorkerReleases);
    var run := [Publish(event), WorkerReleases];
    assert run[1..] == [WorkerReleases] && [WorkerReleases][1..] == [];
    assert EventsOf(s.records) + [event] + [] == EventsOf(s.records) + [event];
  }

  lemma PublishParts(s: State, event: string)
    requires s.working && s.own.None?
    ensures Act(s, Publish(event)).Some?
    ensures var u := Act(s, Publish(event)).value;
      u.own == Some(|s.records|) && |u.monitors| == |s.monitors|
      && u.records == s.records + [Record(event, 1 + Opened(s.monitors), 0)]
      && forall i :: 0 <= i < |s.monitors| ==> Hears(s.monitors[i], u.monitors[i], |s.records|)
  {
    hide EnqueueAll, Opened;
    forall i | 0 <= i < |s.monitors|
      ensures Hears(s.monitors[i], EnqueueAll(s.monitors, |s.records|)[i], |s.records|)
    {
      AllChanged(s.monitors, |s.records|, Data, i);
    }
  }

  lemma ReleaseParts(s: State)
    requires s.own.Some? && s.own.value < |s.records| && s.records[s.own.value].counter > 0
    ensures Act(s, WorkerReleases).Some?
    ensures var t := Act(s, WorkerReleases).value;
      t.own.None? && t.monitors == s.monitors && |t.records| == |s.records|
      && t.records[s.own.value].counter == s.records[s.own.value].counter - 1
  {}

  // ----- the worker's last word -----

  function Gets(i: nat, n: nat): seq<Action> { if n == 0 then [] else [Get(i)] + Gets(i, n - 1) }

  /** When the worker stops, for whatever reason, every monitor on the list hears it, after everything that was
      published. */
  lemma LastWordComes(s: State, why: Byte, i: nat)
    requires Delivered(s) && Act(s, WorkerStops(why)).Some? && i < |s.monitors| && s.monitors[i].open
    ensures var t := Exec(s, [WorkerStops(why)] + Gets(i, |s.monitors[i].queue|));
      t.Some? && i < |t.value.monitors|
      && var m, m' := s.monitors[i], t.value.monitors[i];
        m'.queue == [] && m'.got == m.got + m.queue && m'.pipe == [why]
        && Act(t.value, Get(i)) == Some(t.value.(monitors := t.value.monitors[i := m'.(pipe := [])]))
  {
    hide SignalAll, Numbers;
    var m, t := s.monitors[i], Act(s, WorkerStops(why)).value;
    assert Delivers(m, |s.records|, s.working);
    AllChanged(s.monitors, 0, why, i);
    var run := [WorkerStops(why)] + Gets(i, |m.queue|);
    assert run[0] == WorkerStops(why) && run[1..] == Gets(i, |m.queue|);
    AllTaken(t, why, i);
  }

  lemma {:induction false} AllTaken(s: State, why: Byte, i: nat)
    requires i < |s.monitors| && s.monitors[i].open && !why.Data?
    requires var m := s.monitors[i];
      |m.pipe| == |m.queue| + 1 && m.pipe[|m.queue|] == why && forall k :: 0 <= k < |m.queue| ==> m.pipe[k].Data?
    ensures var t := Exec(s, Gets(i, |s.monitors[i].queue|));
      t.Some? && i < |t.value.monitors|
      && var m, m' := s.monitors[i], t.value.monitors[i];
        m'.queue == [] && m'.got == m.got + m.queue && m'.pipe == [why]
        && Act(t.value, Get(i)) == Some(t.value.(monitors := t.value.monitors[i := m'.(pipe := [])]))
    decreases |s.monitors[i].queue|
  {
    var m := s.monitors[i];
    if m.queue == [] {
      assert m.pipe == [why] && m.got + [] == m.got;
    } else {
      var t := Act(s, Get(i)).value;
      assert t.monitors[i] == m.(pipe := m.pipe[1..], queue := m.queue[1..], got := m.got + [m.queue[0]]);
      assert Gets(i, |m.queue|)[1..] == Gets(i, |m.queue| - 1);
      AllTaken(t, why, i);
      assert m.got + [m.queue[0]] + m.queue[1..] == m.got + m.queue;
    }
  }
}
