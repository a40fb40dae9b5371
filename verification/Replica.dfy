/** The graphical client's copy of the device tree, as a forest: what each received command does to it, and what
    that means in terms of the daemon's announcements. */
module Replica {
  import opened Forests
  import opened Media

  predicate ValidNotification(c: Command) {
    (c.cmd == ADDED || c.cmd == CHANGED) && ValidDescription(Reconstructed(c.args))
  }

  function DescribedDevice(c: Command): Device
    requires ValidNotification(c)
  {
    AsDevice(Fill(Reconstructed(c.args)))
  }

  /** One command, branch by branch: the new devices, and whether anything was touched. */
  function Process(f: Forest<Device>, c: Command): (Forest<Device>, bool) {
    if c.cmd == ADDED && ValidNotification(c) then
      if c.args[1] in Paths(f) then (f, false)
      else if c.args[0] == ROOT_PATH then (InsertSorted(f, c.args[1], DescribedDevice(c)), true)
      else if c.args[0] in Paths(f) then (InsertUnder(f, c.args[0], c.args[1], DescribedDevice(c)), true)
      else (f, false)
    else if c.cmd == REMOVED && |c.args| == 1 && c.args[0] != "" then
      if c.args[0] in Paths(f) then (Remove(f, c.args[0]), true) else (f, false)
    else if c.cmd == CHANGED && ValidNotification(c) then
      if c.args[1] in Paths(f) then (Update(f, c.args[1], DescribedDevice(c)), true) else (f, false)
    else if c.cmd == MOUNTED && |c.args| == 3 && c.args[0] != "" && c.args[1] != "" && c.args[2] != "" then
      if c.args[0] in Paths(f)
      then (Update(f, c.args[0], Get(f, c.args[0]).(mnt := c.args[1], opts := c.args[2])), true) else (f, false)
    else if c.cmd == UNMOUNTED && |c.args| == 2 && c.args[0] != "" && c.args[1] != "" then
      if c.args[0] in Paths(f)
      then (Update(f, c.args[0], Get(f, c.args[0]).(mnt := "", opts := "")), true) else (f, false)
    else (f, false)
  }

  function ProcessAll(f: Forest<Device>, cs: seq<Command>): Forest<Device>
    decreases |cs|
  {
    if cs == [] then f else ProcessAll(Process(f, cs[0]).0, cs[1..])
  }

  function Commands(lines: seq<Message>): seq<Command> {
    if lines == [] then [] else [Received(lines[0])] + Commands(lines[1..])
  }

  lemma {:induction false} CommandsAppend(a: seq<Message>, b: seq<Message>)
    ensures Commands(a + b) == Commands(a) + Commands(b)
  {
    if a == [] {
      assert a + b == b;
    } else {
      assert (a + b)[1..] == a[1..] + b;
      CommandsAppend(a[1..], b);
    }
  }

  lemma {:induction false} ProcessAppend(f: Forest<Device>, a: seq<Command>, b: seq<Command>)
    ensures ProcessAll(f, a + b) == ProcessAll(ProcessAll(f, a), b)
    decreases |a|
  {
    if a == [] {
      assert a + b == b;
    } else {
      assert (a + b)[1..] == a[1..] + b;
      ProcessAppend(Process(f, a[0]).0, a[1..], b);
    }
  }

  // ----- the same in terms of what the daemon meant to say -----

  /** The effect of a note on a replica. */
  function Apply(f: Forest<Device>, n: Note): Forest<Device> {
    match n
    case Added(parent, path, m) =>
      if path in Paths(f) then f else Insert(f, parent, path, AsDevice(Conveyed(m)))
    case Removed(path) => Remove(f, path)
    case Changed(_, path, m) => Update(f, path, AsDevice(Conveyed(m)))
    case Mounted(path, mnt, opts) =>
      if path in Paths(f) && mnt != ""
        && opts != "" then Update(f, path, Get(f, path).(mnt := mnt, opts := opts)) else f
    case Unmounted(path, mnt) =>
      if path in Paths(f) && mnt != "" then Update(f, path, Get(f, path).(mnt := "", opts := "")) else f
  }

  function ApplyAll(f: Forest<Device>, notes: seq<Note>): Forest<Device>
    decreases |notes|
  {
    if notes == [] then f else ApplyAll(Apply(f, notes[0]), notes[1..])
  }

  lemma {:induction false} ApplyAppend(f: Forest<Device>, a: seq<Note>, b: seq<Note>)
    ensures ApplyAll(f, a + b) == ApplyAll(ApplyAll(f, a), b)
    decreases |a|
  {
    if a == [] {
      assert a + b == b;
    } else {
      assert (a + b)[1..] == a[1..] + b;
      ApplyAppend(Apply(f, a[0]), a[1..], b);
    }
  }

  lemma ApplyOne(f: Forest<Device>, n: Note)
    ensures ApplyAll(f, [n]) == Apply(f, n)
  {
    assert [n][1..] == [];
  }

  lemma ApplyTwo(f: Forest<Device>, n: Note, m: Note)
    ensures ApplyAll(f, [n, m]) == Apply(Apply(f, n), m)
  {
    assert [n, m] == [n] + [m];
    ApplyAppend(f, [n], [m]);
    ApplyOne(f, n);
    ApplyOne(Apply(f, n), m);
  }

  /** Notes whose line a client accepts. */
  predicate Readable(n: Note) {
    n.path != "" && match n
      case Added(parent, _, m) => parent != "" && Transmissible(m)
      case Changed(parent, _, m) => parent != "" && Transmissible(m)
      case _ => true
  }

  lemma {:induction false} RemoveAbsent<T>(f: Forest<T>, p: string)
    requires p !in Paths(f)
    ensures Remove(f, p) == f
  {
    if f.Node? {
      RemoveAbsent(f.kids, p);
      RemoveAbsent(f.next, p);
    }
  }

  lemma {:induction false} InsertAbsent<T>(f: Forest<T>, parent: string, p: string, d: T)
    requires parent !in Paths(f)
    ensures InsertUnder(f, parent, p, d) == f
  {
    if f.Node? {
      InsertAbsent(f.kids, parent, p, d);
      InsertAbsent(f.next, parent, p, d);
    }
  }

  lemma DescriptionHead(action: string, parent: string, path: string, m: Media)
    requires Transmissible(m)
    ensures var c := Received(Message(action, DescribeArgs(parent, path, m)));
      c.cmd == action && |c.args| >= 3 && c.args[0] == parent && c.args[1] == path
  {}

  lemma ProcessDescription(f: Forest<Device>, parent: string, path: string, m: Media)
    requires parent != "" && path != "" && Transmissible(m)
    ensures Process(f, Received(Message(ADDED, DescribeArgs(parent, path, m)))).0 == Apply(f, Added(parent, path, m))
    ensures Process(f, Received(Message(CHANGED, DescribeArgs(parent, path, m)))).0
      == Apply(f, Changed(parent, path, m))
  {
    hide Conveyed, Transmissible, ValidDescription, Fill, InsertSorted, InsertUnder, Update, Paths;
    NotificationNamesDiffer();
    DescriptionHead(ADDED, parent, path, m);
    DescriptionHead(CHANGED, parent, path, m);
    ReceivedDescription(ADDED, parent, path, m);
    ReceivedDescription(CHANGED, parent, path, m);
    if parent != ROOT_PATH && parent !in Paths(f) { InsertAbsent(f, parent, path, AsDevice(Conveyed(m))); }
    if path !in Paths(f) { UpdateSame(f, path, AsDevice(Conveyed(m))); }
  }

  /** Sending a readable note and processing what arrives has exactly the note's effect. */
  lemma ProcessReceived(f: Forest<Device>, n: Note)
    requires Readable(n)
    ensures |Wire(n)| == 1 && Process(f, Received(Wire(n)[0])).0 == Apply(f, n)
  {
    NotificationNamesDiffer();
    match n
    case Added(parent, path, m) => ProcessDescription(f, parent, path, m);
    case Changed(parent, path, m) => ProcessDescription(f, parent, path, m);
    case Removed(path) =>
      if path !in Paths(f) { RemoveAbsent(f, path); }
    case Mounted(_, _, _) =>
    case Unmounted(_, _) =>
  }

  /** A line that a client does not accept changes nothing, if it is sent at all. */
  lemma ProcessUnreadable(f: Forest<Device>, n: Note)
    requires !Readable(n)
    ensures Wire(n) == [] || (|Wire(n)| == 1 && Process(f, Received(Wire(n)[0])).0 == f)
  {
    hide ValidDescription, Transmissible, Fill, Conveyed;
    NotificationNamesDiffer();
    if n.Added? || n.Changed? {
      if n.path == "" || n.parent == "" {
        HeadRefused(ADDED, n);
        HeadRefused(CHANGED, n);
      }
      if n.path != "" && n.parent != "" {
        ReceivedDescription(ADDED, n.parent, n.path, n.media);
        ReceivedDescription(CHANGED, n.parent, n.path, n.media);
      }
    }
  }

  lemma HeadRefused(action: string, n: Note)
    requires (n.Added? || n.Changed?) && (n.path == "" || n.parent == "")
    ensures !ValidDescription(Reconstructed(Received(Message(action, DescribeArgs(n.parent, n.path, n.media))).args))
  {}

  /** The part of a log that reaches a client. */
  function Heard(notes: seq<Note>): seq<Note> {
    if notes == [] then [] else (if Readable(notes[0]) then [notes[0]] else []) + Heard(notes[1..])
  }

  /** Processing the lines of any log has exactly the effect of its readable notes. */
  lemma {:induction false} ProcessHeard(f: Forest<Device>, notes: seq<Note>)
    ensures ProcessAll(f, Commands(Wires(notes))) == ApplyAll(f, Heard(notes))
    decreases |notes|
  {
    if notes != [] {
      hide *;
      var n, more := notes[0], notes[1..];
      var f' := if Readable(n) then Apply(f, n) else f;
      assert notes == [n] + more;
      HeardFirst(f, n, more);
      ProcessFirst(f, n, Wires(more));
      WiresFirst(n, more);
      ProcessHeard(f', more);
    }
  }

  lemma HeardFirst(f: Forest<Device>, n: Note, more: seq<Note>)
    ensures ApplyAll(f, Heard([n] + more)) == ApplyAll(if Readable(n) then Apply(f, n) else f, Heard(more))
  {
    hide Readable, Apply;
    assert ([n] + more)[1..] == more;
    assert Heard([n] + more) == (if Readable(n) then [n] else []) + Heard(more);
    if Readable(n) {
      assert Heard([n] + more)[0] == n && Heard([n] + more)[1..] == Heard(more);
    } else {
      assert Heard([n] + more) == Heard(more);
    }
  }

  lemma WiresFirst(n: Note, more: seq<Note>)
    ensures Wires([n] + more) == Wire(n) + Wires(more)
  {
    assert ([n] + more)[1..] == more;
  }

  lemma ProcessFirst(f: Forest<Device>, n: Note, rest: seq<Message>)
    ensures ProcessAll(f, Commands(Wire(n) + rest)) ==
      ProcessAll(if Readable(n) then Apply(f, n) else f, Commands(rest))
  {
    hide Process, Apply, Wire, Readable, Received;
    if Readable(n) { ProcessReceived(f, n); } else { ProcessUnreadable(f, n); }
    if Wire(n) == [] {
      assert Wire(n) + rest == rest;
    } else {
      var lines := Wire(n) + rest;
      assert lines[0] == Wire(n)[0] && lines[1..] == rest;
      assert Commands(lines)[1..] == Commands(rest);
    }
  }

  lemma {:induction false} ProcessAllReceived(f: Forest<Device>, notes: seq<Note>)
    requires forall i :: 0 <= i < |notes| ==> Readable(notes[i])
    ensures ProcessAll(f, Commands(Wires(notes))) == ApplyAll(f, notes)
  {
    ProcessHeard(f, notes);
    AllHeard(notes);
  }

  lemma {:induction false} AllHeard(notes: seq<Note>)
    requires forall i :: 0 <= i < |notes| ==> Readable(notes[i])
    ensures Heard(notes) == notes
  {
    if notes != [] { AllHeard(notes[1..]); }
  }
}
