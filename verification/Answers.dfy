/** The daemon's answers to commands, argument by argument, against the automaton that reads them: every answer is
    accepted, and nothing that differs from one in the number of its arguments. */
module Answers {
  import opened Basics
  import opened Media
  import opened OptionTables
  import opened Replies

  datatype Request =
    | Mount(path: string, opts: Option<string>) | Unmount(path: string) | PowerOff(path: string)
    | Filesystems | FilesystemOptions(fstype: string)

  function FstypeNames(list: seq<Filesystem>): seq<Option<string>> {
    if list == [] then [] else [Some(list[0].fstype)] + FstypeNames(list[1..])
  }

  function OptionNames(entries: seq<Entry>): seq<Option<string>> {
    if entries == [] then [] else [Some(entries[0].name)] + OptionNames(entries[1..])
  }

  /** What the daemon sends when it did what was asked for; the two listings come as blocks. */
  function Done(q: Request, fs: Filesystem): seq<Message> {
    match q
    case Mount(path, opts) => [Message("succeeded", [Some("mount"), Some(path), opts])]
    case Unmount(path) => [Message("succeeded", [Some("unmount"), Some(path)])]
    case PowerOff(path) => [Message("succeeded", [Some("poweroff"), Some(path)])]
    case Filesystems =>
      [Message("started", [Some("list_supported_filesystems")]),
       Message("supported_filesystems_list", FstypeNames(FILESYSTEMS)),
       Message("finished", [Some("list_supported_filesystems")])]
    case FilesystemOptions(fstype) =>
      [Message("started", [Some("list_supported_filesystem_options"), Some(fstype)]),
       Message("supported_filesystem_options_list", OptionNames(InOrder(fs.lists))),
       Message("finished", [Some("list_supported_filesystem_options"), Some(fstype)])]
  }

  /** What it sends when it did not. Listing the file systems does not fail. */
  function NotDone(q: Request, error: string): seq<Message> {
    match q
    case Mount(path, opts) => [Message("failed", [Some("mount"), Some(path), opts, Some(error)])]
    case Unmount(path) => [Message("failed", [Some("unmount"), Some(path), Some(error)])]
    case PowerOff(path) => [Message("failed", [Some("poweroff"), Some(path), Some(error)])]
    case Filesystems => []
    case FilesystemOptions(fstype) =>
      [Message("failed", [Some("list_supported_filesystem_options"), Some(fstype), Some(error)])]
  }

  // ----- what is accepted between blocks -----

  /** A kind of answer: its name, what it answers, and how many arguments it has. */
  datatype Shape = Shape(cmd: string, query: string, count: nat)

  const SHAPES: seq<Shape> := [
    Shape("succeeded", "mount", 3), Shape("succeeded", "unmount", 2), Shape("succeeded", "poweroff", 2),
    Shape("failed", "mount", 4), Shape("failed", "unmount", 3), Shape("failed", "poweroff", 3),
    Shape("failed", "list_all_removable_devices", 2), Shape("failed", "list_removable_device", 3),
    Shape("failed", "list_supported_filesystems", 2), Shape("failed", "list_supported_filesystem_options", 3),
    Shape("started", "list_all_removable_devices", 1), Shape("started", "list_removable_device", 2),
    Shape("started", "list_supported_filesystems", 1), Shape("started", "list_supported_filesystem_options", 2)]

  /** Only the options of a mount may be missing. */
  predicate Has(m: Message, s: Shape) {
    m.cmd == s.cmd && |m.args| == s.count && s.count > 0 && m.args[0] == Some(s.query)
    && forall i :: 0 <= i < |m.args| ==> m.args[i].Some? || (s.query == "mount" && i == 2)
  }

  lemma CommandsApart()
    ensures "succeeded" != "failed" && "succeeded" != "started" && "failed" != "started"
    ensures "finished" != "failed" && "finished" != "started" && "finished" != "succeeded"
  {
    assert "succeeded"[1] == 'u' && "started"[1] == 't' && "failed"[1] == 'a' && "finished"[1] == 'i';
  }

  lemma QueriesApart()
    ensures "mount" != "unmount" && "mount" != "poweroff" && "unmount" != "poweroff"
    ensures forall q :: QueryName(q) != "mount" && QueryName(q) != "unmount" && QueryName(q) != "poweroff"
  {
    assert "mount"[0] == 'm' && "unmount"[0] == 'u' && "poweroff"[0] == 'p';
    assert forall q :: QueryName(q)[0] == 'l';
  }

  lemma NoNotification(m: Message)
    requires m.cmd == "succeeded" || m.cmd == "failed" || m.cmd == "started" || m.cmd == "finished"
    ensures !Notification(m)
  {
    assert ADDED[0] == 'r' && CHANGED[0] == 'r' && REMOVED[0] == 'r' && MOUNTED[0] == 'r' && UNMOUNTED[0] == 'r';
    assert "succeeded"[0] == 's' && "failed"[0] == 'f' && "started"[0] == 's' && "finished"[0] == 'f';
  }

  lemma SucceededIff(m: Message)
    ensures Succeeded(m) <==> Has(m, SHAPES[0]) || Has(m, SHAPES[1]) || Has(m, SHAPES[2])
  {
    QueriesApart();
  }

  lemma CommandRefusedIff(m: Message)
    requires m.cmd == "failed"
    ensures Has(m, SHAPES[3]) <==> |m.args| == 4 && m.args[3].Some? && m.args[1].Some? && m.args[0] == Some("mount")
    ensures Has(m, SHAPES[4]) <==> |m.args| == 3 && m.args[2].Some? && m.args[1].Some? && m.args[0] == Some("unmount")
    ensures Has(m, SHAPES[5]) <==> |m.args| == 3 && m.args[2].Some? && m.args[1].Some? && m.args[0] == Some("poweroff")
  {
    QueriesApart();
  }

  lemma QueryRefusedIff(m: Message)
    requires m.cmd == "failed"
    ensures Has(m, SHAPES[6]) <==> RefusedQuery(m, ListAll)
    ensures Has(m, SHAPES[7]) <==> RefusedQuery(m, ListOne)
    ensures Has(m, SHAPES[8]) <==> RefusedQuery(m, ListFilesystems)
    ensures Has(m, SHAPES[9]) <==> RefusedQuery(m, ListOptions)
  {
    QueriesApart();
  }

  lemma OpensIff(m: Message)
    requires m.cmd == "started"
    ensures Has(m, SHAPES[10]) <==> Opens(m, ListAll)
    ensures Has(m, SHAPES[11]) <==> Opens(m, ListOne)
    ensures Has(m, SHAPES[12]) <==> Opens(m, ListFilesystems)
    ensures Has(m, SHAPES[13]) <==> Opens(m, ListOptions)
  {
    QueriesApart();
  }

  /** Between blocks exactly the messages of these shapes are accepted, apart from notifications. */
  lemma AcceptedIff(m: Message)
    requires m.cmd == "succeeded" || m.cmd == "failed" || m.cmd == "started"
    ensures Next(Idle, m).Some? <==> exists i :: 0 <= i < |SHAPES| && Has(m, SHAPES[i])
  {
    NoNotification(m);
    CommandsApart();
    hide Notification, QueryName, RefusedQuery, Generic;
    SucceededIff(m);
    if m.cmd == "failed" {
      CommandRefusedIff(m);
      QueryRefusedIff(m);
    } else if m.cmd == "started" {
      OpensIff(m);
    }
    hide Has, Opens, Refused, Succeeded;
  }

  lemma ShapesApart(i: nat, j: nat)
    requires i < |SHAPES| && j < |SHAPES| && SHAPES[i].cmd == SHAPES[j].cmd && SHAPES[i].query == SHAPES[j].query
    ensures i == j
  {
    CommandsApart();
    assert |"mount"| == 5 && |"unmount"| == 7 && |"poweroff"| == 8 && |"list_removable_device"| == 21;
    assert |"list_supported_filesystem_options"| == 33;
    assert "list_all_removable_devices"[5] == 'a' && "list_supported_filesystems"[5] == 's';
  }

  /** With any other number of arguments such a message ends the handle. */
  lemma WrongCount(m: Message, i: nat)
    requires i < |SHAPES| && m.cmd == SHAPES[i].cmd && |m.args| != SHAPES[i].count
    requires m.args == [] || m.args[0] == Some(SHAPES[i].query)
    ensures Run(Idle, [m]) == None
  {
    hide Next;
    AcceptedIff(m);
    if j :| 0 <= j < |SHAPES| && Has(m, SHAPES[j]) { ShapesApart(i, j); }
    assert [m][1..] == [];
  }

  lemma RunOne(p: Phase, m: Message)
    ensures Run(p, [m]) == Next(p, m)
  {
    hide Next;
    assert [m][1..] == [];
  }

  lemma ShapeAccepted(m: Message, i: nat)
    requires i < |SHAPES| && Has(m, SHAPES[i]) && m.cmd != "started"
    ensures Run(Idle, [m]) == Some(Idle)
  {
    RunOne(Idle, m);
    AcceptedIff(m);
    NoNotification(m);
    hide Has, Notification, Refused, Succeeded, Generic;
    CommandsApart();
  }

  lemma {:induction false} NamesPresent(list: seq<Filesystem>, entries: seq<Entry>)
    ensures AllPresent(FstypeNames(list)) && AllPresent(OptionNames(entries))
    decreases |list| + |entries|
  {
    if list != [] { NamesPresent(list[1..], entries); }
    if entries != [] { NamesPresent(list, entries[1..]); }
  }

  // ----- the daemon's answers have these shapes -----

  function DoneShape(q: Request): nat {
    match q
    case Mount(_, _) => 0
    case Unmount(_) => 1
    case PowerOff(_) => 2
    case Filesystems => 12
    case FilesystemOptions(_) => 13
  }

  function NotDoneShape(q: Request): nat {
    match q
    case Mount(_, _) => 3
    case Unmount(_) => 4
    case PowerOff(_) => 5
    case Filesystems => 8
    case FilesystemOptions(_) => 9
  }

  lemma DoneHas(q: Request, fs: Filesystem)
    ensures Done(q, fs) != [] && Has(Done(q, fs)[0], SHAPES[DoneShape(q)])
  {}

  lemma NotDoneHas(q: Request, error: string)
    ensures NotDone(q, error) == [] || (|NotDone(q, error)| == 1 && Has(NotDone(q, error)[0], SHAPES[NotDoneShape(q)]))
  {}

  lemma NothingRun()
    ensures Run(Idle, []) == Some(Idle)
  {}

  lemma BlockAccepted(q: Query, lines: seq<Message>)
    requires |lines| == 3 && Opens(lines[0], q) && ItemOf(lines[1], q) && Closes(lines[2], q)
    ensures Run(Idle, lines) == Some(Idle)
  {
    OpenedBy(lines[0], q);
    KindsApart(lines[1], q);
    KindsApart(lines[2], q);
    hide Opens, ItemOf, Closes;
    assert lines == [lines[0]] + [lines[1]] + [lines[2]];
    RunAppend(Idle, [lines[0]] + [lines[1]], [lines[2]]);
    RunAppend(Idle, [lines[0]], [lines[1]]);
    RunOne(Idle, lines[0]);
    RunOne(Inside(q), lines[1]);
    RunOne(Inside(q), lines[2]);
  }

  lemma ListingAccepted(q: Request, fs: Filesystem)
    requires q.Filesystems? || q.FilesystemOptions?
    ensures Run(Idle, Done(q, fs)) == Some(Idle)
  {
    hide Run, Next, AllPresent;
    NamesPresent(FILESYSTEMS, InOrder(fs.lists));
    BlockAccepted(if q.Filesystems? then ListFilesystems else ListOptions, Done(q, fs));
  }

  /** Every answer of the daemon is accepted, and leaves no block open. */
  lemma AnswerAccepted(q: Request, fs: Filesystem, error: string)
    ensures Run(Idle, Done(q, fs)) == Some(Idle) && Run(Idle, NotDone(q, error)) == Some(Idle)
  {
    hide Run, Has;
    DoneHas(q, fs);
    NotDoneHas(q, error);
    NothingRun();
    if NotDone(q, error) != [] {
      CommandsApart();
      ShapeAccepted(NotDone(q, error)[0], NotDoneShape(q));
      assert NotDone(q, error) == [NotDone(q, error)[0]];
    }
    if q.Filesystems? || q.FilesystemOptions? {
      ListingAccepted(q, fs);
    } else {
      CommandsApart();
      ShapeAccepted(Done(q, fs)[0], DoneShape(q));
      assert Done(q, fs) == [Done(q, fs)[0]];
    }
  }

  lemma Reshaped(m: Message, i: nat, extra: Option<string>)
    requires i < |SHAPES| && Has(m, SHAPES[i])
    ensures Run(Idle, [Message(m.cmd, m.args + [extra])]) == None
    ensures Run(Idle, [Message(m.cmd, m.args[..|m.args| - 1])]) == None
  {
    hide Run;
    WrongCount(Message(m.cmd, m.args + [extra]), i);
    WrongCount(Message(m.cmd, m.args[..|m.args| - 1]), i);
  }

  /** With one argument more, or one less, than the daemon sends, the first line of an answer ends the handle. */
  lemma OneMoreOrLess(q: Request, fs: Filesystem, extra: Option<string>)
    ensures Done(q, fs) != [] && Done(q, fs)[0].args != []
    ensures var m := Done(q, fs)[0];
      Run(Idle, [Message(m.cmd, m.args + [extra])]) == None
      && Run(Idle, [Message(m.cmd, m.args[..|m.args| - 1])]) == None
  {
    hide Run, Has, Done;
    DoneHas(q, fs);
    HasSome(Done(q, fs)[0], DoneShape(q));
    Reshaped(Done(q, fs)[0], DoneShape(q), extra);
  }

  /** So it is for a refusal. */
  lemma RefusalOneMoreOrLess(q: Request, error: string, extra: Option<string>)
    requires NotDone(q, error) != []
    ensures NotDone(q, error)[0].args != []
    ensures var m := NotDone(q, error)[0];
      Run(Idle, [Message(m.cmd, m.args + [extra])]) == None
      && Run(Idle, [Message(m.cmd, m.args[..|m.args| - 1])]) == None
  {
    hide Run, Has, NotDone;
    NotDoneHas(q, error);
    HasSome(NotDone(q, error)[0], NotDoneShape(q));
    Reshaped(NotDone(q, error)[0], NotDoneShape(q), extra);
  }

  lemma HasSome(m: Message, i: nat)
    requires i < |SHAPES| && Has(m, SHAPES[i])
    ensures m.args != []
  {}

  // ----- inside a block -----

  /** A block ends with the line that repeats its query, and holds nothing but its own items. */
  lemma BlockIff(q: Query, m: Message)
    ensures Next(Inside(q), m) == Some(Idle) <==>
      m.cmd == "finished" &&
      match q
      case ListAll => m.args == [Some("list_all_removable_devices")]
      case ListOne => |m.args| == 2 && m.args[0] == Some("list_removable_device") && m.args[1].Some?
      case ListFilesystems => m.args == [Some("list_supported_filesystems")]
      case ListOptions => |m.args| == 2 && m.args[0] == Some("list_supported_filesystem_options") && m.args[1].Some?
    ensures Next(Inside(q), m) == Some(Inside(q)) <==>
      match q
      case ListAll | ListOne => m.cmd == "removable_device" && ValidDescription(m.args)
      case ListFilesystems => m.cmd == "supported_filesystems_list" && None !in m.args
      case ListOptions => m.cmd == "supported_filesystem_options_list" && None !in m.args
  {
    hide ValidDescription;
    KindsApart(m, q);
  }

  // ----- announcements -----

  /** The announcements that carry no description. */
  lemma PlainNotificationIff(m: Message)
    ensures m.cmd == "removable_device_removed" ==> (Next(Idle, m).Some? <==> |m.args| == 1 && None !in m.args)
    ensures m.cmd == "removable_device_mounted" ==> (Next(Idle, m).Some? <==> |m.args| == 3 && None !in m.args)
    ensures m.cmd == "removable_device_unmounted" ==> (Next(Idle, m).Some? <==> |m.args| == 2 && None !in m.args)
    ensures m.cmd == "removable_device_added" || m.cmd == "removable_device_changed" ==>
      (Next(Idle, m).Some? <==> ValidDescription(m.args))
  {
    hide ValidDescription;
    NotificationNamesDiffer();
    if m.cmd == ADDED || m.cmd == REMOVED || m.cmd == CHANGED || m.cmd == MOUNTED || m.cmd == UNMOUNTED {
      NotAnswer(m.cmd);
    }
  }

  lemma NotAnswer(c: string)
    requires c == ADDED || c == REMOVED || c == CHANGED || c == MOUNTED || c == UNMOUNTED
    ensures c != STARTED && c != FAILED && c != SUCCEEDED
  {
    assert c[0] == 'r' && STARTED[0] == 's' && FAILED[0] == 'f' && SUCCEEDED[0] == 's';
  }

  /** How a device is described, argument by argument. */
  lemma DescriptionText(parent: string, path: string, m: Media)
    ensures m.kind.Partition? ==>
      DescribeArgs(parent, path, m) ==
        [Some(parent), Some(path), Some("device partition"), m.fstype, m.volume, m.mnt, m.opts]
    ensures m.kind.Stateless? ==>
      DescribeArgs(parent, path, m) ==
        [Some(parent), Some(path), Some("stateless device"), Some(SubtypeText(m.subtype))]
    ensures m.kind.Stateful? ==>
      DescribeArgs(parent, path, m) ==
        [Some(parent), Some(path), Some("stateful device"), Some(SubtypeText(m.subtype)), Some(StateText(m.state)),
         m.fstype, m.volume, m.mnt, m.opts]
  {}

  function SubtypeText(t: Subtype): string {
    if t.SdCard? then "sdcard" else if t.Cdrom? then "cdrom" else if t.RemovableDisk? then "removable disk"
      else "unknown"
  }

  function StateText(t: State): string {
    if t.Ready? then "ok" else if t.Clear? then "clear" else if t.Empty? then "empty" else "unknown"
  }

  /** The line of each announcement; a device of unknown type has none. */
  lemma AnnouncementLines(n: Note)
    ensures match n
      case Added(parent, path, m) =>
        Wire(n) == if m.kind.UnknownKind? then []
                   else [Message("removable_device_added", DescribeArgs(parent, path, m))]
      case Changed(parent, path, m) =>
        Wire(n) == if m.kind.UnknownKind? then []
                   else [Message("removable_device_changed", DescribeArgs(parent, path, m))]
      case Removed(path) => Wire(n) == [Message("removable_device_removed", [Some(path)])]
      case Mounted(path, mnt, opts) =>
        Wire(n) == [Message("removable_device_mounted", [Some(path), Some(mnt), Some(opts)])]
      case Unmounted(path, mnt) => Wire(n) == [Message("removable_device_unmounted", [Some(path), Some(mnt)])]
  {
    hide DescribeArgs;
  }
}
