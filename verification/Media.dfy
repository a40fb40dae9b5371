/** The data of one removable device, the messages that describe it, and their reading by a client. */
module Media {
  import opened Basics

  datatype Kind = UnknownKind | Partition | Stateless | Stateful

  datatype Subtype = UnknownSubtype | RemovableDisk | SdCard | Cdrom

  datatype State = UnknownState | Empty | Clear | Ready

  function KindToString(k: Kind): string {
    match k
    case Partition => "device partition"
    case Stateless => "stateless device"
    case Stateful => "stateful device"
    case UnknownKind => "unknown"
  }

  function StringToKind(s: Option<string>): Kind {
    if s == Some("device partition") then Partition
    else if s == Some("stateless device") then Stateless
    else if s == Some("stateful device") then Stateful
    else UnknownKind
  }

  function SubtypeToString(t: Subtype): string {
    match t
    case Cdrom => "cdrom"
    case RemovableDisk => "removable disk"
    case SdCard => "sdcard"
    case UnknownSubtype => "unknown"
  }

  function StringToSubtype(s: Option<string>): Subtype {
    if s == Some("cdrom") then Cdrom
    else if s == Some("removable disk") then RemovableDisk
    else if s == Some("sdcard") then SdCard
    else UnknownSubtype
  }

  function StateToString(t: State): string {
    match t
    case Empty => "empty"
    case Clear => "clear"
    case Ready => "ok"
    case UnknownState => "unknown"
  }

  function StringToState(s: Option<string>): State {
    if s == Some("empty") then Empty
    else if s == Some("clear") then Clear
    else if s == Some("ok") then Ready
    else UnknownState
  }

  lemma NamesRoundTrip(k: Kind, t: Subtype, s: State)
    ensures StringToKind(Some(KindToString(k))) == k
    ensures StringToSubtype(Some(SubtypeToString(t))) == t
    ensures StringToState(Some(StateToString(s))) == s
    ensures KindToString(k) != "" && SubtypeToString(t) != "" && StateToString(s) != ""
  {
    assert "stateless device"[0] != "device partition"[0];
    assert "unknown"[0] != "empty"[0] && "empty"[0] != "clear"[0];
    assert "cdrom"[0] != "sdcard"[0] && "removable disk"[0] != "cdrom"[0];
  }

  /** A device as the daemon and the C library hold it. Only the daemon uses `sysfs` and the counter. */
  datatype Media = Media(
    kind: Kind, subtype: Subtype, state: State,
    fstype: Option<string>, volume: Option<string>, mnt: Option<string>, opts: Option<string>,
    sysfs: Option<string>, counter: bv32)

  /** A device as the C++ client holds it. */
  datatype Device = Device(
    kind: Kind, subtype: Subtype, state: State,
    fstype: string, volume: string, mnt: string, opts: string)

  function AsDevice(m: Media): Device {
    Device(m.kind, m.subtype, m.state, Text(m.fstype), Text(m.volume), Text(m.mnt), Text(m.opts))
  }

  // ----- messages -----

  /** A protocol line: a command name with optional arguments. */
  datatype Message = Message(cmd: string, args: seq<Option<string>>)

  const ADDED := "removable_device_added"
  const REMOVED := "removable_device_removed"
  const CHANGED := "removable_device_changed"
  const MOUNTED := "removable_device_mounted"
  const UNMOUNTED := "removable_device_unmounted"
  const ITEM := "removable_device"

  lemma NotificationNamesDiffer()
    ensures ADDED != REMOVED && ADDED != CHANGED && ADDED != MOUNTED && ADDED != UNMOUNTED
    ensures REMOVED != CHANGED && REMOVED != MOUNTED && REMOVED != UNMOUNTED
    ensures CHANGED != MOUNTED && CHANGED != UNMOUNTED && MOUNTED != UNMOUNTED
  {
    assert ADDED[17] == 'a' && REMOVED[17] == 'r' && CHANGED[17] == 'c' && MOUNTED[17] == 'm' && UNMOUNTED[17] == 'u';
  }

  function DescribeArgs(parent: string, path: string, m: Media): seq<Option<string>> {
    var head := [Some(parent), Some(path), Some(KindToString(m.kind))];
    match m.kind
    case Partition => head + [m.fstype, m.volume, m.mnt, m.opts]
    case Stateless => head + [Some(SubtypeToString(m.subtype))]
    case Stateful =>
      head + [Some(SubtypeToString(m.subtype)), Some(StateToString(m.state)), m.fstype, m.volume, m.mnt, m.opts]
    case UnknownKind => []
  }

  /** A device of unknown type is not announced at all. */
  function Describe(action: string, parent: string, path: string, m: Media): seq<Message> {
    if m.kind.UnknownKind? then [] else [Message(action, DescribeArgs(parent, path, m))]
  }

  /** What the daemon has to tell its clients. */
  datatype Note =
    | Added(parent: string, path: string, media: Media)
    | Removed(path: string)
    | Changed(parent: string, path: string, media: Media)
    | Mounted(path: string, mnt: string, opts: string)
    | Unmounted(path: string, mnt: string)

  /** The line, if any, that is sent to every client. */
  function Wire(n: Note): seq<Message> {
    match n
    case Added(parent, path, m) => Describe(ADDED, parent, path, m)
    case Changed(parent, path, m) => Describe(CHANGED, parent, path, m)
    case Removed(path) => [Message(REMOVED, [Some(path)])]
    case Mounted(path, mnt, opts) => [Message(MOUNTED, [Some(path), Some(mnt), Some(opts)])]
    case Unmounted(path, mnt) => [Message(UNMOUNTED, [Some(path), Some(mnt)])]
  }

  function Wires(notes: seq<Note>): seq<Message> {
    if notes == [] then [] else Wire(notes[0]) + Wires(notes[1..])
  }

  lemma {:induction false} WiresAppend(a: seq<Note>, b: seq<Note>)
    ensures Wires(a + b) == Wires(a) + Wires(b)
  {
    if a == [] {
      assert a + b == b;
    } else {
      assert (a + b)[1..] == a[1..] + b;
      WiresAppend(a[1..], b);
    }
  }

  // ----- reading a description -----

  /** Argument count and mandatory arguments per type; unknown names are refused. */
  predicate ValidDescription(args: seq<Option<string>>) {
    |args| >= 3 && args[0].Some? && args[1].Some? && args[2].Some? &&
    match StringToKind(args[2])
    case Partition => |args| == 7
    case Stateless => |args| == 4 && args[3].Some? && StringToSubtype(args[3]) != UnknownSubtype
    case Stateful =>
      |args| == 9 && args[3].Some? && args[4].Some?
      && StringToSubtype(args[3]) != UnknownSubtype && StringToState(args[4]) != UnknownState
    case UnknownKind => false
  }

  /** The device a valid description builds. */
  function Fill(args: seq<Option<string>>): Media
    requires ValidDescription(args)
  {
    match StringToKind(args[2])
    case Partition =>
      Media(Partition, UnknownSubtype, UnknownState, args[3], args[4], args[5], args[6], None, 0)
    case Stateless =>
      Media(Stateless, StringToSubtype(args[3]), UnknownState, None, None, None, None, None, 0)
    case Stateful =>
      Media(Stateful, StringToSubtype(args[3]), StringToState(args[4]), args[5], args[6], args[7], args[8], None, 0)
  }

  /** Devices whose description a client accepts. */
  predicate Transmissible(m: Media) {
    m.kind != UnknownKind
    && (m.kind != Partition ==> m.subtype != UnknownSubtype)
    && (m.kind == Stateful ==> m.state != UnknownState)
  }

  /** The part of a device that its description carries. */
  function Conveyed(m: Media): Media {
    match m.kind
    case Partition => Media(Partition, UnknownSubtype, UnknownState, m.fstype, m.volume, m.mnt, m.opts, None, 0)
    case Stateless => Media(Stateless, m.subtype, UnknownState, None, None, None, None, None, 0)
    case Stateful => Media(Stateful, m.subtype, m.state, m.fstype, m.volume, m.mnt, m.opts, None, 0)
    case UnknownKind => Media(UnknownKind, UnknownSubtype, UnknownState, None, None, None, None, None, 0)
  }

  /** A client accepts a description exactly when the device is transmissible, and then reads what it conveys. */
  lemma DescriptionRoundTrip(parent: string, path: string, m: Media)
    ensures ValidDescription(DescribeArgs(parent, path, m)) <==> Transmissible(m)
    ensures Transmissible(m) ==> Fill(DescribeArgs(parent, path, m)) == Conveyed(m)
  {
    NamesRoundTrip(m.kind, m.subtype, m.state);
  }

  // ----- the C++ binding: missing arguments become empty strings and back -----

  datatype Command = Command(cmd: string, args: seq<string>)

  function Received(m: Message): Command {
    Command(m.cmd, seq(|m.args|, i requires 0 <= i < |m.args| => Text(m.args[i])))
  }

  function Reconstructed(args: seq<string>): seq<Option<string>> {
    seq(|args|, i requires 0 <= i < |args| => if args[i] == "" then None else Some(args[i]))
  }

  lemma ReceivedDescription(action: string, parent: string, path: string, m: Media)
    requires parent != "" && path != ""
    ensures var args := Reconstructed(Received(Message(action, DescribeArgs(parent, path, m))).args);
      (ValidDescription(args) <==> Transmissible(m))
      && (Transmissible(m) ==> AsDevice(Fill(args)) == AsDevice(Conveyed(m)))
  {
    hide KindToString, StringToKind, SubtypeToString, StringToSubtype, StateToString, StringToState;
    NamesRoundTrip(m.kind, m.subtype, m.state);
  }
}
