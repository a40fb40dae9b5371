/** What the daemon's device operations do to the forest of devices and what they announce: the
    specification of the linked lists in DeviceTree, and the subject of the theorems about runs. */
module Daemon {
  import opened Basics
  import opened Forests
  import opened Media
  import Labels

  /** What the device event source says about a device; the volume label is still encoded. */
  datatype Report = Report(
    kind: Kind, subtype: Subtype, state: State,
    fstype: Option<string>, volume: Option<string>, mnt: Option<string>, opts: Option<string>,
    sysfs: Option<string>)

  datatype Outcome = Success | Fail | Fatal | Bug

  predicate Stops(o: Outcome) { o.Fatal? || o.Bug? }

  datatype Effect = Effect(forest: Forest<Media>, notes: seq<Note>, outcome: Outcome)

  function DecodedVolume(r: Report): Option<Option<string>> {
    match r.volume
    case None => Some(None)
    case Some(e) => if Labels.Decoded(e).None? then None else Some(Labels.Decoded(e))
  }

  function NewMedia(r: Report, volume: Option<string>): Media {
    Media(r.kind, r.subtype, r.state, r.fstype, volume, r.mnt, r.opts, r.sysfs, if r.mnt.Some? then 1 else 0)
  }

  function AddMedia(f: Forest<Media>, parent: string, path: string, r: Report): Effect {
    if parent != ROOT_PATH && parent !in Paths(f) then Effect(f, [], Fail)
    else match DecodedVolume(r)
      case None => Effect(f, [], Fatal)
      case Some(volume) =>
        var m := NewMedia(r, volume);
        Effect(Insert(f, parent, path, m), [Added(parent, path, m)], Success)
  }

  function UnmountNotes(path: string, m: Media): seq<Note> {
    if m.mnt.Some? then [Unmounted(path, m.mnt.value)] else []
  }

  /** Removal announces children before parents, and an unmount before its device's removal. */
  function Farewell(f: Forest<Media>): seq<Note> {
    match f
    case Nil => []
    case Node(p, m, kids, next) => Farewell(kids) + UnmountNotes(p, m) + [Removed(p)] + Farewell(next)
  }

  function RemoveMedia(f: Forest<Media>, path: string): Effect {
    if path !in Paths(f) then Effect(f, [], Fail)
    else Effect(Remove(f, path), Farewell(Subtree(f, path)), Success)
  }

  predicate SameVolume(stored: Option<string>, reported: Option<string>) {
    match (stored, reported)
    case (None, None) => true
    case (Some(d), Some(e)) => Labels.Matches(d, e)
    case _ => false
  }

  /** Nothing the daemon compares has changed. */
  predicate Unchanged(m: Media, r: Report) {
    m.kind == r.kind && m.subtype == r.subtype && m.state == r.state && m.fstype == r.fstype
    && SameVolume(m.volume, r.volume) && m.mnt == r.mnt && m.opts == r.opts
  }

  /** The stored device after a change that succeeds: everything but its type and subtype. */
  function ChangedMedia(m: Media, r: Report, volume: Option<string>): Media {
    m.(state := r.state, fstype := r.fstype, volume := volume, mnt := r.mnt, opts := r.opts,
       counter := if m.mnt == r.mnt then m.counter else if r.mnt.Some? then 1 else 0)
  }

  function MountNotes(path: string, m: Media, r: Report): seq<Note> {
    if m.mnt == r.mnt then []
    else UnmountNotes(path, m) + if r.mnt.Some? && r.opts.Some? then [Mounted(path, r.mnt.value, r.opts.value)] else []
  }

  /** A label the decoder rejects stops the daemon half-way, after state and file system were stored. */
  function ChangeMedia(f: Forest<Media>, parent: string, path: string, r: Report): Effect {
    match Find(f, path)
    case None => Effect(f, [], Fail)
    case Some(m) =>
      FindIffIn(f, path);
      if parent != ParentOf(f, path, ROOT_PATH) || r.sysfs != m.sysfs then Effect(f, [], Bug)
      else if Unchanged(m, r) then Effect(f, [], Fail)
      else
        var volume := if SameVolume(m.volume, r.volume) then Some(m.volume) else DecodedVolume(r);
        if volume.None? then
          Effect(Update(f, path, m.(state := r.state, fstype := r.fstype, volume := None)), [], Fatal)
        else
          var m' := ChangedMedia(m, r, volume.value);
          Effect(Update(f, path, m'),
                 MountNotes(path, m, r) + [Changed(parent, path, m'.(kind := r.kind, subtype := r.subtype))],
                 Success)
  }

  /** Between events a device's counter is 1 if it is mounted and 0 otherwise. */
  ghost predicate CountersFit(f: Forest<Media>) {
    match f
    case Nil => true
    case Node(_, m, kids, next) =>
      m.counter == (if m.mnt.Some? then 1 else 0) && CountersFit(kids) && CountersFit(next)
  }

  lemma {:induction false} CountersFitFind(f: Forest<Media>, p: string)
    requires CountersFit(f) && p in Paths(f)
    ensures Get(f, p).counter == if Get(f, p).mnt.Some? then 1 else 0
  {
    if f.path != p {
      if p in Paths(f.kids) { CountersFitFind(f.kids, p); } else { CountersFitFind(f.next, p); }
    }
  }

  lemma {:induction false} CountersFitInsert(f: Forest<Media>, parent: string, p: string, m: Media)
    requires CountersFit(f) && m.counter == if m.mnt.Some? then 1 else 0
    ensures CountersFit(InsertSorted(f, p, m)) && CountersFit(InsertUnder(f, parent, p, m))
  {
    if f.Node? {
      CountersFitInsert(f.kids, parent, p, m);
      CountersFitInsert(f.next, parent, p, m);
    }
  }

  lemma {:induction false} CountersFitUpdate(f: Forest<Media>, p: string, m: Media)
    requires CountersFit(f) && m.counter == if m.mnt.Some? then 1 else 0
    ensures CountersFit(Update(f, p, m)) && CountersFit(Remove(f, p))
  {
    if f.Node? {
      CountersFitUpdate(f.kids, p, m);
      CountersFitUpdate(f.next, p, m);
    }
  }
}
