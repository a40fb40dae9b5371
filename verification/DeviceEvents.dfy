/** What each device event does to the tree and tells the clients, said in terms of the report alone, field by field;
    and that the report reaches the client. */
module DeviceEvents {
  import opened Basics
  import opened Forests
  import opened Media
  import opened Daemon
  import opened Mounts
  import opened Simulation
  import opened Divergence
  import Labels

  /** The stored label is what the reported one decodes to. A numeric escape above 127 is never recognised. */
  predicate LabelStands(stored: Option<string>, reported: Option<string>) {
    if reported.None? then stored.None?
    else Labels.Decode(reported.value) == stored && stored.Some? && !Labels.EscapeAbove(reported.value, 127)
  }

  /** Whether the reported label can be stored at all. */
  predicate LabelReadable(reported: Option<string>) { reported.Some? ==> Labels.Decode(reported.value).Some? }

  /** The stored form of a reported label. */
  function Label(reported: Option<string>): Option<string>
    requires LabelReadable(reported)
  {
    if reported.None? then None else Some(Labels.CText(Labels.Decode(reported.value).value))
  }

  lemma SameLabel(stored: Option<string>, reported: Option<string>)
    ensures SameVolume(stored, reported) <==> LabelStands(stored, reported)
  {
    if stored.Some? && reported.Some? { Labels.MatchesIffDecodes(stored.value, reported.value); }
  }

  // ----- additions -----

  /** A device is added exactly if its parent is known, or the root path, and its label can be read; an unreadable
      label stops the daemon. */
  lemma AddOutcome(f: Forest<Media>, parent: string, path: string, r: Report)
    ensures var e, known := AddMedia(f, parent, path, r), parent == "/" || parent in Paths(f);
      (e.outcome == Success <==> known && LabelReadable(r.volume))
      && (e.outcome == Fatal <==> known && !LabelReadable(r.volume)) && (e.outcome == Fail <==> !known)
      && (e.outcome != Success ==> e.forest == f && e.notes == [])
  {
    hide Labels.Decode;
  }

  /** The new device is stored as it was reported, with its label decoded, and announced once. */
  lemma AddStores(f: Forest<Media>, parent: string, path: string, r: Report)
    requires path !in Paths(f) && AddMedia(f, parent, path, r).outcome == Success
    ensures LabelReadable(r.volume) && path in Paths(AddMedia(f, parent, path, r).forest)
    ensures var e := AddMedia(f, parent, path, r);
      var m := Get(e.forest, path);
      m.kind == r.kind && m.subtype == r.subtype && m.state == r.state && m.fstype == r.fstype && m.mnt == r.mnt
      && m.opts == r.opts && m.sysfs == r.sysfs && m.volume == Label(r.volume)
      && m.counter == (if r.mnt.Some? then 1 else 0)
      && e.notes == [Added(parent, path, m)]
      && ParentOf(e.forest, path, ROOT_PATH) == parent
    ensures var e := AddMedia(f, parent, path, r);
      Paths(e.forest) == Paths(f) + {path}
      && forall q :: q in Paths(f) ==>
        Find(e.forest, q) == Find(f, q) && ParentOf(e.forest, q, ROOT_PATH) == ParentOf(f, q, ROOT_PATH)
  {
    hide Labels.Decode, Find, Get, Paths, ParentOf, InsertSorted, InsertUnder;
    var e := AddMedia(f, parent, path, r);
    assert DecodedVolume(r) == Some(Label(r.volume));
    var m := NewMedia(r, Label(r.volume));
    InsertSortedKeeps(f, path, m);
    InsertUnderKeeps(f, parent, path, m);
  }

  // ----- changes -----

  /** Something the daemon compares is different. */
  predicate Differs(m: Media, r: Report) {
    m.kind != r.kind || m.subtype != r.subtype || m.state != r.state || m.fstype != r.fstype
    || !LabelStands(m.volume, r.volume) || m.mnt != r.mnt || m.opts != r.opts
  }

  /** Unknown devices and changes of nothing are refused, moved devices are taken for a bug, and an unreadable new label
      stops the daemon. Every other change is made. */
  lemma ChangeOutcome(f: Forest<Media>, parent: string, path: string, r: Report)
    ensures var o := ChangeMedia(f, parent, path, r).outcome;
      if path !in Paths(f) then o == Fail
      else
        var m := Get(f, path);
        if parent != ParentOf(f, path, ROOT_PATH) || r.sysfs != m.sysfs then o == Bug
        else if !Differs(m, r) then o == Fail
        else o == if LabelStands(m.volume, r.volume) || LabelReadable(r.volume) then Success else Fatal
    ensures var e := ChangeMedia(f, parent, path, r);
      e.outcome != Success ==> e.notes == [] && (e.outcome != Fatal ==> e.forest == f)
  {
    hide Labels.Decode, Paths, Get, ParentOf, Find, Update, Labels.Matches;
    FindIffIn(f, path);
    if path in Paths(f) { SameLabel(Get(f, path).volume, r.volume); }
  }

  /** Whatever does not stop the daemon leaves the reported fields in the device: everything but type and subtype, which
      it never changes, and its sysfs path. */
  lemma ChangeStores(f: Forest<Media>, parent: string, path: string, r: Report)
    requires path in Paths(f) && parent == ParentOf(f, path, ROOT_PATH) && r.sysfs == Get(f, path).sysfs
    requires !Stops(ChangeMedia(f, parent, path, r).outcome)
    ensures var e, m := ChangeMedia(f, parent, path, r), Get(f, path);
      Paths(e.forest) == Paths(f)
      && var s := Get(e.forest, path);
      s.state == r.state && s.fstype == r.fstype && s.mnt == r.mnt && s.opts == r.opts
      && s.kind == m.kind && s.subtype == m.subtype && s.sysfs == m.sysfs
      && (if LabelStands(m.volume, r.volume) then s.volume == m.volume
          else LabelReadable(r.volume) && s.volume == Label(r.volume))
      && s.counter == (if m.mnt == r.mnt then m.counter else if r.mnt.Some? then 1 else 0)
      && (e.outcome == Fail ==> m.kind == r.kind && m.subtype == r.subtype && s == m)
    ensures forall q :: q in Paths(f) ==>
      ParentOf(ChangeMedia(f, parent, path, r).forest, q, ROOT_PATH) == ParentOf(f, q, ROOT_PATH)
      && (q != path ==> Find(ChangeMedia(f, parent, path, r).forest, q) == Find(f, q))
  {
    hide Labels.Decode, Paths, Get, ParentOf, Find, Update, Labels.Matches;
    FindIffIn(f, path);
    var m := Get(f, path);
    SameLabel(m.volume, r.volume);
    var e := ChangeMedia(f, parent, path, r);
    ChangeOutcome(f, parent, path, r);
    if e.outcome == Success {
      var v := if LabelStands(m.volume, r.volume) then m.volume else Label(r.volume);
      var s := ChangedMedia(m, r, v);
      assert e.forest == Update(f, path, s);
      UpdateKeepsShape(f, path, s);
      forall q ensures Find(e.forest, q) == if path == q then Some(s) else Find(f, q) { FindUpdate(f, path, s, q); }
    }
  }

  /** A change that is made is announced: after what it says about mounting, in one line with the reported type and the
      stored fields. */
  lemma ChangeTells(f: Forest<Media>, parent: string, path: string, r: Report)
    requires ChangeMedia(f, parent, path, r).outcome == Success
    ensures path in Paths(f) && path in Paths(ChangeMedia(f, parent, path, r).forest)
    ensures var e, m := ChangeMedia(f, parent, path, r), Get(f, path);
      var s := Get(e.forest, path);
      e.notes ==
        (if m.mnt == r.mnt || m.mnt.None? then [] else [Unmounted(path, m.mnt.value)])
        + (if m.mnt == r.mnt || r.mnt.None? || r.opts.None? then [] else [Mounted(path, r.mnt.value, r.opts.value)])
        + [Changed(parent, path, s.(kind := r.kind, subtype := r.subtype))]
  {
    hide Labels.Decode, Paths, Get, ParentOf, Find, Update, Labels.Matches;
    FindIffIn(f, path);
    var m := Get(f, path);
    SameLabel(m.volume, r.volume);
    var e := ChangeMedia(f, parent, path, r);
    ChangeOutcome(f, parent, path, r);
    var s := ChangedMedia(m, r, if LabelStands(m.volume, r.volume) then m.volume else Label(r.volume));
    UpdateKeepsShape(f, path, s);
    FindUpdate(f, path, s, path);
  }

  /** The one change that is left half-way: the daemon stops with the new state and file system stored, without the
      label. */
  lemma ChangeStopsHalfway(f: Forest<Media>, parent: string, path: string, r: Report)
    requires ChangeMedia(f, parent, path, r).outcome == Fatal
    ensures path in Paths(f) && path in Paths(ChangeMedia(f, parent, path, r).forest)
    ensures Get(ChangeMedia(f, parent, path, r).forest, path) ==
      Get(f, path).(state := r.state, fstype := r.fstype, volume := None)
  {
    hide Labels.Decode, Paths, Get, ParentOf, Find, Update, Labels.Matches;
    FindIffIn(f, path);
    var s := Get(f, path).(state := r.state, fstype := r.fstype, volume := None);
    UpdateKeepsShape(f, path, s);
    FindUpdate(f, path, s, path);
  }

  // ----- which events have an effect -----

  /** A change of a device that is where it was, with something new and a label that can be stored. */
  predicate Changes(f: Forest<Media>, parent: string, p: string, r: Report) {
    p in Paths(f) && parent == ParentOf(f, p, ROOT_PATH) && r.sysfs == Get(f, p).sysfs
    && Differs(Get(f, p), r) && (LabelStands(Get(f, p).volume, r.volume) || LabelReadable(r.volume))
  }

  /** An event has an effect exactly in these cases. Device events carry no mount data. */
  predicate Effective(f: Forest<Media>, e: Event) {
    match e
    case Add(parent, _, r) =>
      r.kind != UnknownKind && r.subtype != UnknownSubtype
      && (parent == "/" || parent in Paths(f)) && LabelReadable(r.volume)
    case Drop(path) => path in Paths(f)
    case Change(parent, path, r) =>
      r.kind != UnknownKind && r.subtype != UnknownSubtype && Changes(f, parent, path, r.(mnt := None, opts := None))
    case Check(_) => true
  }

  lemma EffectIff(f: Forest<Media>, e: Event)
    ensures Dispatch(f, e).outcome == Success <==> Effective(f, e)
  {
    hide AddMedia, ChangeMedia, CheckMounts, LabelReadable, LabelStands;
    match e
    case Add(parent, path, r) => AddOutcome(f, parent, path, r.(mnt := None, opts := None));
    case Drop(_) =>
    case Change(parent, path, r) => ChangeOutcome(f, parent, path, r.(mnt := None, opts := None));
    case Check(_) =>
  }

  /** The device is there, but not below that parent or not at that place in sysfs. */
  predicate Moved(f: Forest<Media>, parent: string, p: string, r: Report) {
    p in Paths(f) && (parent != ParentOf(f, p, ROOT_PATH) || r.sysfs != Get(f, p).sysfs)
  }

  /** The events that end the daemon: a device that has moved, and a label that cannot be read. */
  predicate Deadly(f: Forest<Media>, e: Event) {
    match e
    case Add(parent, _, r) =>
      r.kind != UnknownKind && r.subtype != UnknownSubtype
      && (parent == "/" || parent in Paths(f)) && !LabelReadable(r.volume)
    case Drop(_) => false
    case Change(parent, path, r) =>
      r.kind != UnknownKind && r.subtype != UnknownSubtype && path in Paths(f)
      && (Moved(f, parent, path, r)
          || (!LabelStands(Get(f, path).volume, r.volume) && !LabelReadable(r.volume)))
    case Check(_) => false
  }

  lemma StopsIff(f: Forest<Media>, e: Event)
    ensures Stops(Dispatch(f, e).outcome) <==> Deadly(f, e)
  {
    hide AddMedia, ChangeMedia, CheckMounts, LabelReadable, LabelStands, Paths, Get, ParentOf;
    match e
    case Add(parent, path, r) => AddOutcome(f, parent, path, r.(mnt := None, opts := None));
    case Drop(_) =>
    case Change(parent, path, r) => ChangeOutcome(f, parent, path, r.(mnt := None, opts := None));
    case Check(_) =>
  }

  /** Exactly these events are the last of a run. */
  lemma EndsIff(f: Forest<Media>, e: Event, rest: seq<Event>)
    ensures Handled(f, [e] + rest) == [e] + if Deadly(f, e) then [] else Handled(Dispatch(f, e).forest, rest)
  {
    hide Dispatch, Deadly, Stops;
    StopsIff(f, e);
    assert ([e] + rest)[1..] == rest;
  }

  // ----- the report reaches the client -----

  /** A telling event that does not stop the daemon keeps the client's devices those of the daemon. */
  lemma Followed(r: Forest<Device>, f: Forest<Media>, e: Event)
    requires Agrees(r, f) && Sane(f) && Telling(f, e) && !Stops(Dispatch(f, e).outcome)
    ensures var r', f' := Follow(r, f, e), Dispatch(f, e).forest;
      Paths(r') == Paths(f')
      && forall q :: q in Paths(f') ==>
        Bare(Get(r', q)) == Seen(Get(f', q)) && ParentOf(r', q, ROOT_PATH) == ParentOf(f', q, ROOT_PATH)
  {
    hide Agrees, Follow, RemoveMedia, ChangeMedia, CheckMounts, AllTold, SameType, Unseen, Unique, Sorted, Proper,
      CountersFit, Paths, Get;
    ProperPaths(f);
    StepAgreesIff(r, f, e);
    AgreesPaths(Follow(r, f, e), Dispatch(f, e).forest);
  }

  /** What a client shows of a report: everything that descriptions of its type carry. */
  predicate Shows(d: Device, r: Report, volume: Option<string>) {
    d.kind == r.kind && (r.kind != Partition ==> d.subtype == r.subtype) && (r.kind == Stateful ==> d.state == r.state)
    && (r.kind != Stateless ==> d.fstype == Text(r.fstype) && d.volume == Text(volume))
  }

  /** After an addition the client shows the new device below its parent, as reported and not mounted, and every other
      device as before. */
  lemma AddReaches(r: Forest<Device>, f: Forest<Media>, parent: string, p: string, report: Report)
    requires var e := Add(parent, p, report);
      Agrees(r, f) && Sane(f) && Telling(f, e) && Dispatch(f, e).outcome == Success
    ensures LabelReadable(report.volume)
    ensures var r' := Follow(r, f, Add(parent, p, report));
      Paths(r') == Paths(r) + {p} && ParentOf(r', p, ROOT_PATH) == parent
      && Shows(Get(r', p), report, Label(report.volume)) && Get(r', p).mnt == ""
      && forall q :: q in Paths(r) ==> Bare(Get(r', q)) == Bare(Get(r, q))
  {
    hide Agrees, Sane, Follow, AddMedia, Paths, Get, ParentOf, LabelReadable, Label, Find;
    var e := Add(parent, p, report);
    EffectIff(f, e);
    AddStores(f, parent, p, report.(mnt := None, opts := None));
    Followed(r, f, e);
    AgreesPaths(r, f);
    forall q | q in Paths(f) ensures Get(Dispatch(f, e).forest, q) == Get(f, q) {
      assert Find(Dispatch(f, e).forest, q) == Find(f, q);
    }
  }

  /** The label of a device after a change: one that means the same is kept as it is stored. */
  function LabelAfter(stored: Option<string>, reported: Option<string>): Option<string>
    requires LabelStands(stored, reported) || LabelReadable(reported)
  {
    if LabelStands(stored, reported) then stored else Label(reported)
  }

  /** After a change the client shows the device as reported and not mounted, where it was, and every other device as
      before. */
  lemma ChangeReaches(r: Forest<Device>, f: Forest<Media>, parent: string, p: string, report: Report)
    requires var e := Change(parent, p, report);
      Agrees(r, f) && Sane(f) && Telling(f, e) && Dispatch(f, e).outcome == Success
    ensures p in Paths(f)
    ensures LabelStands(Get(f, p).volume, report.volume) || LabelReadable(report.volume)
    ensures var r' := Follow(r, f, Change(parent, p, report));
      Paths(r') == Paths(r) == Paths(f) && ParentOf(r', p, ROOT_PATH) == parent && Get(r', p).mnt == ""
      && Shows(Get(r', p), report, LabelAfter(Get(f, p).volume, report.volume))
      && forall q :: q in Paths(r) && q != p ==> Bare(Get(r', q)) == Bare(Get(r, q))
  {
    hide Agrees, Sane, Follow, ChangeMedia, Paths, Get, ParentOf, LabelReadable, Label, Find, LabelStands;
    var e := Change(parent, p, report);
    EffectIff(f, e);
    ChangeStores(f, parent, p, report.(mnt := None, opts := None));
    Followed(r, f, e);
    AgreesPaths(r, f);
    forall q | q in Paths(f) && q != p ensures Get(Dispatch(f, e).forest, q) == Get(f, q) {
      assert Find(Dispatch(f, e).forest, q) == Find(f, q);
    }
  }

  /** The first entry of a mount table that names the device. */
  predicate FirstNamed(table: seq<Entry>, p: string, i: int) {
    0 <= i < |table| && table[i].fsname == p && forall j :: 0 <= j < i ==> table[j].fsname != p
  }

  lemma {:induction false} FirstEntryAt(table: seq<Entry>, p: string)
    ensures forall i :: FirstNamed(table, p, i) ==> FirstEntry(table, p) == Some(table[i])
    ensures (forall i :: 0 <= i < |table| ==> table[i].fsname != p) ==> FirstEntry(table, p) == None
  {
    if table != [] && table[0].fsname != p {
      FirstEntryAt(table[1..], p);
      forall i | FirstNamed(table, p, i) ensures FirstEntry(table, p) == Some(table[i]) {
        assert FirstNamed(table[1..], p, i - 1);
      }
    }
  }

  lemma SettledSeen(p: string, m: Media, table: seq<Entry>)
    ensures Seen(Settled(p, m, table)).(mnt := "") == Seen(m).(mnt := "")
    ensures forall i :: FirstNamed(table, p, i) ==>
      Seen(Settled(p, m, table)).mnt == if table[i].dir.Some? && table[i].opts.Some? then table[i].dir.value else ""
    ensures (forall i :: 0 <= i < |table| ==> table[i].fsname != p) ==> Seen(Settled(p, m, table)).mnt == ""
  {
    hide FirstNamed, FirstEntry;
    FirstEntryAt(table, p);
  }

  /** After a mount check the client shows each device mounted where the first entry that names it says, if that entry
      is complete, and otherwise not mounted. Nothing else about it changes. */
  lemma CheckReaches(r: Forest<Device>, f: Forest<Media>, table: seq<Entry>, p: string)
    requires Agrees(r, f) && Sane(f) && AllTold(f, table) && p in Paths(r)
    ensures var r' := Follow(r, f, Check(table));
      p in Paths(r') && Bare(Get(r', p)).(mnt := "") == Bare(Get(r, p)).(mnt := "")
      && (forall i :: FirstNamed(table, p, i) ==>
            Get(r', p).mnt == if table[i].dir.Some? && table[i].opts.Some? then table[i].dir.value else "")
      && ((forall i :: 0 <= i < |table| ==> table[i].fsname != p) ==> Get(r', p).mnt == "")
  {
    hide Agrees, Follow, CheckMounts, Paths, Get, ParentOf, Find, AllTold, FirstNamed, Settled, Seen, Unique, Sorted,
      Proper,
      CountersFit;
    Followed(r, f, Check(table));
    AgreesPaths(r, f);
    CheckMountsMeaning(f, table);
    SettleAllKeeps(f, table);
    SettledSeen(p, Get(f, p), table);
  }

  /** After a removal the client shows neither the device nor anything below it, and everything else as before. */
  lemma DropReaches(r: Forest<Device>, f: Forest<Media>, p: string)
    requires Agrees(r, f) && Sane(f) && p in Paths(f)
    ensures var r' := Follow(r, f, Drop(p));
      p !in Paths(r') && Paths(r') <= Paths(r)
      && forall q :: q in Paths(r') ==>
        Bare(Get(r', q)) == Bare(Get(r, q)) && ParentOf(r', q, ROOT_PATH) == ParentOf(r, q, ROOT_PATH)
        && ParentOf(r', q, ROOT_PATH) in Paths(r') + {ROOT_PATH}
  {
    hide Agrees, Follow, Paths, Get, ParentOf, Find, Remove, Farewell, Sorted, Proper, CountersFit;
    Followed(r, f, Drop(p));
    AgreesPaths(r, f);
    RemoveKeeps(f, p);
    var f' := Remove(f, p);
    forall q | q in Paths(f') ensures Get(f', q) == Get(f, q) && ParentOf(f', q, ROOT_PATH) in Paths(f') + {ROOT_PATH} {
      assert Find(f', q) == Find(f, q);
      ParentInside(f', q, ROOT_PATH);
    }
  }
}
