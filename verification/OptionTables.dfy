/** The tables of mount options: what each file system allows, and which options are kernel flags. */
module OptionTables {
  import opened Basics

  datatype Check = NoCheck | SingleInt | AccessMode | PlainText | DecimalNumber | OctalNumber | ShortName | CheckLevel
    | BlockSize

  /** A table of allowed options, as the null-terminated arrays of the source. */
  datatype Options = End | Option(entry: Entry, rest: Options)

  /** An option that takes a parameter is named with its equals sign. */
  datatype Entry = Entry(name: string, param: bool, check: Check)

  datatype Flags = NoFlags | Flag(name: string, flag: bv64, enabled: bool, rest: Flags)

  datatype Filesystem = Filesystem(
    fstype: string, external: Option<string>, lists: seq<Options>, uid: Option<string>, gid: Option<string>,
    defaults: string, mandatory: string)

  // ----- what the parameters may be -----

  predicate Digit(c: char) { '0' <= c <= '9' }

  predicate PlainChar(c: char) { Digit(c) || 'a' <= c <= 'z' || 'A' <= c <= 'Z' || c == '-' || c == '_' }

  predicate Passes(check: Check, v: string) {
    match check
    case NoCheck => true
    case SingleInt => v == "0" || v == "1"
    case AccessMode => |v| == 4 && v[0] == '0' && forall i :: 1 <= i < |v| ==> '0' <= v[i] <= '7'
    case PlainText => forall i :: 0 <= i < |v| ==> PlainChar(v[i])
    case DecimalNumber => forall i :: 0 <= i < |v| ==> Digit(v[i])
    case OctalNumber => forall i :: 0 <= i < |v| ==> '0' <= v[i] <= '7'
    case ShortName => v == "lower" || v == "win95" || v == "winnt" || v == "mixed"
    case CheckLevel => v == "r" || v == "n" || v == "s" || v == "normal" || v == "strict" || v == "relaxed"
    case BlockSize => v == "512" || v == "1024" || v == "2048"
  }

  // ----- looking up -----

  predicate Fits(t: string, e: Entry) { if e.param then |t| > |e.name| && e.name <= t else t == e.name }

  function FindIn(t: string, o: Options): (r: Option<Entry>)
    ensures r.Some? ==> Fits(t, r.value) && r.value in Entries(o)
    ensures r.None? <==> forall e :: e in Entries(o) ==> !Fits(t, e)
  {
    match o
    case End => None
    case Option(e, rest) => if Fits(t, e) then Some(e) else FindIn(t, rest)
  }

  /** The first entry that fits; the lists are searched in order. */
  function FindOption(t: string, lists: seq<Options>): (r: Option<Entry>)
    ensures r.Some? ==> Fits(t, r.value) && r.value in AllEntries(lists)
    ensures r.None? <==> forall e :: e in AllEntries(lists) ==> !Fits(t, e)
  {
    if lists == [] then None
    else if FindIn(t, lists[0]).Some? then FindIn(t, lists[0])
    else FindOption(t, lists[1..])
  }

  /** The entries in the order in which they are compared. */
  function InOrder(lists: seq<Options>): seq<Entry> {
    if lists == [] then [] else Row(lists[0]) + InOrder(lists[1..])
  }

  function Row(o: Options): seq<Entry> {
    match o
    case End => []
    case Option(e, rest) => [e] + Row(rest)
  }

  predicate FirstFit(t: string, entries: seq<Entry>, r: Option<Entry>) {
    match r
    case None => forall k :: 0 <= k < |entries| ==> !Fits(t, entries[k])
    case Some(e) =>
      exists k :: 0 <= k < |entries| && entries[k] == e && Fits(t, e) && forall j :: 0 <= j < k ==> !Fits(t, entries[j])
  }

  lemma FirstFitAppend(t: string, a: seq<Entry>, x: Option<Entry>, b: seq<Entry>, y: Option<Entry>)
    requires FirstFit(t, a, x) && FirstFit(t, b, y)
    ensures FirstFit(t, a + b, if x.Some? then x else y)
  {
    hide Fits;
    if x.Some? {
      var k :| 0 <= k < |a| && a[k] == x.value && Fits(t, x.value) && forall j :: 0 <= j < k ==> !Fits(t, a[j]);
      assert (a + b)[k] == x.value;
    } else if y.Some? {
      var k :| 0 <= k < |b| && b[k] == y.value && Fits(t, y.value) && forall j :: 0 <= j < k ==> !Fits(t, b[j]);
      assert (a + b)[|a| + k] == y.value;
    }
  }

  lemma {:induction false} FindInFirst(t: string, o: Options)
    ensures FirstFit(t, Row(o), FindIn(t, o))
  {
    hide Fits;
    if o.Option? {
      FindInFirst(t, o.rest);
      var head := if Fits(t, o.entry) then Some(o.entry) else None;
      assert [o.entry][0] == o.entry;
      assert FirstFit(t, [o.entry], head);
      FirstFitAppend(t, [o.entry], head, Row(o.rest), FindIn(t, o.rest));
    }
  }

  /** The search finds the first entry that fits, over all lists in order, and nothing exactly when none fits. */
  lemma {:induction false} FindsFirst(t: string, lists: seq<Options>)
    ensures FirstFit(t, InOrder(lists), FindOption(t, lists))
  {
    hide Fits, FirstFit;
    if lists == [] {
      NothingFits(t);
    } else {
      FindInFirst(t, lists[0]);
      FindsFirst(t, lists[1..]);
      FirstFitAppend(t, Row(lists[0]), FindIn(t, lists[0]), InOrder(lists[1..]), FindOption(t, lists[1..]));
    }
  }

  lemma NothingFits(t: string)
    ensures FirstFit(t, [], None)
  {}

  datatype FlagValue = FlagValue(flag: bv64, enabled: bool)

  function FindFlag(t: string, flags: Flags): Option<FlagValue> {
    match flags
    case NoFlags => None
    case Flag(name, f, on, rest) => if t == name then Some(FlagValue(f, on)) else FindFlag(t, rest)
  }

  // ----- soundness of a table -----

  /** Two names that differ at a common position: neither is the beginning of the other. */
  predicate Differ(a: string, b: string, k: nat)
    decreases |a| - k
  {
    k < |a| && k < |b| && (a[k] != b[k] || Differ(a, b, k + 1))
  }

  function Entries(o: Options): set<Entry> { if o.End? then {} else {o.entry} + Entries(o.rest) }

  function AllEntries(lists: seq<Options>): set<Entry> {
    if lists == [] then {} else Entries(lists[0]) + AllEntries(lists[1..])
  }

  ghost predicate PrefixFree(entries: set<Entry>) {
    forall a, b :: a in entries && b in entries && a != b ==> Differ(a.name, b.name, 0)
  }

  predicate MarksParams(o: Options) {
    o.End? || ((o.entry.param ==> o.entry.name != [] && o.entry.name[|o.entry.name| - 1] == '=') && MarksParams(o.rest))
  }

  /** Flag names have no equals sign, and different flags share no bit. */
  ghost predicate SoundFlags(flags: Flags) {
    flags.NoFlags?
    || ('=' !in flags.name && flags.flag != 0 && Disjoint(flags.flag, flags.rest) && SoundFlags(flags.rest))
  }

  predicate Disjoint(f: bv64, flags: Flags) {
    flags.NoFlags? || ((flags.flag == f || flags.flag & f == 0) && Disjoint(f, flags.rest))
  }

  ghost predicate Sound(lists: seq<Options>, flags: Flags) {
    PrefixFree(AllEntries(lists)) && (forall i :: 0 <= i < |lists| ==> MarksParams(lists[i])) && SoundFlags(flags)
  }

  // ----- the Linux tables -----

  const DIRSYNC: bv64 := 128
  const MANDLOCK: bv64 := 64
  const NOATIME: bv64 := 1024
  const NODEV: bv64 := 4
  const NODIRATIME: bv64 := 2048
  const NOEXEC: bv64 := 8
  const NOSUID: bv64 := 2
  const RDONLY: bv64 := 1
  const RELATIME: bv64 := 0x20_0000
  const SILENT: bv64 := 32768
  const STRICTATIME: bv64 := 0x100_0000
  const SYNCHRONOUS: bv64 := 16

  const FLAGS_TAIL: Flags :=
    Flag("suid", NOSUID, false, Flag("ro", RDONLY, true, Flag("rw", RDONLY, false, Flag("relatime", RELATIME, true,
    Flag("silent", SILENT, true, Flag("loud", SILENT, false, Flag("strictatime", STRICTATIME, true,
    Flag("sync", SYNCHRONOUS, true, Flag("nosync", SYNCHRONOUS, false, NoFlags)))))))))

  const FLAGS_MIDDLE: Flags :=
    Flag("dev", NODEV, false, Flag("nodiratime", NODIRATIME, true, Flag("diratime", NODIRATIME, false,
    Flag("noexec", NOEXEC, true, Flag("exec", NOEXEC, false, Flag("nosuid", NOSUID, true, FLAGS_TAIL))))))

  const FLAGS: Flags :=
    Flag("dirsync", DIRSYNC, true, Flag("mand", MANDLOCK, true, Flag("nomand", MANDLOCK, false,
    Flag("noatime", NOATIME, true, Flag("atime", NOATIME, false, Flag("nodev", NODEV, true, FLAGS_MIDDLE))))))

  const ANY_FS: Options :=
    Option(Entry("nodev", false, NoCheck),
    Option(Entry("nosuid", false, NoCheck),
    Option(Entry("atime", false, NoCheck),
    Option(Entry("noatime", false, NoCheck),
    Option(Entry("nodiratime", false, NoCheck),
    Option(Entry("ro", false, NoCheck),
    Option(Entry("rw", false, NoCheck),
    End)))))))

  const COMMON_FS: Options :=
    Option(Entry("exec", false, NoCheck),
    Option(Entry("noexec", false, NoCheck),
    Option(Entry("sync", false, NoCheck),
    Option(Entry("nosync", false, NoCheck),
    Option(Entry("dirsync", false, NoCheck),
    End)))))

  const VFAT_TAIL: Options :=
    Option(Entry("codepage=", true, PlainText),
    Option(Entry("iocharset=", true, PlainText),
    Option(Entry("showexec", false, NoCheck),
    Option(Entry("blocksize=", true, DecimalNumber),
    Option(Entry("allow_utime=", true, OctalNumber),
    Option(Entry("check=", true, CheckLevel),
    End))))))

  const VFAT: Options :=
    Option(Entry("flush", false, NoCheck),
    Option(Entry("utf8=", true, SingleInt),
    Option(Entry("shortname=", true, ShortName),
    Option(Entry("umask=", true, AccessMode),
    Option(Entry("dmask=", true, AccessMode),
    Option(Entry("fmask=", true, AccessMode),
    VFAT_TAIL))))))

  const EXFAT: Options :=
    Option(Entry("umask=", true, AccessMode),
    Option(Entry("dmask=", true, AccessMode),
    Option(Entry("fmask=", true, AccessMode),
    End)))

  const NTFS_TAIL: Options :=
    Option(Entry("utf8", false, NoCheck),
    Option(Entry("windows_names", false, NoCheck),
    Option(Entry("allow_other", false, NoCheck),
    Option(Entry("norecover", false, NoCheck),
    End))))

  const NTFS: Options :=
    Option(Entry("umask=", true, AccessMode),
    Option(Entry("dmask=", true, AccessMode),
    Option(Entry("fmask=", true, AccessMode),
    Option(Entry("iocharset=", true, PlainText),
    NTFS_TAIL))))

  const ISO9660: Options :=
    Option(Entry("norock", false, NoCheck),
    Option(Entry("nojoliet", false, NoCheck),
    Option(Entry("iocharset=", true, PlainText),
    Option(Entry("mode=", true, AccessMode),
    Option(Entry("utf8", false, NoCheck),
    Option(Entry("block=", true, BlockSize),
    End))))))

  const UDF: Options :=
    Option(Entry("iocharset=", true, PlainText),
    Option(Entry("umask=", true, AccessMode),
    Option(Entry("undelete", false, NoCheck),
    Option(Entry("unhide", false, NoCheck),
    Option(Entry("nostrict", false, NoCheck),
    End)))))

  const FILESYSTEMS: seq<Filesystem> := [
    Filesystem("vfat", None, [ANY_FS, COMMON_FS, VFAT], Some("uid="), Some("gid="),
               "rw,nodev,nosuid" + ",shortname=mixed,umask=0077" + ",utf8=1,flush", "nodev,nosuid"),
    Filesystem("exfat", None, [ANY_FS, COMMON_FS, EXFAT], Some("uid="), Some("gid="),
               "rw,nodev,nosuid" + ",umask=0077", "nodev,nosuid"),
    Filesystem("ntfs-3g", Some("ntfs-3g"), [ANY_FS, NTFS], Some("uid="), Some("gid="),
               "rw,nodev,nosuid,norecover" + ",allow_other,windows_names" + ",umask=0077", "nodev,nosuid,norecover"),
    Filesystem("ntfs", Some("ntfs-3g"), [ANY_FS, NTFS], Some("uid="), Some("gid="),
               "rw,nodev,nosuid,norecover" + ",allow_other,windows_names" + ",umask=0077", "nodev,nosuid,norecover"),
    Filesystem("iso9660", None, [ANY_FS, COMMON_FS, ISO9660], Some("uid="), Some("gid="),
               "ro,nodev,nosuid" + ",iocharset=utf8,mode=0400", "nodev,nosuid"),
    Filesystem("udf", None, [ANY_FS, COMMON_FS, UDF], Some("uid="), Some("gid="),
               "ro,nodev,nosuid" + ",iocharset=utf8,umask=0077", "nodev,nosuid")]

  // ----- they are sound -----

  predicate ApartFrom(a: string, o: Options) { o.End? || (Differ(a, o.entry.name, 0) && ApartFrom(a, o.rest)) }

  predicate AllApart(o: Options) { o.End? || (ApartFrom(o.entry.name, o.rest) && AllApart(o.rest)) }

  predicate Across(o: Options, p: Options) { o.End? || (ApartFrom(o.entry.name, p) && Across(o.rest, p)) }

  lemma {:induction false} DifferSymmetric(a: string, b: string, k: nat)
    requires Differ(a, b, k)
    ensures Differ(b, a, k)
    decreases |a| - k
  {
    if a[k] == b[k] { DifferSymmetric(a, b, k + 1); }
  }

  lemma {:induction false} DifferMeans(a: string, b: string, k: nat)
    requires Differ(a, b, k)
    ensures !(a <= b) && !(b <= a)
    decreases |a| - k
  {
    if a[k] == b[k] { DifferMeans(a, b, k + 1); }
  }

  lemma {:induction false} ApartMeans(a: string, o: Options)
    requires ApartFrom(a, o)
    ensures forall e :: e in Entries(o) ==> Differ(a, e.name, 0) && Differ(e.name, a, 0)
  {
    if o.Option? {
      ApartMeans(a, o.rest);
      DifferSymmetric(a, o.entry.name, 0);
    }
  }

  lemma {:induction false} AllApartMeans(o: Options)
    requires AllApart(o)
    ensures PrefixFree(Entries(o))
  {
    if o.Option? {
      AllApartMeans(o.rest);
      ApartMeans(o.entry.name, o.rest);
    }
  }

  lemma {:induction false} AcrossMeans(o: Options, p: Options)
    requires Across(o, p)
    ensures forall a, b :: a in Entries(o) && b in Entries(p) ==> Differ(a.name, b.name, 0) && Differ(b.name, a.name, 0)
  {
    if o.Option? {
      AcrossMeans(o.rest, p);
      ApartMeans(o.entry.name, p);
    }
  }

  /** Three lists, of which the second may be empty. */
  lemma JoinedSound(a: Options, b: Options, c: Options)
    requires AllApart(a) && AllApart(b) && AllApart(c) && Across(a, b) && Across(a, c) && Across(b, c)
    requires MarksParams(a) && MarksParams(b) && MarksParams(c)
    ensures Sound([a, b, c], FLAGS) && Sound([a, c], FLAGS)
  {
    hide AllApart, Across, MarksParams, Differ, SoundFlags, Entries;
    AllApartMeans(a);
    AllApartMeans(b);
    AllApartMeans(c);
    AcrossMeans(a, b);
    AcrossMeans(a, c);
    AcrossMeans(b, c);
    FlagsSound();
    JoinedEntries(a, b, c);
  }

  lemma JoinedEntries(a: Options, b: Options, c: Options)
    ensures AllEntries([a, b, c]) == Entries(a) + Entries(b) + Entries(c)
    ensures AllEntries([a, c]) == Entries(a) + Entries(c)
  {
    hide Entries;
    AllEntriesHead(a, [b, c]);
    AllEntriesHead(b, [c]);
    AllEntriesHead(c, []);
    AllEntriesHead(a, [c]);
    assert [a] + [b, c] == [a, b, c] && [b] + [c] == [b, c] && [c] + [] == [c] && [a] + [c] == [a, c];
  }

  lemma AllEntriesHead(o: Options, lists: seq<Options>)
    ensures AllEntries([o] + lists) == Entries(o) + AllEntries(lists)
  {
    assert ([o] + lists)[1..] == lists;
  }

  lemma FlagsTailSound()
    ensures SoundFlags(FLAGS_TAIL)
  {}

  lemma FlagsMiddleSound()
    ensures SoundFlags(FLAGS_MIDDLE)
  {
    FlagsTailSound();
    assert Disjoint(NODEV, FLAGS_TAIL) && Disjoint(NODIRATIME, FLAGS_TAIL) && Disjoint(NOEXEC, FLAGS_TAIL);
    assert Disjoint(NOSUID, FLAGS_TAIL);
  }

  lemma FlagsSound()
    ensures SoundFlags(FLAGS)
  {
    FlagsMiddleSound();
    assert Disjoint(DIRSYNC, FLAGS_TAIL) && Disjoint(MANDLOCK, FLAGS_TAIL) && Disjoint(NOATIME, FLAGS_TAIL);
    assert Disjoint(NODEV, FLAGS_TAIL);
    assert Disjoint(DIRSYNC, FLAGS_MIDDLE) && Disjoint(MANDLOCK, FLAGS_MIDDLE) && Disjoint(NOATIME, FLAGS_MIDDLE);
    assert Disjoint(NODEV, FLAGS_MIDDLE);
  }

  lemma AnyApart()
    ensures AllApart(ANY_FS) && MarksParams(ANY_FS)
  {}

  lemma CommonApart()
    ensures AllApart(COMMON_FS) && MarksParams(COMMON_FS)
  {}

  lemma CommonAcross()
    ensures Across(ANY_FS, COMMON_FS)
  {}

  lemma VfatTailApart()
    ensures AllApart(VFAT_TAIL) && MarksParams(VFAT_TAIL)
  {}

  lemma VfatTailAcross()
    ensures Across(ANY_FS, VFAT_TAIL)
  {}

  lemma VfatTailAcrossCommon()
    ensures Across(COMMON_FS, VFAT_TAIL)
  {}

  lemma VfatApart()
    ensures AllApart(VFAT) && MarksParams(VFAT)
  {
    VfatTailApart();
    VfatHeadApart();
    VfatMasksApart();
  }

  lemma VfatHeadApart()
    ensures ApartFrom("flush", VFAT_TAIL) && ApartFrom("utf8=", VFAT_TAIL) && ApartFrom("shortname=", VFAT_TAIL)
  {}

  lemma VfatMasksApart()
    ensures ApartFrom("umask=", VFAT_TAIL) && ApartFrom("dmask=", VFAT_TAIL) && ApartFrom("fmask=", VFAT_TAIL)
  {}

  lemma VfatAcross()
    ensures Across(ANY_FS, VFAT)
  {
    VfatTailAcross();
  }

  lemma VfatAcrossCommon()
    ensures Across(COMMON_FS, VFAT)
  {
    VfatTailAcrossCommon();
  }

  lemma ExfatApart()
    ensures AllApart(EXFAT) && MarksParams(EXFAT)
  {}

  lemma ExfatAcross()
    ensures Across(ANY_FS, EXFAT)
  {}

  lemma ExfatAcrossCommon()
    ensures Across(COMMON_FS, EXFAT)
  {}

  lemma UdfApart()
    ensures AllApart(UDF) && MarksParams(UDF)
  {}

  lemma UdfAcross()
    ensures Across(ANY_FS, UDF)
  {}

  lemma UdfAcrossCommon()
    ensures Across(COMMON_FS, UDF)
  {}

  lemma NtfsApart()
    ensures AllApart(NTFS) && MarksParams(NTFS)
  {}

  lemma NtfsTailAcross()
    ensures Across(ANY_FS, NTFS_TAIL)
  {}

  lemma NtfsAcross()
    ensures Across(ANY_FS, NTFS)
  {
    NtfsTailAcross();
  }

  lemma IsoApart()
    ensures AllApart(ISO9660) && MarksParams(ISO9660)
  {}

  lemma IsoAcross()
    ensures Across(ANY_FS, ISO9660)
  {}

  lemma IsoAcrossCommon()
    ensures Across(COMMON_FS, ISO9660)
  {}

  lemma NothingApart(o: Options)
    ensures AllApart(End) && MarksParams(End) && Across(End, o) && Across(o, End)
  {
    if o.Option? { NothingApart(o.rest); }
  }

  /** Every file system's table is prefix-free, marks its parameters, and the flags share no bits. */
  lemma TablesSound(i: nat)
    requires i < |FILESYSTEMS|
    ensures Sound(FILESYSTEMS[i].lists, FLAGS)
  {
    hide AllApart, Across, MarksParams, Sound;
    AnyApart();
    CommonApart();
    CommonAcross();
    VfatApart();
    VfatAcross();
    VfatAcrossCommon();
    ExfatApart();
    ExfatAcross();
    ExfatAcrossCommon();
    UdfApart();
    UdfAcross();
    UdfAcrossCommon();
    NtfsApart();
    NtfsAcross();
    IsoApart();
    IsoAcross();
    IsoAcrossCommon();
    NothingApart(ANY_FS);
    NothingApart(NTFS);
    JoinedSound(ANY_FS, COMMON_FS, VFAT);
    JoinedSound(ANY_FS, COMMON_FS, EXFAT);
    JoinedSound(ANY_FS, End, NTFS);
    JoinedSound(ANY_FS, COMMON_FS, ISO9660);
    JoinedSound(ANY_FS, COMMON_FS, UDF);
  }
}
