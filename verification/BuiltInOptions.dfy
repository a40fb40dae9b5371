/** The options that are built in for every file system: they are allowed by its own table, and what the mandatory ones
    keep out stays out. */
module BuiltInOptions {
  import opened Basics
  import opened OptionTables
  import opened MountOptions
  import opened OptionText
  import opened MountWords

  // ----- the texts -----

  lemma TokensMore(t: string, rest: string, text: string)
    requires t != "" && rest != "" && ',' !in t && text == t + "," + rest
    ensures Tokens(text) == [t] + Tokens(rest)
  {
    hide Comma;
    CommaAt(text, |t|);
    assert text[..|t|] == t && text[|t| + 1..] == rest;
  }

  lemma OneToken(t: string)
    requires t != "" && ',' !in t
    ensures Tokens(t) == [t]
  {
    CommaAt(t, |t|);
    assert t[..|t|] == t;
  }

  lemma MandatoryTokens()
    ensures Tokens("nodev,nosuid") == ["nodev", "nosuid"]
    ensures Tokens("nodev,nosuid,norecover") == ["nodev", "nosuid", "norecover"]
  {
    hide Tokens;
    OneToken("nosuid");
    TokensMore("nodev", "nosuid", "nodev,nosuid");
    OneToken("norecover");
    TokensMore("nosuid", "norecover", "nosuid,norecover");
    TokensMore("nodev", "nosuid,norecover", "nodev,nosuid,norecover");
  }

  lemma {:induction false} SplitSplice(a: string, b: string)
    ensures Split(a + "," + b) == Split(a) + Split(b)
    decreases |a|
  {
    hide Comma;
    var text, i := a + "," + b, Comma(a);
    CommaIsFirst(a);
    assert text[..i] == a[..i];
    CommaAt(text, i);
    if i == |a| {
      assert a[..i] == a && text[i + 1..] == b;
    } else {
      assert text[i + 1..] == a[i + 1..] + "," + b;
      SplitSplice(a[i + 1..], b);
    }
  }

  /** A list that is continued after a comma. */
  lemma TokensSplice(a: string, more: string, b: string)
    requires a != "" && b != "" && more == "," + b
    ensures Tokens(a + more) == Tokens(a) + Tokens(b)
  {
    hide Split;
    SplitSplice(a, b);
    assert a + more == a + "," + b;
  }

  lemma WritableTokens()
    ensures Tokens("rw,nodev,nosuid") == ["rw", "nodev", "nosuid"]
    ensures Tokens("rw,nodev,nosuid,norecover") == ["rw", "nodev", "nosuid", "norecover"]
  {
    hide Tokens;
    MandatoryTokens();
    TokensMore("rw", "nodev,nosuid", "rw,nodev,nosuid");
    TokensMore("rw", "nodev,nosuid,norecover", "rw,nodev,nosuid,norecover");
  }

  lemma ReadOnlyTokens()
    ensures Tokens("ro,nodev,nosuid") == ["ro", "nodev", "nosuid"]
  {
    hide Tokens;
    MandatoryTokens();
    TokensMore("ro", "nodev,nosuid", "ro,nodev,nosuid");
  }

  lemma NameTokens()
    ensures Tokens("shortname=mixed,umask=0077") == ["shortname=mixed", "umask=0077"]
  {
    hide Tokens;
    OneToken("umask=0077");
    TokensMore("shortname=mixed", "umask=0077", "shortname=mixed,umask=0077");
  }

  lemma FlushTokens()
    ensures Tokens("utf8=1,flush") == ["utf8=1", "flush"]
  {
    hide Tokens;
    OneToken("flush");
    TokensMore("utf8=1", "flush", "utf8=1,flush");
  }

  lemma OwnerTokens()
    ensures Tokens("allow_other,windows_names") == ["allow_other", "windows_names"]
  {
    hide Tokens;
    OneToken("windows_names");
    TokensMore("allow_other", "windows_names", "allow_other,windows_names");
  }

  lemma DiscTokens()
    ensures Tokens("iocharset=utf8,mode=0400") == ["iocharset=utf8", "mode=0400"]
    ensures Tokens("iocharset=utf8,umask=0077") == ["iocharset=utf8", "umask=0077"]
  {
    hide Tokens;
    OneToken("mode=0400");
    TokensMore("iocharset=utf8", "mode=0400", "iocharset=utf8,mode=0400");
    OneToken("umask=0077");
    TokensMore("iocharset=utf8", "umask=0077", "iocharset=utf8,umask=0077");
  }

  // ----- they are allowed -----

  lemma PrefixesMeet(a: string, b: string, t: string)
    requires a <= t && b <= t
    ensures a <= b || b <= a
  {
    if |a| <= |b| { assert a == t[..|a|] == b[..|a|]; } else { assert b == t[..|b|] == a[..|b|]; }
  }

  /** In a sound table an option that fits some entry is allowed by that entry. */
  lemma AllowedBy(e: Entry, value: string, lists: seq<Options>)
    requires Sound(lists, FLAGS) && e in AllEntries(lists) && e.name != "" && Passes(e.check, value)
    requires e.param <==> value != ""
    ensures Allowed(e.name + value, lists)
  {
    hide SoundFlags, MarksParams, AllEntries, Passes;
    var t := e.name + value;
    assert t[..|e.name|] == e.name && t[|e.name|..] == value;
    var found := FindOption(t, lists).value;
    if found != e {
      PrefixesMeet(e.name, found.name, t);
      DifferMeans(e.name, found.name, 0);
      assert false;
    }
  }

  lemma FineAppend(a: seq<string>, b: seq<string>, lists: seq<Options>)
    requires AllAllowed(a, lists) && AllAllowed(b, lists)
    ensures AllAllowed(a + b, lists)
  {
    hide Allowed;
  }

  lemma AnyEntries()
    ensures Entry("nodev", false, NoCheck) in Entries(ANY_FS) && Entry("nosuid", false, NoCheck) in Entries(ANY_FS)
    ensures Entry("ro", false, NoCheck) in Entries(ANY_FS) && Entry("rw", false, NoCheck) in Entries(ANY_FS)
  {}

  lemma VfatEntries()
    ensures Entry("shortname=", true, ShortName) in Entries(VFAT) && Entry("umask=", true, AccessMode) in Entries(VFAT)
    ensures Entry("utf8=", true, SingleInt) in Entries(VFAT) && Entry("flush", false, NoCheck) in Entries(VFAT)
  {}

  lemma OtherEntries()
    ensures Entry("umask=", true, AccessMode) in Entries(EXFAT)
    ensures Entry("iocharset=", true, PlainText) in Entries(ISO9660)
      && Entry("mode=", true, AccessMode) in Entries(ISO9660)
    ensures Entry("iocharset=", true, PlainText) in Entries(UDF) && Entry("umask=", true, AccessMode) in Entries(UDF)
  {}

  lemma NtfsEntries()
    ensures Entry("umask=", true, AccessMode) in Entries(NTFS) && Entry("norecover", false, NoCheck) in Entries(NTFS)
    ensures Entry("windows_names", false, NoCheck) in Entries(NTFS)
    ensures Entry("allow_other", false, NoCheck) in Entries(NTFS)
  {}

  ghost predicate Table(lists: seq<Options>) { Sound(lists, FLAGS) && Entries(ANY_FS) <= AllEntries(lists) }

  lemma PlainName(name: string, lists: seq<Options>)
    requires Sound(lists, FLAGS) && Entry(name, false, NoCheck) in AllEntries(lists) && name != ""
    ensures Allowed(name, lists)
  {
    hide Sound, AllEntries, Allowed;
    AllowedBy(Entry(name, false, NoCheck), "", lists);
    assert name + "" == name;
  }

  lemma Parameter(e: Entry, value: string, text: string, lists: seq<Options>)
    requires Sound(lists, FLAGS) && e in AllEntries(lists) && e.param && e.name != "" && value != ""
    requires Passes(e.check, value) && text == e.name + value
    ensures Allowed(text, lists)
  {
    hide Sound, AllEntries, Allowed, Passes;
    AllowedBy(e, value, lists);
  }

  /** The options that every file system's list begins with. */
  lemma AnyFine(lists: seq<Options>)
    requires Table(lists)
    ensures AllAllowed(["nodev", "nosuid"], lists)
    ensures AllAllowed(["rw", "nodev", "nosuid"], lists) && AllAllowed(["ro", "nodev", "nosuid"], lists)
  {
    hide AllEntries, Allowed, Sound, Entries;
    AnyEntries();
    PlainName("nodev", lists);
    PlainName("nosuid", lists);
    PlainName("ro", lists);
    PlainName("rw", lists);
  }

  lemma VfatFine(lists: seq<Options>)
    requires Table(lists) && Entries(VFAT) <= AllEntries(lists)
    ensures AllAllowed(["shortname=mixed", "umask=0077"], lists) && AllAllowed(["utf8=1", "flush"], lists)
  {
    hide AllEntries, Allowed, Sound, Entries;
    VfatEntries();
    Parameter(Entry("shortname=", true, ShortName), "mixed", "shortname=mixed", lists);
    Parameter(Entry("umask=", true, AccessMode), "0077", "umask=0077", lists);
    Parameter(Entry("utf8=", true, SingleInt), "1", "utf8=1", lists);
    PlainName("flush", lists);
  }

  lemma MaskFine(lists: seq<Options>)
    requires Table(lists) && Entry("umask=", true, AccessMode) in AllEntries(lists)
    ensures AllAllowed(["umask=0077"], lists)
  {
    hide AllEntries, Allowed, Sound, Entries;
    Parameter(Entry("umask=", true, AccessMode), "0077", "umask=0077", lists);
  }

  lemma NtfsFine(lists: seq<Options>)
    requires Table(lists) && Entries(NTFS) <= AllEntries(lists)
    ensures AllAllowed(["norecover"], lists) && AllAllowed(["allow_other", "windows_names"], lists)
  {
    hide AllEntries, Allowed, Sound, Entries;
    NtfsEntries();
    PlainName("norecover", lists);
    PlainName("allow_other", lists);
    PlainName("windows_names", lists);
  }

  lemma DiscFine(lists: seq<Options>)
    requires Table(lists) && Entry("iocharset=", true, PlainText) in AllEntries(lists)
    ensures AllAllowed(["iocharset=utf8"], lists)
    ensures Entry("mode=", true, AccessMode) in AllEntries(lists) ==> AllAllowed(["mode=0400"], lists)
  {
    hide AllEntries, Allowed, Sound, Entries;
    Parameter(Entry("iocharset=", true, PlainText), "utf8", "iocharset=utf8", lists);
    if Entry("mode=", true, AccessMode) in AllEntries(lists) {
      Parameter(Entry("mode=", true, AccessMode), "0400", "mode=0400", lists);
    }
  }

  lemma FilesystemTable(i: nat)
    requires i < |FILESYSTEMS|
    ensures Table(FILESYSTEMS[i].lists)
    ensures Entries([VFAT, EXFAT, NTFS, NTFS, ISO9660, UDF][i]) <= AllEntries(FILESYSTEMS[i].lists)
  {
    hide Entries, Sound;
    TablesSound(i);
    JoinedEntries(ANY_FS, COMMON_FS, [VFAT, EXFAT, NTFS, NTFS, ISO9660, UDF][i]);
  }

  /** The built-in defaults, option by option. */
  const DEFAULTS: seq<seq<string>> := [
    ["rw", "nodev", "nosuid"] + ["shortname=mixed", "umask=0077"] + ["utf8=1", "flush"],
    ["rw", "nodev", "nosuid"] + ["umask=0077"],
    ["rw", "nodev", "nosuid", "norecover"] + ["allow_other", "windows_names"] + ["umask=0077"],
    ["rw", "nodev", "nosuid", "norecover"] + ["allow_other", "windows_names"] + ["umask=0077"],
    ["ro", "nodev", "nosuid"] + ["iocharset=utf8", "mode=0400"],
    ["ro", "nodev", "nosuid"] + ["iocharset=utf8", "umask=0077"]]

  lemma VfatTokens()
    ensures Tokens("rw,nodev,nosuid" + ",shortname=mixed,umask=0077" + ",utf8=1,flush") ==
      ["rw", "nodev", "nosuid"] + ["shortname=mixed", "umask=0077"] + ["utf8=1", "flush"]
  {
    hide Tokens;
    WritableTokens();
    NameTokens();
    FlushTokens();
    TokensSplice("rw,nodev,nosuid", ",shortname=mixed,umask=0077", "shortname=mixed,umask=0077");
    TokensSplice("rw,nodev,nosuid" + ",shortname=mixed,umask=0077", ",utf8=1,flush", "utf8=1,flush");
  }

  lemma ExfatTokens()
    ensures Tokens("rw,nodev,nosuid" + ",umask=0077") == ["rw", "nodev", "nosuid"] + ["umask=0077"]
  {
    hide Tokens;
    WritableTokens();
    OneToken("umask=0077");
    TokensSplice("rw,nodev,nosuid", ",umask=0077", "umask=0077");
  }

  lemma NtfsHead()
    ensures Tokens("rw,nodev,nosuid,norecover" + ",allow_other,windows_names") ==
      ["rw", "nodev", "nosuid", "norecover"] + ["allow_other", "windows_names"]
  {
    hide Tokens;
    WritableTokens();
    OwnerTokens();
    TokensSplice("rw,nodev,nosuid,norecover", ",allow_other,windows_names", "allow_other,windows_names");
  }

  lemma NtfsTokens()
    ensures Tokens("rw,nodev,nosuid,norecover" + ",allow_other,windows_names" + ",umask=0077") ==
      ["rw", "nodev", "nosuid", "norecover"] + ["allow_other", "windows_names"] + ["umask=0077"]
  {
    hide Tokens;
    NtfsHead();
    OneToken("umask=0077");
    TokensSplice("rw,nodev,nosuid,norecover" + ",allow_other,windows_names", ",umask=0077", "umask=0077");
  }

  lemma IsoTokens()
    ensures Tokens("ro,nodev,nosuid" + ",iocharset=utf8,mode=0400") ==
      ["ro", "nodev", "nosuid"] + ["iocharset=utf8", "mode=0400"]
  {
    hide Tokens;
    ReadOnlyTokens();
    DiscTokens();
    TokensSplice("ro,nodev,nosuid", ",iocharset=utf8,mode=0400", "iocharset=utf8,mode=0400");
  }

  lemma UdfTokens()
    ensures Tokens("ro,nodev,nosuid" + ",iocharset=utf8,umask=0077") ==
      ["ro", "nodev", "nosuid"] + ["iocharset=utf8", "umask=0077"]
  {
    hide Tokens;
    ReadOnlyTokens();
    DiscTokens();
    TokensSplice("ro,nodev,nosuid", ",iocharset=utf8,umask=0077", "iocharset=utf8,umask=0077");
  }

  lemma BuiltInTokens(i: nat)
    requires i < |FILESYSTEMS|
    ensures Tokens(FILESYSTEMS[i].defaults) == DEFAULTS[i]
  {
    hide Tokens;
    VfatTokens();
    ExfatTokens();
    NtfsTokens();
    IsoTokens();
    UdfTokens();
  }

  lemma FatAllowed()
    ensures AllAllowed(DEFAULTS[0], FILESYSTEMS[0].lists) && AllAllowed(DEFAULTS[1], FILESYSTEMS[1].lists)
  {
    hide AllAllowed, Table, Entries, AllEntries;
    var vfat, exfat := FILESYSTEMS[0].lists, FILESYSTEMS[1].lists;
    FilesystemTable(0);
    AnyFine(vfat);
    VfatFine(vfat);
    FineAppend(["rw", "nodev", "nosuid"], ["shortname=mixed", "umask=0077"], vfat);
    FineAppend(["rw", "nodev", "nosuid"] + ["shortname=mixed", "umask=0077"], ["utf8=1", "flush"], vfat);
    FilesystemTable(1);
    AnyFine(exfat);
    OtherEntries();
    MaskFine(exfat);
    FineAppend(["rw", "nodev", "nosuid"], ["umask=0077"], exfat);
  }

  lemma NtfsAllowed(lists: seq<Options>)
    requires Table(lists) && Entries(NTFS) <= AllEntries(lists)
    ensures AllAllowed(DEFAULTS[2], lists) && AllAllowed(["nodev", "nosuid", "norecover"], lists)
  {
    hide AllAllowed, Table, Entries, AllEntries;
    AnyFine(lists);
    NtfsFine(lists);
    NtfsEntries();
    MaskFine(lists);
    var base := ["rw", "nodev", "nosuid", "norecover"];
    assert base == ["rw", "nodev", "nosuid"] + ["norecover"];
    FineAppend(["rw", "nodev", "nosuid"], ["norecover"], lists);
    FineAppend(base, ["allow_other", "windows_names"], lists);
    FineAppend(base + ["allow_other", "windows_names"], ["umask=0077"], lists);
    assert ["nodev", "nosuid", "norecover"] == ["nodev", "nosuid"] + ["norecover"];
    FineAppend(["nodev", "nosuid"], ["norecover"], lists);
  }

  lemma DiscAllowed()
    ensures AllAllowed(DEFAULTS[4], FILESYSTEMS[4].lists) && AllAllowed(DEFAULTS[5], FILESYSTEMS[5].lists)
  {
    hide AllAllowed, Table, Entries, AllEntries;
    var iso, udf := FILESYSTEMS[4].lists, FILESYSTEMS[5].lists;
    OtherEntries();
    FilesystemTable(4);
    AnyFine(iso);
    DiscFine(iso);
    assert ["iocharset=utf8", "mode=0400"] == ["iocharset=utf8"] + ["mode=0400"];
    FineAppend(["iocharset=utf8"], ["mode=0400"], iso);
    FineAppend(["ro", "nodev", "nosuid"], ["iocharset=utf8", "mode=0400"], iso);
    FilesystemTable(5);
    AnyFine(udf);
    DiscFine(udf);
    MaskFine(udf);
    assert ["iocharset=utf8", "umask=0077"] == ["iocharset=utf8"] + ["umask=0077"];
    FineAppend(["iocharset=utf8"], ["umask=0077"], udf);
    FineAppend(["ro", "nodev", "nosuid"], ["iocharset=utf8", "umask=0077"], udf);
  }

  /** The built-in options of every file system, default and mandatory, are allowed by its own table. */
  lemma BuiltInAllowed(i: nat)
    requires i < |FILESYSTEMS|
    ensures AllAllowed(Tokens(FILESYSTEMS[i].defaults), FILESYSTEMS[i].lists)
    ensures AllAllowed(Tokens(FILESYSTEMS[i].mandatory), FILESYSTEMS[i].lists)
  {
    hide Tokens, AllAllowed, Table, Entries, AllEntries;
    BuiltInTokens(i);
    MandatoryTokens();
    FilesystemTable(i);
    AnyFine(FILESYSTEMS[i].lists);
    if i == 2 || i == 3 { NtfsAllowed(FILESYSTEMS[i].lists); }
    FatAllowed();
    DiscAllowed();
  }

  // ----- what they mean -----

  /** Whatever the user asks for, the built-in mandatory options keep devices and set-user-id programs out. */
  lemma BuiltInWord(i: nat, user: string)
    requires i < |FILESYSTEMS| && AllAllowed(Tokens(user), FILESYSTEMS[i].lists)
    ensures var lists, mandatory := FILESYSTEMS[i].lists, Tokens(FILESYSTEMS[i].mandatory);
      var w := FlagWord(0, Parse(Parse([], Tokens(user), lists, FLAGS).0, mandatory, lists, FLAGS).0);
      w & 2 == 2 && w & 4 == 4
  {
    hide Tokens, AllAllowed, Parse, FlagWord;
    var lists, mandatory := FILESYSTEMS[i].lists, Tokens(FILESYSTEMS[i].mandatory);
    BuiltInAllowed(i);
    MandatoryMentions(i);
    forall r | 1 <= r < 3 ensures LastMention(Tokens(user) + mandatory, ROWS[r]) == Some(true) {
      MentionAppend(Tokens(user), mandatory, ROWS[r]);
    }
    WordReads(Tokens(user), mandatory, lists);
    assert ROWS[1].bit == 2 && ROWS[2].bit == 4;
  }

  lemma MandatoryMentions(i: nat)
    requires i < |FILESYSTEMS|
    ensures var mandatory := Tokens(FILESYSTEMS[i].mandatory);
      LastMention(mandatory, ROWS[0]) == None && LastMention(mandatory, ROWS[1]) == Some(true)
      && LastMention(mandatory, ROWS[2]) == Some(true)
  {
    hide Tokens, LastMention;
    MandatoryTokens();
    assert "norecover"[2] == 'r' && "nosuid"[2] == 's' && "nodev"[2] == 'd' && "suid"[1] == 'u' && "dev"[1] == 'e';
    assert |"norecover"| == 9 && |"nosuid"| == 6 && |"nodev"| == 5 && |"suid"| == 4 && |"dev"| == 3 && |"ro"| == 2;
    forall r | 0 <= r < 3 ensures LastMention(["nodev", "nosuid"], ROWS[r]) == (if r == 0 then None else Some(true)) {
      assert ["nodev"] + ["nosuid"] == ["nodev", "nosuid"];
      MentionAppend(["nodev"], ["nosuid"], ROWS[r]);
      MentionOne("nodev", ROWS[r]);
      MentionOne("nosuid", ROWS[r]);
    }
    forall r | 0 <= r < 3
      ensures LastMention(["nodev", "nosuid", "norecover"], ROWS[r]) == LastMention(["nodev", "nosuid"], ROWS[r])
    {
      assert ["nodev", "nosuid"] + ["norecover"] == ["nodev", "nosuid", "norecover"];
      MentionAppend(["nodev", "nosuid"], ["norecover"], ROWS[r]);
      MentionOne("norecover", ROWS[r]);
    }
  }

  lemma {:induction false} NotReadOnly(ts: seq<string>)
    requires forall i :: 0 <= i < |ts| ==> |ts[i]| != 2
    ensures LastMention(ts, ROWS[0]) == None
  {
    assert |"ro"| == 2 && |"rw"| == 2;
    if ts != [] { NotReadOnly(ts[1..]); }
  }

  /** Without any options of the user, discs are mounted read-only and everything else is writable. */
  lemma DefaultWord(i: nat)
    requires i < |FILESYSTEMS|
    ensures var fs := FILESYSTEMS[i];
      var user, mandatory := Tokens(fs.defaults), Tokens(fs.mandatory);
      var w := FlagWord(0, Parse(Parse([], user, fs.lists, FLAGS).0, mandatory, fs.lists, FLAGS).0);
      w & 1 == if fs.fstype == "iso9660" || fs.fstype == "udf" then 1 else 0
  {
    hide Tokens, AllAllowed, Parse, FlagWord, LastMention;
    var user, mandatory := Tokens(FILESYSTEMS[i].defaults), Tokens(FILESYSTEMS[i].mandatory);
    BuiltInAllowed(i);
    MandatoryMentions(i);
    MentionAppend(user, mandatory, ROWS[0]);
    WordReads(user, mandatory, FILESYSTEMS[i].lists);
    assert ROWS[0].bit == 1;
    BuiltInTokens(i);
    var t := if i < 4 then "rw" else "ro";
    assert user == [t] + user[1..];
    NotReadOnly(user[1..]);
    MentionAppend([t], user[1..], ROWS[0]);
    MentionOne(t, ROWS[0]);
  }

  predicate BuiltIn(fs: Filesystem) { fs in FILESYSTEMS }

  /** The same for a file system of the table. */
  lemma BuiltInMount(fs: Filesystem, user: string)
    requires BuiltIn(fs)
    ensures AllAllowed(Tokens(fs.defaults), fs.lists) && AllAllowed(Tokens(fs.mandatory), fs.lists)
    ensures AllAllowed(Tokens(user), fs.lists) ==>
      var w := FlagWord(0, Parse(Parse([], Tokens(user), fs.lists, FLAGS).0, Tokens(fs.mandatory), fs.lists, FLAGS).0);
      w & 2 == 2 && w & 4 == 4
  {
    hide Tokens, AllAllowed, Parse, FlagWord;
    var i :| 0 <= i < |FILESYSTEMS| && FILESYSTEMS[i] == fs;
    BuiltInAllowed(i);
    if AllAllowed(Tokens(user), fs.lists) { BuiltInWord(i, user); }
  }

  // ----- which kernel flags a user may ask for -----

  lemma SharedEntries()
    ensures Entry("atime", false, NoCheck) in Entries(ANY_FS) && Entry("noatime", false, NoCheck) in Entries(ANY_FS)
    ensures Entry("nodiratime", false, NoCheck) in Entries(ANY_FS)
    ensures Entry("exec", false, NoCheck) in Entries(COMMON_FS) && Entry("noexec", false, NoCheck) in Entries(COMMON_FS)
    ensures Entry("sync", false, NoCheck) in Entries(COMMON_FS) && Entry("nosync", false, NoCheck) in Entries(COMMON_FS)
    ensures Entry("dirsync", false, NoCheck) in Entries(COMMON_FS)
  {}

  /** Every file system has these options, and all but the externally mounted ones have the second five. */
  lemma SharedOptions(i: nat)
    requires i < |FILESYSTEMS|
    ensures AllAllowed(["nodev", "nosuid", "ro", "rw", "atime", "noatime", "nodiratime"], FILESYSTEMS[i].lists)
    ensures FILESYSTEMS[i].external.None? ==>
      AllAllowed(["exec", "noexec", "sync", "nosync", "dirsync"], FILESYSTEMS[i].lists)
  {
    hide Entries, AllEntries, Sound, Allowed;
    var lists := FILESYSTEMS[i].lists;
    FilesystemTable(i);
    AnyEntries();
    SharedEntries();
    PlainName("nodev", lists);
    PlainName("nosuid", lists);
    PlainName("ro", lists);
    PlainName("rw", lists);
    PlainName("atime", lists);
    PlainName("noatime", lists);
    PlainName("nodiratime", lists);
    if FILESYSTEMS[i].external.None? { CommonNames(i); }
  }

  lemma CommonNames(i: nat)
    requires i < |FILESYSTEMS| && FILESYSTEMS[i].external.None?
    ensures AllAllowed(["exec", "noexec", "sync", "nosync", "dirsync"], FILESYSTEMS[i].lists)
  {
    hide Entries, AllEntries, Sound, Allowed;
    var lists := FILESYSTEMS[i].lists;
    FilesystemTable(i);
    JoinedEntries(ANY_FS, COMMON_FS, [VFAT, EXFAT, NTFS, NTFS, ISO9660, UDF][i]);
    SharedEntries();
    PlainName("exec", lists);
    PlainName("noexec", lists);
    PlainName("sync", lists);
    PlainName("nosync", lists);
    PlainName("dirsync", lists);
  }

  lemma {:induction false} ApartFits(t: string, o: Options)
    requires ApartFrom(t, o)
    ensures forall e :: e in Entries(o) ==> !Fits(t, e)
  {
    if o.Option? {
      ApartFits(t, o.rest);
      DifferMeans(t, o.entry.name, 0);
    }
  }

  lemma SharedForbids()
    ensures ApartFrom("suid", ANY_FS) && ApartFrom("suid", COMMON_FS)
    ensures ApartFrom("dev", ANY_FS) && ApartFrom("dev", COMMON_FS)
  {}

  lemma VfatForbids()
    ensures ApartFrom("suid", VFAT) && ApartFrom("dev", VFAT)
  {
    assert ApartFrom("suid", VFAT_TAIL) && ApartFrom("dev", VFAT_TAIL);
  }

  lemma NtfsForbids()
    ensures ApartFrom("suid", NTFS) && ApartFrom("dev", NTFS)
  {
    assert ApartFrom("suid", NTFS_TAIL) && ApartFrom("dev", NTFS_TAIL);
  }

  lemma OthersForbid()
    ensures ApartFrom("suid", EXFAT) && ApartFrom("suid", ISO9660) && ApartFrom("suid", UDF)
    ensures ApartFrom("dev", EXFAT) && ApartFrom("dev", ISO9660) && ApartFrom("dev", UDF)
  {}

  /** Set-user-id programs and devices cannot even be asked for. */
  lemma Forbidden(t: string, i: nat)
    requires i < |FILESYSTEMS| && (t == "suid" || t == "dev")
    ensures !Allowed(t, FILESYSTEMS[i].lists)
  {
    hide Entries, AllEntries, ApartFrom, Fits;
    SharedForbids();
    VfatForbids();
    NtfsForbids();
    OthersForbid();
    var last := [VFAT, EXFAT, NTFS, NTFS, ISO9660, UDF][i];
    ApartFits(t, ANY_FS);
    ApartFits(t, COMMON_FS);
    ApartFits(t, last);
    JoinedEntries(ANY_FS, COMMON_FS, last);
  }
}
