/** What a list of mount options means to the kernel, read off the options: for each kernel flag its last mention
    decides. */
module MountWords {
  import opened Basics
  import opened OptionTables
  import opened MountOptions

  /** A kernel flag: its bit, and the names that set and clear it. There is not always one that clears it. */
  datatype Row = Row(bit: bv64, on: string, off: Option<string>)

  const ROWS: seq<Row> := [
    Row(1, "ro", Some("rw")), Row(2, "nosuid", Some("suid")), Row(4, "nodev", Some("dev")),
    Row(8, "noexec", Some("exec")), Row(16, "sync", Some("nosync")), Row(64, "mand", Some("nomand")),
    Row(128, "dirsync", None), Row(1024, "noatime", Some("atime")), Row(2048, "nodiratime", Some("diratime")),
    Row(32768, "silent", Some("loud")), Row(0x20_0000, "relatime", None), Row(0x100_0000, "strictatime", None)]

  /** All bits but those of the rows. */
  const OTHER_BITS: bv64 := 0xFFFF_FFFF_FEDF_7320

  /** The last mention of a flag in a list of options, if there is one. */
  function LastMention(ts: seq<string>, row: Row): Option<bool> {
    if ts == [] then None
    else if LastMention(ts[1..], row).Some? then LastMention(ts[1..], row)
    else if ts[0] == row.on then Some(true)
    else if Some(ts[0]) == row.off then Some(false)
    else None
  }

  lemma {:induction false} MentionAppend(a: seq<string>, b: seq<string>, row: Row)
    ensures LastMention(a + b, row) == if LastMention(b, row).Some? then LastMention(b, row) else LastMention(a, row)
  {
    if a == [] {
      assert a + b == b;
    } else {
      assert (a + b)[0] == a[0] && (a + b)[1..] == a[1..] + b;
      MentionAppend(a[1..], b, row);
    }
  }

  lemma MentionOne(t: string, row: Row)
    ensures LastMention([t], row) == if t == row.on then Some(true) else if Some(t) == row.off then Some(false)
      else None
  {
    assert [t][1..] == [];
  }

  // ----- the names -----

  lemma Step(t: string, flags: Flags)
    requires flags.Flag?
    ensures FindFlag(t, flags) ==
      if t == flags.name then Some(FlagValue(flags.flag, flags.enabled)) else FindFlag(t, flags.rest)
  {}

  /** The search through the table, spelled out. */
  function Found(t: string): Option<FlagValue> {
    if t == "dirsync" then Some(FlagValue(128, true))
    else if t == "mand" then Some(FlagValue(64, true))
    else if t == "nomand" then Some(FlagValue(64, false))
    else if t == "noatime" then Some(FlagValue(1024, true))
    else if t == "atime" then Some(FlagValue(1024, false))
    else if t == "nodev" then Some(FlagValue(4, true))
    else if t == "dev" then Some(FlagValue(4, false))
    else if t == "nodiratime" then Some(FlagValue(2048, true))
    else if t == "diratime" then Some(FlagValue(2048, false))
    else if t == "noexec" then Some(FlagValue(8, true))
    else if t == "exec" then Some(FlagValue(8, false))
    else if t == "nosuid" then Some(FlagValue(2, true))
    else if t == "suid" then Some(FlagValue(2, false))
    else if t == "ro" then Some(FlagValue(1, true))
    else if t == "rw" then Some(FlagValue(1, false))
    else if t == "relatime" then Some(FlagValue(0x20_0000, true))
    else if t == "silent" then Some(FlagValue(32768, true))
    else if t == "loud" then Some(FlagValue(32768, false))
    else if t == "strictatime" then Some(FlagValue(0x100_0000, true))
    else if t == "sync" then Some(FlagValue(16, true))
    else if t == "nosync" then Some(FlagValue(16, false))
    else None
  }

  lemma Search(t: string)
    ensures FindFlag(t, FLAGS) == Found(t)
  {
    hide FindFlag;
    var a, b, c := FLAGS, FLAGS_MIDDLE, FLAGS_TAIL;
    var d := c.rest.rest.rest.rest;
    Step(t, a);
    Step(t, a.rest);
    Step(t, a.rest.rest);
    Step(t, a.rest.rest.rest);
    Step(t, a.rest.rest.rest.rest);
    Step(t, a.rest.rest.rest.rest.rest);
    Step(t, b);
    Step(t, b.rest);
    Step(t, b.rest.rest);
    Step(t, b.rest.rest.rest);
    Step(t, b.rest.rest.rest.rest);
    Step(t, b.rest.rest.rest.rest.rest);
    Step(t, c);
    Step(t, c.rest);
    Step(t, c.rest.rest);
    Step(t, c.rest.rest.rest);
    Step(t, d);
    Step(t, d.rest);
    Step(t, d.rest.rest);
    Step(t, d.rest.rest.rest);
    Step(t, d.rest.rest.rest.rest);
    Nowhere(t);
  }

  lemma Nowhere(t: string)
    ensures FindFlag(t, NoFlags) == None
  {}

  lemma FirstSetters()
    ensures Found("ro") == Some(FlagValue(1, true)) && Found("nosuid") == Some(FlagValue(2, true))
    ensures Found("nodev") == Some(FlagValue(4, true)) && Found("noexec") == Some(FlagValue(8, true))
    ensures Found("sync") == Some(FlagValue(16, true)) && Found("mand") == Some(FlagValue(64, true))
  {
    assert "mand"[0] == 'm' && "exec"[0] == 'e' && "suid"[1] == 'u' && "sync"[1] == 'y' && "loud"[0] == 'l';
    assert "nomand"[2] == 'm' && "noexec"[2] == 'e' && "nosuid"[2] == 's' && "nodev"[0] == 'n' && "atime"[0] == 'a';
  }

  lemma OtherSetters()
    ensures Found("dirsync") == Some(FlagValue(128, true)) && Found("noatime") == Some(FlagValue(1024, true))
    ensures Found("nodiratime") == Some(FlagValue(2048, true)) && Found("silent") == Some(FlagValue(32768, true))
    ensures Found("relatime") == Some(FlagValue(0x20_0000, true))
    ensures Found("strictatime") == Some(FlagValue(0x100_0000, true))
  {
    assert "dirsync"[0] == 'd' && "noatime"[0] == 'n' && "diratime"[0] == 'd' && "relatime"[0] == 'r';
    assert "silent"[2] == 'l' && "nomand"[2] == 'm' && "noexec"[2] == 'e' && "nosuid"[2] == 's';
  }

  lemma Clearers()
    ensures Found("rw") == Some(FlagValue(1, false)) && Found("suid") == Some(FlagValue(2, false))
    ensures Found("dev") == Some(FlagValue(4, false)) && Found("exec") == Some(FlagValue(8, false))
    ensures Found("nosync") == Some(FlagValue(16, false)) && Found("nomand") == Some(FlagValue(64, false))
  {
    assert "rw"[1] == 'w' && "ro"[1] == 'o' && "mand"[0] == 'm' && "exec"[0] == 'e' && "suid"[1] == 'u';
    assert "nosync"[2] == 's' && "nosync"[3] == 'y' && "nosuid"[3] == 'u' && "silent"[2] == 'l';
    assert "nomand"[2] == 'm' && "noexec"[2] == 'e';
  }

  lemma OtherClearers()
    ensures Found("atime") == Some(FlagValue(1024, false)) && Found("diratime") == Some(FlagValue(2048, false))
    ensures Found("loud") == Some(FlagValue(32768, false))
  {
    assert "loud"[0] == 'l' && "mand"[0] == 'm' && "exec"[0] == 'e' && "suid"[0] == 's';
    assert "atime"[0] == 'a' && "nodev"[0] == 'n' && "diratime"[0] == 'd' && "relatime"[0] == 'r';
  }

  lemma SetterFound(r: nat)
    requires r < |ROWS|
    ensures FindFlag(ROWS[r].on, FLAGS) == Some(FlagValue(ROWS[r].bit, true))
  {
    hide FindFlag, Found;
    Search(ROWS[r].on);
    FirstSetters();
    OtherSetters();
  }

  lemma ClearerFound(r: nat)
    requires r < |ROWS| && ROWS[r].off.Some?
    ensures FindFlag(ROWS[r].off.value, FLAGS) == Some(FlagValue(ROWS[r].bit, false))
  {
    hide FindFlag, Found;
    Search(ROWS[r].off.value);
    Clearers();
    OtherClearers();
  }

  predicate SetsOrClears(t: string, v: FlagValue, r: nat)
    requires r < |ROWS|
  {
    v.flag == ROWS[r].bit && if v.enabled then t == ROWS[r].on else Some(t) == ROWS[r].off
  }

  lemma EachSets()
    ensures SetsOrClears("ro", FlagValue(1, true), 0) && SetsOrClears("rw", FlagValue(1, false), 0)
    ensures SetsOrClears("nosuid", FlagValue(2, true), 1) && SetsOrClears("suid", FlagValue(2, false), 1)
    ensures SetsOrClears("nodev", FlagValue(4, true), 2) && SetsOrClears("dev", FlagValue(4, false), 2)
    ensures SetsOrClears("noexec", FlagValue(8, true), 3) && SetsOrClears("exec", FlagValue(8, false), 3)
    ensures SetsOrClears("sync", FlagValue(16, true), 4) && SetsOrClears("nosync", FlagValue(16, false), 4)
    ensures SetsOrClears("mand", FlagValue(64, true), 5) && SetsOrClears("nomand", FlagValue(64, false), 5)
    ensures SetsOrClears("dirsync", FlagValue(128, true), 6)
    ensures SetsOrClears("noatime", FlagValue(1024, true), 7) && SetsOrClears("atime", FlagValue(1024, false), 7)
    ensures SetsOrClears("nodiratime", FlagValue(2048, true), 8)
    ensures SetsOrClears("diratime", FlagValue(2048, false), 8)
    ensures SetsOrClears("silent", FlagValue(32768, true), 9) && SetsOrClears("loud", FlagValue(32768, false), 9)
    ensures SetsOrClears("relatime", FlagValue(0x20_0000, true), 10)
    ensures SetsOrClears("strictatime", FlagValue(0x100_0000, true), 11)
  {}

  lemma SomeRow(t: string)
    requires Found(t).Some?
    ensures exists r :: 0 <= r < |ROWS| && SetsOrClears(t, Found(t).value, r)
  {
    hide SetsOrClears;
    EachSets();
  }

  /** The row of a name that is a flag. */
  lemma Located(t: string) returns (r: nat)
    requires FindFlag(t, FLAGS).Some?
    ensures r < |ROWS| && SetsOrClears(t, FindFlag(t, FLAGS).value, r)
  {
    hide FindFlag, SetsOrClears, Found;
    Search(t);
    SomeRow(t);
    r :| r < |ROWS| && SetsOrClears(t, Found(t).value, r);
  }

  lemma BitsApart(r: nat, q: nat)
    requires r < |ROWS| && q < |ROWS| && ROWS[r].bit == ROWS[q].bit
    ensures r == q
  {}

  /** A row's names set and clear its bit, and no other name touches it. */
  lemma NameFound(t: string, r: nat)
    requires r < |ROWS|
    ensures t == ROWS[r].on ==> FindFlag(t, FLAGS) == Some(FlagValue(ROWS[r].bit, true))
    ensures Some(t) == ROWS[r].off ==> FindFlag(t, FLAGS) == Some(FlagValue(ROWS[r].bit, false))
    ensures var f := FindFlag(t, FLAGS);
      f.Some? && f.value.flag == ROWS[r].bit ==> if f.value.enabled then t == ROWS[r].on else Some(t) == ROWS[r].off
  {
    hide FindFlag;
    SetterFound(r);
    if ROWS[r].off.Some? { ClearerFound(r); }
    if FindFlag(t, FLAGS).Some? && FindFlag(t, FLAGS).value.flag == ROWS[r].bit {
      var q := Located(t);
      BitsApart(r, q);
    }
  }

  // ----- the flag word -----

  /** What the last item with a flag makes of it. */
  function LastOf(l: seq<Item>, f: bv64): Option<bool> {
    if l == [] then None
    else if LastOf(l[1..], f).Some? then LastOf(l[1..], f)
    else if l[0].flag == f then Some(l[0].enabled)
    else None
  }

  lemma LastOfStep(l: seq<Item>, f: bv64)
    ensures l == [] ==> LastOf(l, f) == None
    ensures l != [] ==>
      LastOf(l, f) == if LastOf(l[1..], f).Some? then LastOf(l[1..], f)
        else if l[0].flag == f then Some(l[0].enabled) else None
  {}

  /** The bits of a flag in the word are what the last item with that flag makes of them. */
  lemma {:induction false} WordBit(w: bv64, l: seq<Item>, f: bv64, flags: Flags)
    requires SoundFlags(flags) && AllListed(l, flags) && Listed(f, flags) && f != 0
    ensures LastOf(l, f).None? ==> Bits(FlagWord(w, l), f) == Bits(w, f)
    ensures LastOf(l, f) == Some(true) ==> Bits(FlagWord(w, l), f) == f
    ensures LastOf(l, f) == Some(false) ==> Bits(FlagWord(w, l), f) == 0
    decreases |l|
  {
    hide Bits, Or, MountOptions.Less, SetFlag, Listed, SoundFlags, LastOf;
    LastOfStep(l, f);
    if l != [] {
      if l[0].flag == 0 { ZeroBits(l[0].flag, f); } else { FlagsDisjoint(l[0].flag, f, flags); }
      SetFlagBits(w, l[0], f);
      WordBit(SetFlag(w, l[0]), l[1..], f, flags);
    }
  }

  lemma {:induction false} LastOfKeyed(l: seq<Item>, f: bv64)
    requires f != 0
    ensures LastOf(l, f).Some? <==> HasKey(l, ByFlag(f))
  {
    if l != [] {
      LastOfKeyed(l[1..], f);
      KeysOfTail(l);
    }
  }

  /** Dropping overridden items does not change that. */
  lemma {:induction false} KeptMention(l: seq<Item>, f: bv64)
    requires f != 0
    ensures LastOf(KeepLast(l), f) == LastOf(l, f)
  {
    hide HasKey;
    if l != [] {
      KeptMention(l[1..], f);
      LastOfKeyed(l[1..], f);
      assert ([l[0]] + KeepLast(l[1..]))[1..] == KeepLast(l[1..]);
    }
  }

  lemma ItemMention(t: string, lists: seq<Options>, r: nat)
    requires Allowed(t, lists) && r < |ROWS|
    ensures var i := ItemFor(t, lists, FLAGS);
      if i.flag == ROWS[r].bit then if i.enabled then t == ROWS[r].on else Some(t) == ROWS[r].off
      else t != ROWS[r].on && Some(t) != ROWS[r].off
  {
    hide Allowed, FindFlag;
    BitsSet(r);
    NameFound(t, r);
  }

  lemma BitsSet(r: nat)
    requires r < |ROWS|
    ensures ROWS[r].bit != 0 && Some(ROWS[r].on) != ROWS[r].off
  {}

  lemma {:induction false} ItemsMention(ts: seq<string>, lists: seq<Options>, r: nat)
    requires r < |ROWS| && AllAllowed(ts, lists)
    ensures LastOf(Items(ts, lists, FLAGS), ROWS[r].bit) == LastMention(ts, ROWS[r])
  {
    hide Allowed, ItemFor;
    if ts != [] {
      ItemMention(ts[0], lists, r);
      BitsSet(r);
      ItemsMention(ts[1..], lists, r);
      assert Items(ts, lists, FLAGS)[1..] == Items(ts[1..], lists, FLAGS);
    }
  }

  lemma {:induction false} ParseAppend(l: seq<Item>, a: seq<string>, b: seq<string>, lists: seq<Options>)
    requires AllAllowed(a, lists)
    ensures Parse(l, a + b, lists, FLAGS) == Parse(Parse(l, a, lists, FLAGS).0, b, lists, FLAGS)
    decreases |a|
  {
    hide Allowed, ItemFor, Push;
    if a == [] {
      assert a + b == b;
    } else {
      assert (a + b)[0] == a[0] && (a + b)[1..] == a[1..] + b;
      ParseAppend(Push(l, ItemFor(a[0], lists, FLAGS)), a[1..], b, lists);
    }
  }

  lemma KeptListed(l: seq<Item>)
    requires AllListed(l, FLAGS)
    ensures AllListed(KeepLast(l), FLAGS)
  {
    hide Listed, KeepLast;
    KeepLastDistinct(l);
    forall i | 0 <= i < |KeepLast(l)| ensures Listed(KeepLast(l)[i].flag, FLAGS) {
      assert KeepLast(l)[i] in KeepLast(l) && KeepLast(l)[i] in l;
    }
  }

  lemma RowListed(r: nat)
    requires r < |ROWS|
    ensures ROWS[r].bit != 0 && Listed(ROWS[r].bit, FLAGS)
  {
    hide Listed, FindFlag;
    BitsSet(r);
    SetterFound(r);
    FindFlagListed(ROWS[r].on, FLAGS);
  }

  /** The word has the bit of each kernel flag exactly if its last mention sets it, and no other bit. */
  predicate WordMeans(w: bv64, ts: seq<string>) {
    Bits(w, OTHER_BITS) == 0
    && forall r :: 0 <= r < |ROWS| ==>
      Bits(w, ROWS[r].bit) == if LastMention(ts, ROWS[r]) == Some(true) then ROWS[r].bit else 0
  }

  /** What is mounted is the last option of each key. */
  lemma MountedIsKept(user: seq<string>, mandatory: seq<string>, lists: seq<Options>)
    requires AllAllowed(user, lists) && AllAllowed(mandatory, lists)
    ensures AllAllowed(user + mandatory, lists)
    ensures Parse(Parse([], user, lists, FLAGS).0, mandatory, lists, FLAGS).0 ==
      KeepLast(Items(user + mandatory, lists, FLAGS))
  {
    hide Allowed, Parse, KeepLast, Items;
    ParseAppend([], user, mandatory, lists);
    ParseIsPushAll([], user + mandatory, lists, FLAGS);
    ParseKeepsLast(user + mandatory, lists, FLAGS);
  }

  lemma BitReads(ts: seq<string>, lists: seq<Options>, r: nat)
    requires AllAllowed(ts, lists) && r < |ROWS|
    ensures Bits(FlagWord(0, KeepLast(Items(ts, lists, FLAGS))), ROWS[r].bit) ==
      if LastMention(ts, ROWS[r]) == Some(true) then ROWS[r].bit else 0
  {
    hide Allowed, FlagWord, KeepLast, Items, SoundFlags, LastOf, LastMention, Listed, AllListed, Bits;
    var items, bit := Items(ts, lists, FLAGS), ROWS[r].bit;
    ItemsListed(ts, lists, FLAGS);
    KeptListed(items);
    FlagsSound();
    RowListed(r);
    WordBit(0, KeepLast(items), bit, FLAGS);
    KeptMention(items, bit);
    ItemsMention(ts, lists, r);
    ZeroBits(0, bit);
    match LastMention(ts, ROWS[r])
    case None =>
    case Some(on) => if on { assert LastMention(ts, ROWS[r]) == Some(true); }
  }

  lemma RowBits(r: nat)
    requires r < |ROWS|
    ensures Bits(ROWS[r].bit, OTHER_BITS) == 0
  {
    BitByBit();
    hide Bits;
  }

  lemma BitByBit()
    ensures Bits(1, OTHER_BITS) == Bits(2, OTHER_BITS) == Bits(4, OTHER_BITS) == Bits(8, OTHER_BITS) == 0
    ensures Bits(16, OTHER_BITS) == Bits(64, OTHER_BITS) == Bits(128, OTHER_BITS) == Bits(1024, OTHER_BITS) == 0
    ensures Bits(2048, OTHER_BITS) == Bits(32768, OTHER_BITS) == 0
    ensures Bits(0x20_0000, OTHER_BITS) == Bits(0x100_0000, OTHER_BITS) == 0
  {}

  lemma NamedBits(t: string)
    ensures FindFlag(t, FLAGS).Some? ==> Bits(FindFlag(t, FLAGS).value.flag, OTHER_BITS) == 0
  {
    hide FindFlag, Bits;
    if FindFlag(t, FLAGS).Some? {
      var r := Located(t);
      RowBits(r);
    }
  }

  /** No other bit is ever set. */
  lemma {:induction false} NoOtherBits(w: bv64, l: seq<Item>)
    requires Bits(w, OTHER_BITS) == 0 && forall i :: 0 <= i < |l| ==> Bits(l[i].flag, OTHER_BITS) == 0
    ensures Bits(FlagWord(w, l), OTHER_BITS) == 0
    decreases |l|
  {
    hide Bits, SetFlag;
    if l != [] {
      SetFlagBits(w, l[0], OTHER_BITS);
      NoOtherBits(SetFlag(w, l[0]), l[1..]);
    }
  }

  lemma MountedBits(ts: seq<string>, lists: seq<Options>)
    requires AllAllowed(ts, lists)
    ensures Bits(FlagWord(0, KeepLast(Items(ts, lists, FLAGS))), OTHER_BITS) == 0
  {
    hide Bits, Allowed, FlagWord, KeepLast, FindFlag;
    var items := Items(ts, lists, FLAGS);
    ZeroBits(0, OTHER_BITS);
    forall i | 0 <= i < |items| ensures Bits(items[i].flag, OTHER_BITS) == 0 { NamedBits(ts[i]); }
    KeepLastDistinct(items);
    var kept := KeepLast(items);
    forall i | 0 <= i < |kept|
      ensures Bits(kept[i].flag, OTHER_BITS) == 0 { assert kept[i] in kept && kept[i] in items; }
    NoOtherBits(0, kept);
  }

  /** So it is for the options of every mount: the user's and then the mandatory ones. */
  lemma WordReads(user: seq<string>, mandatory: seq<string>, lists: seq<Options>)
    requires AllAllowed(user, lists) && AllAllowed(mandatory, lists)
    ensures WordMeans(FlagWord(0, Parse(Parse([], user, lists, FLAGS).0, mandatory, lists, FLAGS).0), user + mandatory)
  {
    hide Parse, Allowed, FlagWord, LastMention, KeepLast, Items, Bits;
    MountedIsKept(user, mandatory, lists);
    var ts := user + mandatory;
    var w := FlagWord(0, KeepLast(Items(ts, lists, FLAGS)));
    MountedBits(ts, lists);
    forall r | 0 <= r < |ROWS|
      ensures Bits(w, ROWS[r].bit) == if LastMention(ts, ROWS[r]) == Some(true) then ROWS[r].bit else 0
    {
      BitReads(ts, lists, r);
    }
  }
}
