/** The values of mount options, said with digits and letters from literals: what is printed for a number, and what the
    validators accept. */
module OptionValues {
  import opened Basics
  import opened OptionTables
  import opened MountOptions
  import opened OptionText
  import opened OptionList
  import opened BuiltInOptions

  const DIGITS := "0123456789"
  const OCTAL_DIGITS := "01234567"
  const SMALL := "abcdefghijklmnopqrstuvwxyz"
  const CAPITAL := "ABCDEFGHIJKLMNOPQRSTUVWXYZ"

  // ----- what is printed for a number -----

  predicate Numeral(s: string) { forall i :: 0 <= i < |s| ==> s[i] in DIGITS }

  /** The position of a digit among the digits. */
  function DigitValue(c: char): (d: nat)
    requires c in DIGITS
    ensures d < 10 && DIGITS[d] == c
  {
    DigitRange(c);
    c as nat - '0' as nat
  }

  lemma DigitRange(c: char)
    ensures c in DIGITS <==> '0' <= c <= '9'
    ensures c in DIGITS ==> DIGITS[c as nat - '0' as nat] == c
  {}

  function NumberOf(s: string): nat
    requires Numeral(s)
  {
    if s == [] then 0 else NumberOf(s[..|s| - 1]) * 10 + DigitValue(s[|s| - 1])
  }

  /** What is printed for a number reads as that number, and has no leading zero. */
  lemma {:induction false} DecimalReads(n: nat)
    ensures Decimal(n) != "" && Numeral(Decimal(n)) && NumberOf(Decimal(n)) == n
    ensures Decimal(n)[0] == '0' <==> n == 0
  {
    var s := Decimal(n);
    DigitRange(DigitChar(n % 10));
    if n >= 10 {
      DecimalReads(n / 10);
      assert s[..|s| - 1] == Decimal(n / 10);
    } else {
      assert s[..0] == [];
    }
  }

  /** The user and the group that a mount is for stand at the end of its options. */
  lemma IdentityText(l: seq<Item>, fs: Filesystem, uid: nat, gid: nat)
    requires BuiltIn(fs)
    ensures FullParts(l, Given(None, fs.uid, Some(uid)), Given(None, fs.gid, Some(gid))) ==
      Texts(l) + ["uid=" + Decimal(uid), "gid=" + Decimal(gid)]
    ensures KernelParts(l, Given(None, fs.uid, Some(uid)), Given(None, fs.gid, Some(gid))) ==
      Texts(Plain(l)) + ["uid=" + Decimal(uid), "gid=" + Decimal(gid)]
  {
    hide Decimal, Plain;
    var i :| 0 <= i < |FILESYSTEMS| && FILESYSTEMS[i] == fs;
    assert fs.uid == Some("uid=") && fs.gid == Some("gid=");
  }

  // ----- what the validators accept -----

  predicate Within(s: string, letters: string) { forall i :: 0 <= i < |s| ==> s[i] in letters }

  lemma OctalRange(c: char)
    ensures c in OCTAL_DIGITS <==> '0' <= c <= '7'
  {}

  lemma SmallRange(c: char)
    ensures c in SMALL <==> 'a' <= c <= 'z'
  {}

  lemma CapitalRange(c: char)
    ensures c in CAPITAL <==> 'A' <= c <= 'Z'
  {}

  lemma PlainRange(c: char)
    ensures c in SMALL + CAPITAL + DIGITS + "-_" <==> PlainChar(c)
  {
    SmallRange(c);
    CapitalRange(c);
    DigitRange(c);
    assert c in "-_" <==> c == '-' || c == '_';
  }

  /** The letters of a value. */
  lemma LettersIff(v: string)
    ensures Passes(DecimalNumber, v) <==> Within(v, DIGITS)
    ensures Passes(OctalNumber, v) <==> Within(v, OCTAL_DIGITS)
    ensures Passes(AccessMode, v) <==> |v| == 4 && v[0] == '0' && Within(v, OCTAL_DIGITS)
  {
    forall c: char ensures (c in DIGITS <==> OptionTables.Digit(c)) { DigitRange(c); }
    forall c: char ensures (c in OCTAL_DIGITS <==> '0' <= c <= '7') { OctalRange(c); }
  }

  lemma PlainIff(v: string)
    ensures Passes(PlainText, v) <==> Within(v, SMALL + CAPITAL + DIGITS + "-_")
  {
    hide PlainChar;
    var letters := SMALL + CAPITAL + DIGITS + "-_";
    forall i | 0 <= i < |v| ensures v[i] in letters <==> PlainChar(v[i]) { PlainRange(v[i]); }
  }

  /** The values that are chosen from a list. */
  lemma ListedIff(v: string)
    ensures Passes(SingleInt, v) <==> v in {Decimal(0), Decimal(1)}
    ensures Passes(BlockSize, v) <==> v in {Decimal(512), Decimal(1024), Decimal(2048)}
    ensures Passes(ShortName, v) <==> v in {"lower", "win95", "winnt", "mixed"}
    ensures Passes(CheckLevel, v) <==> v in {"relaxed", "normal", "strict"} || v in {"r", "n", "s"}
  {
    hide Decimal;
    SmallNumbers();
  }

  lemma SmallNumbers()
    ensures Decimal(0) == "0" && Decimal(1) == "1"
    ensures Decimal(512) == "512" && Decimal(1024) == "1024" && Decimal(2048) == "2048"
  {
    assert Decimal(51) == "51" && Decimal(10) == "10" && Decimal(20) == "20";
    assert Decimal(102) == "102" && Decimal(204) == "204";
  }

  // ----- every value is checked -----

  /** Options with a parameter have a validator, and only they. */
  predicate Checked(o: Options) { o.End? || ((o.entry.param <==> !o.entry.check.NoCheck?) && Checked(o.rest)) }

  lemma {:induction false} CheckedEntries(o: Options)
    requires Checked(o)
    ensures forall e :: e in Entries(o) ==> (e.param <==> !e.check.NoCheck?)
  {
    if o.Option? { CheckedEntries(o.rest); }
  }

  lemma TablesChecked()
    ensures Checked(ANY_FS) && Checked(COMMON_FS) && Checked(EXFAT) && Checked(ISO9660) && Checked(UDF)
    ensures Checked(VFAT) && Checked(NTFS)
  {
    assert Checked(VFAT_TAIL) && Checked(NTFS_TAIL);
  }

  lemma ListsChecked(i: nat)
    requires i < |FILESYSTEMS|
    ensures forall e :: e in AllEntries(FILESYSTEMS[i].lists) ==> (e.param <==> !e.check.NoCheck?)
  {
    hide Entries, AllEntries;
    TablesChecked();
    var last := [VFAT, EXFAT, NTFS, NTFS, ISO9660, UDF][i];
    CheckedEntries(ANY_FS);
    CheckedEntries(COMMON_FS);
    CheckedEntries(last);
    JoinedEntries(ANY_FS, COMMON_FS, last);
  }

  /** Whatever a validator accepts are letters, digits, hyphens and underscores. */
  lemma PassedIsPlain(check: Check, v: string)
    requires !check.NoCheck? && Passes(check, v)
    ensures ',' !in v && '/' !in v && '=' !in v
  {
    assert forall k :: 0 <= k < |v| ==> PlainChar(v[k]);
  }

  lemma PlainValue(t: string, lists: seq<Options>)
    requires Allowed(t, lists) && forall e :: e in AllEntries(lists) ==> (e.param <==> !e.check.NoCheck?)
    ensures var e := FindOption(t, lists).value;
      t == e.name + Value(t, e) && (e.param <==> Value(t, e) != "")
      && ',' !in Value(t, e) && '/' !in Value(t, e) && '=' !in Value(t, e)
  {
    hide Passes, AllEntries;
    var e := FindOption(t, lists).value;
    if e.param { PassedIsPlain(e.check, Value(t, e)); }
  }

  /** The value of an allowed option is plain text, so that it can neither end the option nor name a path, and exactly
      the options with a parameter have one. */
  lemma ValueIsPlain(t: string, fs: Filesystem)
    requires BuiltIn(fs) && Allowed(t, fs.lists)
    ensures var e := FindOption(t, fs.lists).value;
      t == e.name + Value(t, e) && (e.param <==> Value(t, e) != "")
      && ',' !in Value(t, e) && '/' !in Value(t, e) && '=' !in Value(t, e)
  {
    hide Allowed, AllEntries, FindOption, Value;
    var i :| 0 <= i < |FILESYSTEMS| && FILESYSTEMS[i] == fs;
    ListsChecked(i);
    PlainValue(t, fs.lists);
  }

  // ----- which options there are -----

  /** The names of a table, in order; a parameter is named with its equals sign and the kind of its value. */
  function Kinds(o: Options): seq<(string, Check)> {
    match o
    case End => []
    case Option(e, rest) => [(e.name, e.check)] + Kinds(rest)
  }

  function KindsOf(lists: seq<Options>): seq<(string, Check)> {
    if lists == [] then [] else Kinds(lists[0]) + KindsOf(lists[1..])
  }

  const SHARED: seq<(string, Check)> := [
    ("nodev", NoCheck), ("nosuid", NoCheck), ("atime", NoCheck), ("noatime", NoCheck), ("nodiratime", NoCheck),
    ("ro", NoCheck), ("rw", NoCheck)]

  const COMMON: seq<(string, Check)> := [
    ("exec", NoCheck), ("noexec", NoCheck), ("sync", NoCheck), ("nosync", NoCheck), ("dirsync", NoCheck)]

  const MASKS: seq<(string, Check)> := [("umask=", AccessMode), ("dmask=", AccessMode), ("fmask=", AccessMode)]

  const VFAT_KINDS: seq<(string, Check)> :=
    [("flush", NoCheck), ("utf8=", SingleInt), ("shortname=", ShortName)] + MASKS
    + [("codepage=", PlainText), ("iocharset=", PlainText), ("showexec", NoCheck), ("blocksize=", DecimalNumber),
       ("allow_utime=", OctalNumber), ("check=", CheckLevel)]

  const NTFS_KINDS: seq<(string, Check)> := MASKS + [
    ("iocharset=", PlainText), ("utf8", NoCheck), ("windows_names", NoCheck), ("allow_other", NoCheck),
    ("norecover", NoCheck)]

  const ISO_KINDS: seq<(string, Check)> := [
    ("norock", NoCheck), ("nojoliet", NoCheck), ("iocharset=", PlainText), ("mode=", AccessMode), ("utf8", NoCheck),
    ("block=", BlockSize)]

  const UDF_KINDS: seq<(string, Check)> := [
    ("iocharset=", PlainText), ("umask=", AccessMode), ("undelete", NoCheck), ("unhide", NoCheck),
    ("nostrict", NoCheck)]

  lemma SharedKinds()
    ensures Kinds(ANY_FS) == SHARED && Kinds(COMMON_FS) == COMMON
  {}

  lemma VfatKinds()
    ensures Kinds(VFAT) == VFAT_KINDS
  {
    assert Kinds(VFAT_TAIL) == VFAT_KINDS[6..];
  }

  lemma NtfsKinds()
    ensures Kinds(NTFS) == NTFS_KINDS
  {
    assert Kinds(NTFS_TAIL) == NTFS_KINDS[4..];
  }

  lemma OtherKinds()
    ensures Kinds(EXFAT) == MASKS && Kinds(ISO9660) == ISO_KINDS && Kinds(UDF) == UDF_KINDS
  {}

  lemma ThreeKinds(a: Options, b: Options, c: Options)
    ensures KindsOf([a, b, c]) == Kinds(a) + Kinds(b) + Kinds(c) && KindsOf([a, c]) == Kinds(a) + Kinds(c)
  {
    hide Kinds;
    assert [a, b, c][1..] == [b, c] && [b, c][1..] == [c] && [a, c][1..] == [c] && [c][1..] == [];
    assert KindsOf([c]) == Kinds(c) + [] == Kinds(c);
    assert KindsOf([b, c]) == Kinds(b) + Kinds(c);
    assert Kinds(a) + (Kinds(b) + Kinds(c)) == Kinds(a) + Kinds(b) + Kinds(c);
  }

  /** All options of every file system, in the order in which they are compared, each with what its value may be. */
  lemma FilesystemKinds(i: nat)
    requires i < |FILESYSTEMS|
    ensures FILESYSTEMS[i].fstype == ["vfat", "exfat", "ntfs-3g", "ntfs", "iso9660", "udf"][i]
    ensures KindsOf(FILESYSTEMS[i].lists) ==
      SHARED + (if FILESYSTEMS[i].external.Some? then [] else COMMON)
      + [VFAT_KINDS, MASKS, NTFS_KINDS, NTFS_KINDS, ISO_KINDS, UDF_KINDS][i]
  {
    hide Kinds, KindsOf;
    SharedKinds();
    VfatKinds();
    NtfsKinds();
    OtherKinds();
    ThreeKinds(ANY_FS, COMMON_FS, [VFAT, EXFAT, NTFS, NTFS, ISO9660, UDF][i]);
    assert SHARED + [] == SHARED;
  }
}
