/** The list of mount options as the daemon builds and prints it: the options of convert_options_to_list are
    moved and added in place, and fsopts_generate_string fills up to two buffers of any size. */
module OptionList {
  import opened Basics
  import opened OptionTables
  import opened MountOptions
  import opened OptionText
  import opened MountWords
  import opened BuiltInOptions

  /** Decimal digits of a number. */
  function Decimal(n: nat): string {
    if n < 10 then [DigitChar(n)] else Decimal(n / 10) + [DigitChar(n % 10)]
  }

  function DigitChar(d: nat): char
    requires d < 10
  {
    '0' + d as char
  }

  /** The user or group that the mount is for: an option name and its value. */
  datatype Identity = Identity(name: string, value: string)

  class OptionList {
    var options: seq<Item>
    var uid: Option<Identity>
    var gid: Option<Identity>

    constructor ()
      ensures options == [] && uid == None && gid == None
    {
      options, uid, gid := [], None, None;
    }

    /** The first item that the option at this position overrides. Without a flag, the item's name is compared
        with the whole rest of the text. */
    method FindDuplicate(tail: string, flag: Option<FlagValue>) returns (i: nat)
      ensures i <= |options| && (forall k :: 0 <= k < i ==> !Overrides(tail, flag, options[k]))
      ensures i < |options| ==> Overrides(tail, flag, options[i])
    {
      i := 0;
      while i < |options| && !Overrides(tail, flag, options[i])
        invariant i <= |options| && forall k :: 0 <= k < i ==> !Overrides(tail, flag, options[k])
      {
        i := i + 1;
      }
    }

    /** One option of the text: refused, or placed where it belongs. */
    method Accept(text: string, pos: nat, lists: seq<Options>) returns (ok: bool)
      requires pos <= |text| && Sound(lists, FLAGS) && ProperItems(options, lists, FLAGS)
      modifies this`options
      ensures ProperItems(options, lists, FLAGS)
      ensures var t := text[pos..][..Comma(text[pos..])];
        ok == Allowed(t, lists)
        && options == if ok then Push(old(options), ItemFor(t, lists, FLAGS)) else old(options)
    {
      hide Allowed, Sound, ItemFor, Push, KeysDistinct, Overrides, Without, KeyOf, FindFlag;
      var tail := text[pos..];
      var len := Comma(tail);
      var t := tail[..len];
      if !Allowed(t, lists) { return false; }
      var flag := FindFlag(t, FLAGS);
      var item := ItemFor(t, lists, FLAGS);
      var i := FindDuplicate(tail, flag);
      CommaIsFirst(tail);
      assert tail == t + tail[len..];
      PlaceIsPush(options, i, t, tail[len..], lists);
      ghost var was := options;
      Place(i, item);
      PushProper(was, item, lists, FLAGS);
      return true;
    }

    /** convert_options_to_list: the options up to the first that is refused; then, if all were good, the user and
        the group that were given. */
    method Convert(text: Option<string>, fs: Option<Filesystem>, uid: Option<nat>, gid: Option<nat>)
      returns (outcome: Outcome)
      requires fs.Some? ==> Sound(fs.value.lists, FLAGS) && ProperItems(options, fs.value.lists, FLAGS)
      modifies this
      ensures text.None? || fs.None? ==>
        outcome == Bug && options == old(options) && this.uid == old(this.uid) && this.gid == old(this.gid)
      ensures text.Some? && fs.Some? ==>
        (options, outcome) == Parse(old(options), Tokens(text.value), fs.value.lists, FLAGS)
        && ProperItems(options, fs.value.lists, FLAGS)
        && this.uid == (if outcome.Success? then Given(old(this.uid), fs.value.uid, uid) else old(this.uid))
        && this.gid == (if outcome.Success? then Given(old(this.gid), fs.value.gid, gid) else old(this.gid))
    {
      hide Sound, Allowed, ItemFor, Push, ProperItems, Parse;
      if text.None? || fs.None? { return Bug; }
      var s, lists := text.value, fs.value.lists;
      var pos: Option<nat> := if s == "" then None else Some(0);
      ghost var goal := Parse(options, Tokens(s), lists, FLAGS);
      while pos.Some?
        invariant pos.Some? ==> pos.value <= |s|
        invariant goal == Parse(options, if pos.None? then [] else Split(s[pos.value..]), lists, FLAGS)
        invariant ProperItems(options, lists, FLAGS) && this.uid == old(this.uid) && this.gid == old(this.gid)
        decreases if pos.None? then 0 else 1 + |s| - pos.value
      {
        ParseStep(options, s, pos.value, lists);
        var ok := Accept(s, pos.value, lists);
        if !ok { return Fail; }
        pos := After(s, pos.value);
      }
      ParseNothing(options, lists);
      this.uid := Given(this.uid, fs.value.uid, uid);
      this.gid := Given(this.gid, fs.value.gid, gid);
      return Success;
    }

    /** The options of a mount: those asked for, or the configured or built-in defaults, and then the mandatory ones.
        Both lists are refused as a whole if one of their options is. */
    method ForMount(asked: Option<string>, configured: Option<string>, mandated: Option<string>, fs: Filesystem,
      uid: nat, gid: nat)
      returns (outcome: Outcome)
      requires Sound(fs.lists, FLAGS) && options == []
      modifies this
      ensures var user := Tokens(if asked.Some? then asked.value else if configured.Some? then configured.value
                                 else fs.defaults);
        var mandatory := Tokens(if mandated.Some? then mandated.value else fs.mandatory);
        (outcome.Success? <==> AllAllowed(user, fs.lists) && AllAllowed(mandatory, fs.lists))
        && (outcome.Success? ==>
              var us, ms := Items(user, fs.lists, FLAGS), Items(mandatory, fs.lists, FLAGS);
              options == Spared(KeepLast(us), ms) + KeepLast(ms) && FlagWord(0, options) == Union(options)
              && WordMeans(FlagWord(0, options), user + mandatory)
              && Parse([], Tokens(Join(Texts(options))), fs.lists, FLAGS) == (options, Outcome.Success)
              && this.uid == Given(old(this.uid), fs.uid, Some(uid))
                && this.gid == Given(old(this.gid), fs.gid, Some(gid)))
      ensures BuiltIn(fs) && mandated.None? && outcome.Success? ==>
        FlagWord(0, options) & 2 == 2 && FlagWord(0, options) & 4 == 4
      ensures BuiltIn(fs) && asked.None? && configured.None? && mandated.None? ==> outcome.Success?
    {
      hide Tokens, Parse, KeepLast, Spared, SoundFlags, FlagWord, Union, WordMeans, BuiltIn, Allowed, Join, Texts;
      assert ProperItems(options, fs.lists, FLAGS);
      var first := Chosen(asked, Chosen(configured, fs.defaults));
      if BuiltIn(fs) { BuiltInMount(fs, first); }
      ParseIsPushAll([], Tokens(first), fs.lists, FLAGS);
      outcome := Convert(Some(first), Some(fs), Some(uid), Some(gid));
      if !outcome.Success? { return; }
      var second := Chosen(mandated, fs.mandatory);
      ParseIsPushAll(options, Tokens(second), fs.lists, FLAGS);
      if AllAllowed(Tokens(second), fs.lists) { MandatoryWins(Tokens(first), Tokens(second), fs.lists, FLAGS); }
      MountFlags(Tokens(first), Tokens(second), fs.lists, FLAGS);
      if AllAllowed(Tokens(second), fs.lists) { WordReads(Tokens(first), Tokens(second), fs.lists); }
      outcome := Convert(Some(second), Some(fs), None, None);
      PrintParse(options, fs.lists, FLAGS);
    }

    /** memcpy of as much as fits; nothing without a buffer. */
    static method Put(buffer: array?<char>, size: nat, at: nat, s: string)
      requires buffer != null ==> size <= buffer.Length
      modifies Both(buffer, null)
      ensures buffer != null ==> forall i :: 0 <= i < buffer.Length ==>
        buffer[i] == if at <= i < at + |s| && i < size then s[i - at] else old(buffer[i])
    {
      if buffer == null { return; }
      var count := if at + |s| <= size then |s| else if at < size then size - at else 0;
      for k := 0 to count
        invariant forall i :: 0 <= i < buffer.Length ==>
          buffer[i] == if at <= i < at + k then s[i - at] else old(buffer[i])
      {
        buffer[at + k] := s[k];
      }
    }

    /** One more part, after a comma if it is not the first. */
    static method PutPart(buffer: array?<char>, size: nat, at: nat, ghost before: seq<char>, ghost parts: seq<string>,
      count: nat,
                          name: string, value: string)
      returns (end: nat)
      requires (buffer != null ==> size <= buffer.Length) && at == |Join(parts)| && count == |parts|
      requires Shows(buffer, size, before, Join(parts))
      modifies Both(buffer, null)
      ensures end == |Join(parts + [name + value])| && Shows(buffer, size, before, Join(parts + [name + value]))
    {
      hide Join;
      JoinMore(parts, name + value);
      JoinNothing();
      end := at;
      if count > 0 {
        Put(buffer, size, end, ",");
        end := end + 1;
      }
      Put(buffer, size, end, name);
      end := end + |name|;
      Put(buffer, size, end, value);
      end := end + |value|;
    }

    static method PutIdentity(buffer: array?<char>, size: nat, at: nat, ghost before: seq<char>,
      ghost parts: seq<string>,
                              count: nat, id: Option<Identity>)
      returns (end: nat)
      requires (buffer != null ==> size <= buffer.Length) && at == |Join(parts)| && count == |parts|
      requires Shows(buffer, size, before, Join(parts))
      modifies Both(buffer, null)
      ensures end == |Join(parts + IdentityParts(id))| && Shows(buffer, size, before, Join(parts + IdentityParts(id)))
    {
      hide Join, Shows;
      assert parts + [] == parts;
      end := at;
      if id.Some? { end := PutPart(buffer, size, at, before, parts, count, id.value.name, id.value.value); }
    }

    /** One option, into both texts if it is no flag. */
    static method PutOption(full: array?<char>, fullSize: nat, buffer: array?<char>, size: nat,
      ghost fullBefore: seq<char>,
                            ghost before: seq<char>, ghost done: seq<Item>, printed: nat, item: Item,
                            fullAt: nat, at: nat, count: nat, word: bv64)
      returns (fullLen: nat, len: nat, plain: nat, flags: bv64)
      requires (full != null ==> fullSize <= full.Length && full != buffer)
        && (buffer != null ==> size <= buffer.Length)
      requires printed == |done|
        && Printed(full, fullSize, buffer, size, fullBefore, before, done, fullAt, at, count, word)
      modifies Both(full, buffer)
      ensures Printed(full, fullSize, buffer, size, fullBefore, before, done + [item], fullLen, len, plain, flags)
    {
      hide Join, FlagWord, SetFlag, Plain, Texts;
      OneMoreOption(done, item);
      len, plain, flags := at, count, word;
      fullLen := PutPart(full, fullSize, fullAt, fullBefore, Texts(done), printed, item.token, "");
      if item.flag == 0 {
        len := PutPart(buffer, size, at, before, Texts(Plain(done)), count, item.token, "");
        plain := count + 1;
      } else {
        flags := SetFlag(word, item);
      }
    }

    method PutOptions(full: array?<char>, fullSize: nat, buffer: array?<char>, size: nat, ghost fullBefore: seq<char>,
      ghost before: seq<char>)
      returns (fullLen: nat, len: nat, count: nat, flags: bv64)
      requires (full != null ==> fullSize <= full.Length && full != buffer)
        && (buffer != null ==> size <= buffer.Length)
      requires Shows(full, fullSize, fullBefore, Join([])) && Shows(buffer, size, before, Join([]))
      modifies Both(full, buffer)
      ensures Printed(full, fullSize, buffer, size, fullBefore, before, options, fullLen, len, count, flags)
    {
      hide Printed;
      fullLen, len, flags, count := 0, 0, 0, 0;
      NothingPrinted(full, fullSize, buffer, size, fullBefore, before, options);
      var i: nat := 0;
      while i < |options|
        invariant i <= |options| && Printed(full, fullSize, buffer, size, fullBefore, before, options[..i], fullLen,
          len, count, flags)
      {
        assert options[..i + 1] == options[..i] + [options[i]];
        fullLen, len, count, flags :=
          PutOption(full, fullSize, buffer, size, fullBefore, before, options[..i], i, options[i], fullLen, len,
            count, flags);
        i := i + 1;
      }
      assert options[..i] == options;
    }

    /** fsopts_generate_string: all options in one buffer, those that are no kernel flags in the other, the user
        and the group at the end of both, and the kernel flags as a word. The lengths do not depend on the buffers. */
    method Generate(full: array?<char>, fullSize: nat, buffer: array?<char>, size: nat)
      returns (fullLen: nat, len: nat, flags: bv64)
      requires (full != null ==> fullSize <= full.Length && full != buffer)
        && (buffer != null ==> size <= buffer.Length)
      modifies Both(full, buffer)
      ensures fullLen == |Join(FullParts(options, uid, gid))| && len == |Join(KernelParts(options, uid, gid))|
      ensures full != null ==> Shows(full, fullSize, old(full[..]), Join(FullParts(options, uid, gid)))
      ensures buffer != null ==> Shows(buffer, size, old(buffer[..]), Join(KernelParts(options, uid, gid)))
      ensures flags == FlagWord(0, options)
    {
      hide Join, Shows, FlagWord, Plain;
      ghost var fullBefore, before := if full == null then [] else full[..], if buffer == null then [] else buffer[..];
      ShowsNothing(full, fullSize);
      ShowsNothing(buffer, size);
      var count;
      fullLen, len, count, flags := PutOptions(full, fullSize, buffer, size, fullBefore, before);
      ghost var fullParts, parts := Texts(options), Texts(Plain(options));
      fullLen := PutIdentity(full, fullSize, fullLen, fullBefore, fullParts, |options|, uid);
      len := PutIdentity(buffer, size, len, before, parts, count, uid);
      var more := if uid.Some? then 1 else 0;
      fullLen := PutIdentity(full, fullSize, fullLen, fullBefore, fullParts + IdentityParts(uid), |options| + more,
        gid);
      len := PutIdentity(buffer, size, len, before, parts + IdentityParts(uid), count + more, gid);
    }

    /** Moves the item to the end, one position at a time, or makes room for a new one; then fills it. */
    method Place(i: nat, item: Item)
      requires i <= |options|
      modifies this`options
      ensures options == if i < |old(options)| then old(options)[..i] + old(options)[i + 1..] + [item]
        else old(options) + [item]
    {
      ghost var was := options;
      if i < |options| {
        var k := i;
        while k < |options| - 1
          invariant i <= k < |options| == |was|
          invariant options[..k] == was[..i] + was[i + 1..k + 1] && options[k + 1..] == was[k + 1..]
        {
          assert was[i + 1..k + 2] == was[i + 1..k + 1] + [was[k + 1]];
          assert options[k + 1] == options[k + 1..][0];
          options := options[k := options[k + 1]];
          k := k + 1;
        }
        options := options[k := item];
        assert options == options[..k] + [item];
        assert was[i + 1..k + 1] == was[i + 1..];
      } else {
        options := options + [item];
      }
    }
  }

  // ----- parsing -----

  /** The position after the comma, if there is one. */
  function After(text: string, pos: nat): Option<nat>
    requires pos <= |text|
  {
    var end := pos + Comma(text[pos..]);
    if end < |text| then Some(end + 1) else None
  }

  function Chosen(a: Option<string>, otherwise: string): string { if a.Some? then a.value else otherwise }

  // ----- printing -----

  function Both(a: array?<char>, b: array?<char>): set<array<char>> {
    (if a == null then {} else {a}) + if b == null then {} else {b}
  }

  /** As much of the text as fits stands at the front of the buffer, and the rest of it is as before. */
  ghost predicate Shows(buffer: array?<char>, size: nat, before: seq<char>, text: string)
    reads Both(buffer, null)
  {
    buffer != null ==>
      |before| == buffer.Length
      && forall i :: 0 <= i < buffer.Length ==> buffer[i] == if i < size && i < |text| then text[i] else before[i]
  }

  /** The options that are no kernel flags. */
  function Plain(l: seq<Item>): seq<Item> {
    if l == [] then [] else Plain(l[..|l| - 1]) + if l[|l| - 1].flag == 0 then [l[|l| - 1]] else []
  }

  function IdentityParts(id: Option<Identity>): seq<string> { if id.None? then []
    else [id.value.name + id.value.value] }

  function FullParts(l: seq<Item>, uid: Option<Identity>, gid: Option<Identity>): seq<string> {
    Texts(l) + IdentityParts(uid) + IdentityParts(gid)
  }

  function KernelParts(l: seq<Item>, uid: Option<Identity>, gid: Option<Identity>): seq<string> {
    Texts(Plain(l)) + IdentityParts(uid) + IdentityParts(gid)
  }

  lemma JoinNothing()
    ensures Join([]) == ""
  {}

  lemma ShowsNothing(buffer: array?<char>, size: nat)
    ensures Shows(buffer, size, if buffer == null then [] else buffer[..], Join([]))
  {}

  /** Both texts, their lengths and the flag word, for the options that are done. */
  ghost predicate Printed(full: array?<char>, fullSize: nat, buffer: array?<char>, size: nat, fullBefore: seq<char>,
                          before: seq<char>, done: seq<Item>, fullLen: nat, len: nat, count: nat, flags: bv64)
    reads Both(full, buffer)
  {
    fullLen == |Join(Texts(done))| && Shows(full, fullSize, fullBefore, Join(Texts(done)))
    && len == |Join(Texts(Plain(done)))| && Shows(buffer, size, before, Join(Texts(Plain(done))))
    && count == |Plain(done)| && flags == FlagWord(0, done)
  }

  lemma NothingPrinted(full: array?<char>, fullSize: nat, buffer: array?<char>, size: nat, fullBefore: seq<char>,
                       before: seq<char>, l: seq<Item>)
    requires Shows(full, fullSize, fullBefore, Join([])) && Shows(buffer, size, before, Join([]))
    ensures Printed(full, fullSize, buffer, size, fullBefore, before, l[..0], 0, 0, 0, 0)
  {
    assert l[..0] == [];
  }

  lemma {:induction false} FlagWordMore(w: bv64, l: seq<Item>, i: Item)
    ensures FlagWord(w, l + [i]) == SetFlag(FlagWord(w, l), i)
    decreases |l|
  {
    hide SetFlag;
    if l == [] {
      assert [] + [i] == [i] && [i][1..] == [];
    } else {
      assert (l + [i])[0] == l[0] && (l + [i])[1..] == l[1..] + [i];
      FlagWordMore(SetFlag(w, l[0]), l[1..], i);
    }
  }

  lemma {:induction false} TextsMore(l: seq<Item>, i: Item)
    ensures Texts(l + [i]) == Texts(l) + [i.token]
  {
    if l == [] {
      assert [] + [i] == [i] && [i][1..] == [];
    } else {
      assert (l + [i])[0] == l[0] && (l + [i])[1..] == l[1..] + [i];
      TextsMore(l[1..], i);
    }
  }

  lemma OneMoreOption(l: seq<Item>, i: Item)
    ensures Texts(l + [i]) == Texts(l) + [i.token + ""]
    ensures i.flag == 0 ==>
      Plain(l + [i]) == Plain(l) + [i] && Texts(Plain(l + [i])) == Texts(Plain(l)) + [i.token + ""]
      && FlagWord(0, l + [i]) == FlagWord(0, l)
    ensures i.flag != 0 ==> Plain(l + [i]) == Plain(l) && FlagWord(0, l + [i]) == SetFlag(FlagWord(0, l), i)
  {
    assert (l + [i])[..|l|] == l && i.token + "" == i.token;
    TextsMore(l, i);
    TextsMore(Plain(l), i);
    FlagWordMore(0, l, i);
  }

  /** An identity that is not given, or that the file system has no option for, leaves the old one. */
  function Given(was: Option<Identity>, name: Option<string>, id: Option<nat>): Option<Identity> {
    if id.Some? && name.Some? then Some(Identity(name.value, Decimal(id.value))) else was
  }

  lemma ParseNothing(l: seq<Item>, lists: seq<Options>)
    ensures Parse(l, [], lists, FLAGS) == (l, Success)
  {}

  lemma ParseStep(l: seq<Item>, s: string, pos: nat, lists: seq<Options>)
    requires pos <= |s|
    ensures var t := s[pos..][..Comma(s[pos..])];
      Parse(l, Split(s[pos..]), lists, FLAGS) ==
        if !Allowed(t, lists) then (l, Fail)
        else Parse(Push(l, ItemFor(t, lists, FLAGS)),
                   if After(s, pos).None? then [] else Split(s[After(s, pos).value..]), lists, FLAGS)
  {
    hide Allowed, ItemFor, Push, Parse, Split, Comma;
    var tail := s[pos..];
    var i := Comma(tail);
    SplitParts(tail);
    if i == |tail| {
      assert tail[..i] == tail && [tail] + [] == [tail];
      ParseHead(l, tail, [], lists);
    } else {
      assert tail[i + 1..] == s[pos + i + 1..];
      ParseHead(l, tail[..i], Split(tail[i + 1..]), lists);
    }
  }

  lemma SplitParts(s: string)
    ensures Split(s) == if Comma(s) == |s| then [s] else [s[..Comma(s)]] + Split(s[Comma(s) + 1..])
  {
    hide Comma;
  }

  lemma ParseHead(l: seq<Item>, t: string, ts: seq<string>, lists: seq<Options>)
    ensures Parse(l, [t] + ts, lists, FLAGS) ==
      if !Allowed(t, lists) then (l, Fail) else Parse(Push(l, ItemFor(t, lists, FLAGS)), ts, lists, FLAGS)
  {
    assert ([t] + ts)[1..] == ts;
  }

  predicate Overrides(tail: string, flag: Option<FlagValue>, i: Item) {
    match flag
    case None => Start(i.token, i.keyLen) <= tail
    case Some(f) => f.flag == i.flag
  }

  // ----- the comparison with the rest of the text means equal keys -----

  lemma {:induction false} FlagNames(t: string, flags: Flags)
    requires SoundFlags(flags) && FindFlag(t, flags).Some?
    ensures FindFlag(t, flags).value.flag != 0 && '=' !in t
  {
    if t != flags.name { FlagNames(t, flags.rest); }
  }

  lemma {:induction false} ParamNames(e: Entry, lists: seq<Options>)
    requires e in AllEntries(lists) && e.param && forall i :: 0 <= i < |lists| ==> MarksParams(lists[i])
    ensures '=' in e.name
  {
    if e in Entries(lists[0]) { ParamName(e, lists[0]); } else { ParamNames(e, lists[1..]); }
  }

  lemma {:induction false} ParamName(e: Entry, o: Options)
    requires e in Entries(o) && e.param && MarksParams(o)
    ensures '=' in e.name
  {
    if e != o.entry { ParamName(e, o.rest); }
  }

  lemma PrefixesCompare(a: string, b: string, t: string)
    requires a <= t && b <= t
    ensures a <= b || b <= a
  {
    if |a| <= |b| { assert a == t[..|a|] == b[..|a|]; } else { assert b == t[..|b|] == a[..|b|]; }
  }

  /** Two names of the table that both begin one text are the same. */
  lemma SameEntry(a: Entry, b: Entry, t: string, lists: seq<Options>)
    requires PrefixFree(AllEntries(lists)) && a in AllEntries(lists) && b in AllEntries(lists)
    requires a.name <= t && b.name <= t
    ensures a == b
  {
    PrefixesCompare(a.name, b.name, t);
    if a != b { DifferMeans(a.name, b.name, 0); }
  }

  /** A text without a comma that begins the rest of the options begins the next option. */
  lemma BeginsOption(k: string, t: string, rest: string)
    requires ',' !in k && (rest == "" || rest[0] == ',')
    ensures k <= t + rest <==> k <= t
  {
    assert rest != "" ==> (t + rest)[|t|] == ',';
    if k <= t + rest {
      assert forall j :: 0 <= j < |k| ==> (t + rest)[j] == k[j] && k[j] in k;
      assert k == (t + rest)[..|k|] == t[..|k|];
    }
    if k <= t { assert k == t[..|k|] == (t + rest)[..|k|]; }
  }

  lemma FitsBegins(t: string, lists: seq<Options>)
    requires Allowed(t, lists)
    ensures FindOption(t, lists).Some? && var e := FindOption(t, lists).value;
      e in AllEntries(lists) && e.name <= t && (!e.param ==> t == e.name)
  {}

  lemma OverridesIsKey(t: string, rest: string, i: Item, lists: seq<Options>)
    requires Sound(lists, FLAGS) && Allowed(t, lists) && (rest == "" || rest[0] == ',')
    requires Allowed(i.token, lists) && i == ItemFor(i.token, lists, FLAGS) && ',' !in i.token
    ensures Overrides(t + rest, FindFlag(t, FLAGS), i) <==> KeyOf(i) == KeyOf(ItemFor(t, lists, FLAGS))
  {
    hide Allowed, FindFlag, PrefixFree, SoundFlags, MarksParams, AllEntries;
    FitsBegins(t, lists);
    FitsBegins(i.token, lists);
    if FindFlag(t, FLAGS).Some? { FlagNames(t, FLAGS); }
    if FindFlag(i.token, FLAGS).Some? { FlagNames(i.token, FLAGS); }
    var e, e', k := FindOption(t, lists).value, FindOption(i.token, lists).value, Start(i.token, i.keyLen);
    if FindFlag(t, FLAGS).None? {
      BeginsOption(k, t, rest);
      if FindFlag(i.token, FLAGS).None? {
        assert k == e'.name;
        if k <= t { SameEntry(e, e', t, lists); }
      } else if k <= t {
        assert k == i.token;
        assert e'.name <= t by { assert e'.name == i.token[..|e'.name|] == t[..|e'.name|]; }
        SameEntry(e, e', t, lists);
        if e'.param { ParamNames(e', lists); }
      }
    }
  }

  /** With distinct keys, taking out the one item of a key is what Without does. */
  lemma {:induction false} WithoutOne(l: seq<Item>, i: nat)
    requires KeysDistinct(l) && i < |l|
    ensures Without(l, KeyOf(l[i])) == l[..i] + l[i + 1..]
  {
    hide KeyOf;
    var k, rest := KeyOf(l[i]), l[1..];
    if i == 0 {
      WithoutAbsent(rest, k);
    } else {
      assert rest[i - 1] == l[i] && rest[..i - 1] == l[1..i] && rest[i..] == l[i + 1..];
      WithoutOne(rest, i - 1);
      assert KeyOf(l[0]) != k;
      assert Without(l, k) == [l[0]] + Without(rest, k);
      assert [l[0]] + l[1..i] == l[..i];
      assert [l[0]] + (l[1..i] + l[i + 1..]) == l[..i] + l[i + 1..];
    }
  }

  lemma PlaceIsPush(l: seq<Item>, i: nat, t: string, rest: string, lists: seq<Options>)
    requires Sound(lists, FLAGS) && Allowed(t, lists) && (rest == "" || rest[0] == ',') && KeysDistinct(l)
    requires forall k :: 0 <= k < |l| ==>
      Allowed(l[k].token, lists) && l[k] == ItemFor(l[k].token, lists, FLAGS) && ',' !in l[k].token
    requires i <= |l| && (forall k :: 0 <= k < i ==> !Overrides(t + rest, FindFlag(t, FLAGS), l[k]))
    requires i < |l| ==> Overrides(t + rest, FindFlag(t, FLAGS), l[i])
    ensures var item := ItemFor(t, lists, FLAGS);
      Push(l, item) == if i < |l| then l[..i] + l[i + 1..] + [item] else l + [item]
  {
    hide Sound, Allowed, ItemFor, KeyOf, Overrides, FindFlag, Without;
    var item := ItemFor(t, lists, FLAGS);
    forall k | 0 <= k < |l| ensures Overrides(t + rest, FindFlag(t, FLAGS), l[k]) <==> KeyOf(l[k]) == KeyOf(item) {
      OverridesIsKey(t, rest, l[k], lists);
    }
    if i < |l| { WithoutOne(l, i); } else { WithoutAbsent(l, KeyOf(item)); }
  }
}
