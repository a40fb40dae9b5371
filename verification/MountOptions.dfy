/** Parsing mount options into a list in which a later option replaces an earlier one of the same key, and
    printing the list again. */
module MountOptions {
  import opened OptionTables

  /** One option of the list. For an option that is no flag, `keyLen` is the length of its name in the table. */
  datatype Item = Item(token: string, keyLen: nat, flag: bv64, enabled: bool)

  datatype Outcome = Success | Fail | Bug

  // ----- one option -----

  /** The value of a parameter, or the empty string. */
  function Value(t: string, e: Entry): string
    requires Fits(t, e)
  {
    t[|e.name|..]
  }

  predicate Allowed(t: string, lists: seq<Options>) {
    t != "" && FindOption(t, lists).Some?
      && Passes(FindOption(t, lists).value.check, Value(t, FindOption(t, lists).value))
  }

  predicate AllAllowed(ts: seq<string>, lists: seq<Options>) { forall i :: 0 <= i < |ts| ==> Allowed(ts[i], lists) }

  function ItemFor(t: string, lists: seq<Options>, flags: Flags): (i: Item)
    requires Allowed(t, lists)
    ensures i.token == t && i.keyLen <= |t|
  {
    match FindFlag(t, flags)
    case Some(f) => Item(t, |t|, f.flag, f.enabled)
    case None => Item(t, |FindOption(t, lists).value.name|, 0, false)
  }

  /** Two options override each other if they set the same flag or have the same name. */
  datatype Key = ByFlag(flag: bv64) | ByName(name: string)

  function KeyOf(i: Item): Key { if i.flag != 0 then ByFlag(i.flag) else ByName(Start(i.token, i.keyLen)) }

  function Start(s: string, n: nat): string { if n <= |s| then s[..n] else s }

  // ----- lists -----

  function Without(l: seq<Item>, k: Key): (r: seq<Item>)
    ensures forall i :: i in r ==> i in l && KeyOf(i) != k
  {
    if l == [] then []
    else if KeyOf(l[0]) == k then Without(l[1..], k)
    else [l[0]] + Without(l[1..], k)
  }

  /** The new item goes to the end, and what it overrides goes away. */
  function Push(l: seq<Item>, i: Item): seq<Item> { Without(l, KeyOf(i)) + [i] }

  function Items(ts: seq<string>, lists: seq<Options>, flags: Flags): (r: seq<Item>)
    requires forall i :: 0 <= i < |ts| ==> Allowed(ts[i], lists)
    ensures |r| == |ts| && forall i :: 0 <= i < |ts| ==> r[i] == ItemFor(ts[i], lists, flags)
  {
    if ts == [] then [] else [ItemFor(ts[0], lists, flags)] + Items(ts[1..], lists, flags)
  }

  function PushAll(l: seq<Item>, more: seq<Item>): seq<Item>
    decreases |more|
  {
    if more == [] then l else PushAll(Push(l, more[0]), more[1..])
  }

  /** Parsing stops at the first option that is not allowed, with what it has got so far. */
  function Parse(l: seq<Item>, ts: seq<string>, lists: seq<Options>, flags: Flags): (seq<Item>, Outcome)
    decreases |ts|
  {
    if ts == [] then (l, Success)
    else if !Allowed(ts[0], lists) then (l, Fail)
    else Parse(Push(l, ItemFor(ts[0], lists, flags)), ts[1..], lists, flags)
  }

  lemma {:induction false} ParseIsPushAll(l: seq<Item>, ts: seq<string>, lists: seq<Options>, flags: Flags)
    ensures Parse(l, ts, lists, flags).1.Success? <==> forall i :: 0 <= i < |ts| ==> Allowed(ts[i], lists)
    ensures (forall i :: 0 <= i < |ts| ==> Allowed(ts[i], lists)) ==>
      Parse(l, ts, lists, flags).0 == PushAll(l, Items(ts, lists, flags))
    decreases |ts|
  {
    hide Allowed, ItemFor, Push;
    if ts != [] && Allowed(ts[0], lists) {
      ParseIsPushAll(Push(l, ItemFor(ts[0], lists, flags)), ts[1..], lists, flags);
      if forall i :: 0 <= i < |ts| ==> Allowed(ts[i], lists) {
        assert Items(ts, lists, flags)[1..] == Items(ts[1..], lists, flags);
      }
    }
  }

  // ----- keep-last -----

  predicate HasKey(l: seq<Item>, k: Key) {
    exists i :: 0 <= i < |l| && KeyOf(l[i]) == k
  }

  /** Of the items with one key only the last is kept, where it stands. */
  function KeepLast(l: seq<Item>): (r: seq<Item>)
    ensures forall k :: HasKey(r, k) <==> HasKey(l, k)
  {
    if l == [] then []
    else
      var rest := KeepLast(l[1..]);
      var r := if HasKey(l[1..], KeyOf(l[0])) then rest else [l[0]] + rest;
      KeysOfTail(l);
      KeysOfTail([l[0]] + rest);
      r
  }

  lemma KeysOfTail(l: seq<Item>)
    requires l != []
    ensures forall k :: HasKey(l, k) <==> KeyOf(l[0]) == k || HasKey(l[1..], k)
  {
    forall k ensures HasKey(l, k) <==> KeyOf(l[0]) == k || HasKey(l[1..], k) {
      if HasKey(l[1..], k) {
        var i :| 0 <= i < |l[1..]| && KeyOf(l[1..][i]) == k;
        assert KeyOf(l[i + 1]) == k;
      }
      if HasKey(l, k) && KeyOf(l[0]) != k {
        var i :| 0 <= i < |l| && KeyOf(l[i]) == k;
        assert KeyOf(l[1..][i - 1]) == k;
      }
    }
  }

  /** The items whose key does not occur in another list. */
  function Spared(l: seq<Item>, late: seq<Item>): seq<Item> {
    if l == [] then []
    else if HasKey(late, KeyOf(l[0])) then Spared(l[1..], late)
    else [l[0]] + Spared(l[1..], late)
  }

  predicate KeysDistinct(l: seq<Item>) {
    forall i, j :: 0 <= i < j < |l| ==> KeyOf(l[i]) != KeyOf(l[j])
  }

  lemma {:induction false} SparedMore(l: seq<Item>, i: Item, more: seq<Item>)
    ensures Spared(Without(l, KeyOf(i)), more) == Spared(l, [i] + more)
  {
    if l != [] {
      SparedMore(l[1..], i, more);
      KeysOfTail([i] + more);
      assert ([i] + more)[1..] == more;
      if KeyOf(l[0]) != KeyOf(i) {
        assert ([l[0]] + Without(l[1..], KeyOf(i)))[1..] == Without(l[1..], KeyOf(i));
      }
    }
  }

  lemma {:induction false} SparedAppend(a: seq<Item>, b: seq<Item>, late: seq<Item>)
    ensures Spared(a + b, late) == Spared(a, late) + Spared(b, late)
  {
    if a == [] {
      assert a + b == b;
    } else {
      assert (a + b)[1..] == a[1..] + b;
      SparedAppend(a[1..], b, late);
    }
  }

  /** Pushing a list of options keeps what they do not override, followed by the last option of each key. */
  lemma {:induction false} PushAllKeepsLast(l: seq<Item>, more: seq<Item>)
    ensures PushAll(l, more) == Spared(l, more) + KeepLast(more)
    decreases |more|
  {
    hide HasKey, KeyOf, Without, Spared, PushAll, KeepLast;
    PushAllParts(l, more);
    if more == [] {
      SparedByNone(l);
    } else {
      var i, rest := more[0], more[1..];
      PushAllKeepsLast(Push(l, i), rest);
      SparedAppend(Without(l, KeyOf(i)), [i], rest);
      SparedMore(l, i, rest);
      SparedOne(i, rest);
      assert [i] + rest == more;
    }
  }

  lemma PushAllParts(l: seq<Item>, more: seq<Item>)
    ensures more == [] ==> PushAll(l, more) == l && KeepLast(more) == []
    ensures more != [] ==>
      PushAll(l, more) == PushAll(Push(l, more[0]), more[1..])
      && KeepLast(more) == (if HasKey(more[1..], KeyOf(more[0])) then [] else [more[0]]) + KeepLast(more[1..])
  {
    hide HasKey, KeyOf, Push;
  }

  lemma SparedOne(i: Item, more: seq<Item>)
    ensures Spared([i], more) == if HasKey(more, KeyOf(i)) then [] else [i]
  {
    assert [i][1..] == [];
  }

  lemma {:induction false} SparedByNone(l: seq<Item>)
    ensures Spared(l, []) == l
  {
    if l != [] { SparedByNone(l[1..]); }
  }

  /** Parsing into an empty list keeps the last option of every key, in the order of these last occurrences. */
  lemma ParseKeepsLast(ts: seq<string>, lists: seq<Options>, flags: Flags)
    requires Parse([], ts, lists, flags).1.Success?
    ensures (forall i :: 0 <= i < |ts| ==> Allowed(ts[i], lists))
    ensures Parse([], ts, lists, flags).0 == KeepLast(Items(ts, lists, flags))
  {
    ParseIsPushAll([], ts, lists, flags);
    PushAllKeepsLast([], Items(ts, lists, flags));
  }

  /** The user's options and then the mandatory ones: every mandatory option is in force. */
  lemma MandatoryWins(user: seq<string>, mandatory: seq<string>, lists: seq<Options>, flags: Flags)
    requires forall i :: 0 <= i < |user| ==> Allowed(user[i], lists)
    requires forall i :: 0 <= i < |mandatory| ==> Allowed(mandatory[i], lists)
    ensures var us, ms := Items(user, lists, flags), Items(mandatory, lists, flags);
      var first := Parse([], user, lists, flags);
      first.1.Success? && Parse(first.0, mandatory, lists, flags) == (Spared(KeepLast(us), ms) + KeepLast(ms), Success)
  {
    ParseIsPushAll([], user, lists, flags);
    ParseKeepsLast(user, lists, flags);
    ParseIsPushAll(KeepLast(Items(user, lists, flags)), mandatory, lists, flags);
    PushAllKeepsLast(KeepLast(Items(user, lists, flags)), Items(mandatory, lists, flags));
  }

  // ----- the flag word -----

  function Or(w: bv64, f: bv64): bv64 { w | f }

  function Less(w: bv64, f: bv64): bv64 { w & !f }

  /** The bits of a flag in a word. */
  function Bits(w: bv64, f: bv64): bv64 { w & f }

  function SetFlag(w: bv64, i: Item): bv64 {
    if i.flag == 0 then w else if i.enabled then Or(w, i.flag) else Less(w, i.flag)
  }

  function FlagWord(w: bv64, l: seq<Item>): bv64
    decreases |l|
  {
    if l == [] then w else FlagWord(SetFlag(w, l[0]), l[1..])
  }

  /** The flag is one of the table's, or none. */
  predicate Listed(f: bv64, flags: Flags) { f == 0 || (flags.Flag? && (flags.flag == f || Listed(f, flags.rest))) }

  predicate AllListed(l: seq<Item>, flags: Flags) { forall i :: 0 <= i < |l| ==> Listed(l[i].flag, flags) }

  lemma {:induction false} ListedDisjoint(f: bv64, flags: Flags, g: bv64)
    requires Disjoint(g, flags) && Listed(f, flags)
    ensures f == g || Bits(f, g) == 0
  {
    if f != 0 && flags.flag != f { ListedDisjoint(f, flags.rest, g); }
  }

  lemma BitsSwap(f: bv64, g: bv64)
    ensures Bits(f, g) == Bits(g, f)
  {}

  lemma {:induction false} FlagsDisjoint(f: bv64, g: bv64, flags: Flags)
    requires SoundFlags(flags) && Listed(f, flags) && Listed(g, flags) && f != 0 && g != 0
    ensures f == g || Bits(f, g) == 0
  {
    hide Bits, Disjoint;
    if flags.flag == f {
      if g != f { ListedDisjoint(g, flags.rest, f); }
      BitsSwap(f, g);
    } else if flags.flag == g {
      ListedDisjoint(f, flags.rest, g);
    } else {
      FlagsDisjoint(f, g, flags.rest);
    }
  }

  lemma ZeroBits(f: bv64, g: bv64)
    requires f == 0 || g == 0
    ensures Bits(f, g) == 0
  {}

  lemma OrBits(w: bv64, f: bv64, g: bv64)
    requires Bits(f, g) == 0
    ensures Bits(Or(w, f), g) == Bits(w, g)
  {}

  lemma LessBits(w: bv64, f: bv64, g: bv64)
    requires Bits(f, g) == 0
    ensures Bits(Less(w, f), g) == Bits(w, g)
  {}

  lemma OwnBits(w: bv64, f: bv64)
    ensures Bits(Or(w, f), f) == f && Bits(Less(w, f), f) == 0
  {}

  lemma LessNothing(w: bv64, f: bv64)
    requires Bits(w, f) == 0
    ensures Less(w, f) == w
  {}

  /** What setting or clearing one flag does to another, and to itself. */
  lemma SetFlagBits(w: bv64, i: Item, g: bv64)
    ensures Bits(i.flag, g) == 0 ==> Bits(SetFlag(w, i), g) == Bits(w, g)
    ensures i.flag != 0 && g == i.flag ==> Bits(SetFlag(w, i), g) == if i.enabled then g else 0
    ensures Bits(w, i.flag) == 0 ==> SetFlag(w, i) == Or(w, if i.enabled then i.flag else 0)
  {
    hide Bits, Or, Less;
    if Bits(i.flag, g) == 0 {
      OrBits(w, i.flag, g);
      LessBits(w, i.flag, g);
    }
    OwnBits(w, i.flag);
    if Bits(w, i.flag) == 0 { LessNothing(w, i.flag); }
    OrOrder(w, 0, 0);
  }

  /** Options that do not set a flag leave its bits alone. */
  lemma {:induction false} FlagUntouched(w: bv64, l: seq<Item>, f: bv64, flags: Flags)
    requires SoundFlags(flags) && AllListed(l, flags) && Listed(f, flags) && f != 0 && !HasKey(l, ByFlag(f))
    ensures Bits(FlagWord(w, l), f) == Bits(w, f)
    decreases |l|
  {
    hide Bits, Or, Less, SetFlag, Listed, SoundFlags;
    if l != [] {
      KeysOfTail(l);
      if l[0].flag == 0 { ZeroBits(l[0].flag, f); } else { FlagsDisjoint(l[0].flag, f, flags); }
      SetFlagBits(w, l[0], f);
      FlagUntouched(SetFlag(w, l[0]), l[1..], f, flags);
    }
  }

  /** The last option that sets a flag decides about its bits. */
  lemma {:induction false} LastDecides(w: bv64, l: seq<Item>, f: bv64, k: nat, flags: Flags)
    requires SoundFlags(flags) && AllListed(l, flags) && f != 0
    requires k < |l| && l[k].flag == f && !HasKey(l[k + 1..], ByFlag(f))
    ensures Bits(FlagWord(w, l), f) == if l[k].enabled then f else 0
    decreases |l|
  {
    hide Bits, Or, Less, SetFlag, Listed, SoundFlags, HasKey;
    if k == 0 {
      FlagUntouched(SetFlag(w, l[0]), l[1..], f, flags);
      SetFlagBits(w, l[0], f);
    } else {
      assert l[1..][k - 1 + 1..] == l[k + 1..];
      LastDecides(SetFlag(w, l[0]), l[1..], f, k - 1, flags);
    }
  }

  /** All enabled flags together. */
  function Union(l: seq<Item>): bv64 {
    if l == [] then 0 else Or(if l[0].enabled then l[0].flag else 0, Union(l[1..]))
  }

  /** With one option for each key, the flag word is the union of the enabled flags. */
  lemma {:induction false} FlagWordIsUnion(w: bv64, l: seq<Item>, flags: Flags)
    requires SoundFlags(flags) && AllListed(l, flags) && KeysDistinct(l)
    requires forall i :: 0 <= i < |l| ==> Bits(w, l[i].flag) == 0
    ensures FlagWord(w, l) == Or(w, Union(l))
    decreases |l|
  {
    hide Bits, Or, Less, SetFlag, Listed, SoundFlags;
    OrOrder(w, if l == [] then 0 else if l[0].enabled then l[0].flag else 0, if l == [] then 0 else Union(l[1..]));
    if l != [] {
      var w' := SetFlag(w, l[0]);
      SetFlagBits(w, l[0], 0);
      forall i | 0 <= i < |l[1..]| ensures Bits(w', l[1..][i].flag) == 0 {
        var f := l[i + 1].flag;
        assert KeyOf(l[i + 1]) != KeyOf(l[0]);
        if f == 0 { ZeroBits(w', f); }
        else {
          if l[0].flag == 0 { ZeroBits(l[0].flag, f); } else { FlagsDisjoint(l[0].flag, f, flags); }
          SetFlagBits(w, l[0], f);
        }
      }
      FlagWordIsUnion(w', l[1..], flags);
    }
  }

  lemma OrOrder(a: bv64, b: bv64, c: bv64)
    ensures Or(Or(a, b), c) == Or(a, Or(b, c)) && Or(a, 0) == a && Or(0, a) == a
  {}

  lemma {:induction false} FindFlagListed(t: string, flags: Flags)
    requires FindFlag(t, flags).Some?
    ensures Listed(FindFlag(t, flags).value.flag, flags)
  {
    if t != flags.name { FindFlagListed(t, flags.rest); }
  }

  lemma {:induction false} KeepLastDistinct(l: seq<Item>)
    ensures KeysDistinct(KeepLast(l)) && forall i :: i in KeepLast(l) ==> i in l
  {
    if l != [] {
      KeepLastDistinct(l[1..]);
      var rest := KeepLast(l[1..]);
      if !HasKey(l[1..], KeyOf(l[0])) {
        forall j | 0 <= j < |rest| ensures KeyOf(l[0]) != KeyOf(rest[j]) {
          if KeyOf(l[0]) == KeyOf(rest[j]) { assert HasKey(rest, KeyOf(l[0])); }
        }
      }
    }
  }

  lemma ItemsListed(ts: seq<string>, lists: seq<Options>, flags: Flags)
    requires forall i :: 0 <= i < |ts| ==> Allowed(ts[i], lists)
    ensures AllListed(Items(ts, lists, flags), flags)
  {
    forall i | 0 <= i < |ts| ensures Listed(Items(ts, lists, flags)[i].flag, flags) {
      if FindFlag(ts[i], flags).Some? { FindFlagListed(ts[i], flags); }
    }
  }

  lemma {:induction false} WithoutDistinct(l: seq<Item>, k: Key)
    requires KeysDistinct(l)
    ensures KeysDistinct(Without(l, k)) && forall i :: 0 <= i < |Without(l, k)| ==> KeyOf(Without(l, k)[i]) != k
  {
    hide KeyOf, KeysDistinct;
    if l != [] {
      var first, tail := l[0], l[1..];
      assert l == [first] + tail;
      DistinctFirst(first, tail);
      WithoutDistinct(tail, k);
      var rest := Without(tail, k);
      forall j | 0 <= j < |rest| ensures KeyOf(rest[j]) != KeyOf(first) && KeyOf(rest[j]) != k {
        assert rest[j] in rest && rest[j] in tail;
      }
      DistinctFirst(first, rest);
    } else {
      NoKeys();
    }
  }

  lemma DistinctFirst(i: Item, l: seq<Item>)
    ensures KeysDistinct([i] + l) <==> KeysDistinct(l) && forall j :: j in l ==> KeyOf(j) != KeyOf(i)
  {
    hide KeyOf;
    var all := [i] + l;
    assert forall n :: 0 <= n < |l| ==> all[n + 1] == l[n];
    if KeysDistinct(all) {
      forall j | j in l ensures KeyOf(j) != KeyOf(i) {
        var n :| 0 <= n < |l| && l[n] == j;
        assert KeyOf(all[0]) != KeyOf(all[n + 1]);
      }
      forall a, b | 0 <= a < b < |l|
        ensures KeyOf(l[a]) != KeyOf(l[b]) { assert KeyOf(all[a + 1]) != KeyOf(all[b + 1]); }
    }
  }

  lemma NoKeys()
    ensures KeysDistinct([])
  {}

  lemma PushKeeps(l: seq<Item>, i: Item, flags: Flags)
    requires KeysDistinct(l) && AllListed(l, flags) && Listed(i.flag, flags)
    ensures KeysDistinct(Push(l, i)) && AllListed(Push(l, i), flags)
  {
    WithoutDistinct(l, KeyOf(i));
    var r := Without(l, KeyOf(i));
    forall j | 0 <= j < |r| ensures Listed(r[j].flag, flags) { assert r[j] in r && r[j] in l; }
  }

  lemma {:induction false} ParseKeeps(l: seq<Item>, ts: seq<string>, lists: seq<Options>, flags: Flags)
    requires KeysDistinct(l) && AllListed(l, flags)
    ensures var l' := Parse(l, ts, lists, flags).0; KeysDistinct(l') && AllListed(l', flags)
    decreases |ts|
  {
    hide KeysDistinct, AllListed, Listed, Push, Allowed;
    if ts != [] && Allowed(ts[0], lists) {
      assert Listed(0, flags) by { Unflagged(flags); }
      if FindFlag(ts[0], flags).Some? { FindFlagListed(ts[0], flags); }
      var i := ItemFor(ts[0], lists, flags);
      PushKeeps(l, i, flags);
      ParseKeeps(Push(l, i), ts[1..], lists, flags);
    }
  }

  lemma Unflagged(flags: Flags)
    ensures Listed(0, flags)
  {}

  /** The kernel flags of a list are the union of its enabled flags, whatever was parsed into it. */
  lemma ParsedFlags(l: seq<Item>, ts: seq<string>, lists: seq<Options>, flags: Flags)
    requires SoundFlags(flags) && KeysDistinct(l) && AllListed(l, flags)
    ensures var l' := Parse(l, ts, lists, flags).0;
      FlagWord(0, l') == Union(l') && KeysDistinct(l') && AllListed(l', flags)
  {
    hide SoundFlags, Parse, Union, FlagWord, Listed;
    ParseKeeps(l, ts, lists, flags);
    var l' := Parse(l, ts, lists, flags).0;
    forall i | 0 <= i < |l'| ensures Bits(0, l'[i].flag) == 0 { ZeroBits(0, l'[i].flag); }
    FlagWordIsUnion(0, l', flags);
    OrOrder(Union(l'), 0, 0);
  }

  /** In particular for the list that is mounted: the user's options and then the mandatory ones. */
  lemma MountFlags(user: seq<string>, mandatory: seq<string>, lists: seq<Options>, flags: Flags)
    requires SoundFlags(flags)
    ensures var l := Parse(Parse([], user, lists, flags).0, mandatory, lists, flags).0; FlagWord(0, l) == Union(l)
  {
    hide SoundFlags, Parse, Union, FlagWord;
    ParsedFlags([], user, lists, flags);
    ParsedFlags(Parse([], user, lists, flags).0, mandatory, lists, flags);
  }

  /** Whatever the user asks for, each flag that a mandatory option sets has the value that its last mandatory option
      gives it. */
  lemma MandatoryFlagsWin(user: seq<string>, mandatory: seq<string>, k: nat, lists: seq<Options>, flags: Flags)
    requires SoundFlags(flags)
    requires forall i :: 0 <= i < |user| ==> Allowed(user[i], lists)
    requires forall i :: 0 <= i < |mandatory| ==> Allowed(mandatory[i], lists)
    requires var ms := Items(mandatory, lists, flags);
      k < |ms| && ms[k].flag != 0 && !HasKey(ms[k + 1..], ByFlag(ms[k].flag))
    ensures var i := Items(mandatory, lists, flags)[k];
      Bits(FlagWord(0, Parse(Parse([], user, lists, flags).0, mandatory, lists, flags).0), i.flag) ==
        if i.enabled then i.flag else 0
  {
    hide Bits, SoundFlags, Listed, FlagWord, Parse, KeepLast, Spared, Items, Allowed;
    var us, ms := Items(user, lists, flags), Items(mandatory, lists, flags);
    MandatoryWins(user, mandatory, lists, flags);
    var head, tail := Spared(KeepLast(us), ms), KeepLast(ms);
    ItemsListed(user, lists, flags);
    ItemsListed(mandatory, lists, flags);
    KeepLastDistinct(us);
    KeepLastDistinct(ms);
    SparedInside(KeepLast(us), ms);
    var j := KeptPosition(ms, k);
    var l := head + tail;
    forall i | 0 <= i < |l| ensures Listed(l[i].flag, flags) {
      assert l[i] in l;
      if l[i] in head { assert l[i] in KeepLast(us) && l[i] in us; } else { assert l[i] in tail && l[i] in ms; }
    }
    assert l[|head| + j + 1..] == tail[j + 1..];
    NoneAfter(tail, j);
    LastDecides(0, l, ms[k].flag, |head| + j, flags);
  }

  lemma NoneAfter(l: seq<Item>, j: nat)
    requires KeysDistinct(l) && j < |l|
    ensures !HasKey(l[j + 1..], KeyOf(l[j]))
  {
    var rest := l[j + 1..];
    forall n | 0 <= n < |rest| ensures KeyOf(rest[n]) != KeyOf(l[j]) {
      assert rest[n] == l[j + 1 + n];
    }
  }

  lemma {:induction false} SparedInside(l: seq<Item>, late: seq<Item>)
    ensures forall i :: i in Spared(l, late) ==> i in l
  {
    if l != [] { SparedInside(l[1..], late); }
  }

  /** The last item of a key is kept. */
  lemma {:induction false} KeptPosition(l: seq<Item>, k: nat) returns (j: nat)
    requires k < |l| && !HasKey(l[k + 1..], KeyOf(l[k]))
    ensures j < |KeepLast(l)| && KeepLast(l)[j] == l[k]
  {
    if k == 0 {
      j := 0;
    } else {
      assert l[1..][k - 1 + 1..] == l[k + 1..];
      j := KeptPosition(l[1..], k - 1);
      if !HasKey(l[1..], KeyOf(l[0])) { j := j + 1; }
    }
  }
}
