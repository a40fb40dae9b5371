/** Options as text: comma-separated lists, cut apart and joined again. */
module OptionText {
  import opened OptionTables
  import opened MountOptions

  /** The position of the first comma, or the length. */
  function Comma(s: string): (i: nat)
    ensures i <= |s|
  {
    if s == [] || s[0] == ',' then 0 else 1 + Comma(s[1..])
  }

  /** Everything between commas; a text has one token more than it has commas. */
  function Split(s: string): seq<string>
    decreases |s|
  {
    var i := Comma(s);
    if i == |s| then [s] else [s[..i]] + Split(s[i + 1..])
  }

  /** Only the empty text has no option at all. */
  function Tokens(s: string): seq<string> { if s == "" then [] else Split(s) }

  function Join(ts: seq<string>): string {
    if ts == [] then "" else if |ts| == 1 then ts[0] else ts[0] + "," + Join(ts[1..])
  }

  lemma {:induction false} CommaIsFirst(s: string)
    ensures ',' !in s[..Comma(s)] && (Comma(s) < |s| ==> s[Comma(s)] == ',')
  {
    if s != [] && s[0] != ',' {
      CommaIsFirst(s[1..]);
      assert s[..Comma(s)] == [s[0]] + s[1..][..Comma(s[1..])];
    }
  }

  lemma {:induction false} CommaAt(s: string, i: nat)
    requires i <= |s| && ',' !in s[..i] && (i < |s| ==> s[i] == ',')
    ensures Comma(s) == i
  {
    if i > 0 {
      assert s[..i][0] == s[0];
      assert s[..i] == [s[0]] + s[1..][..i - 1];
      CommaAt(s[1..], i - 1);
    }
  }

  predicate NoCommas(ts: seq<string>) { forall i :: 0 <= i < |ts| ==> ',' !in ts[i] }

  lemma {:induction false} SplitJoin(ts: seq<string>)
    requires ts != [] && NoCommas(ts)
    ensures Split(Join(ts)) == ts
  {
    var t, s := ts[0], Join(ts);
    if |ts| == 1 {
      assert s[..|s|] == s;
      CommaAt(s, |s|);
    } else {
      assert s == t + "," + Join(ts[1..]);
      assert s[..|t|] == t && s[|t|] == ',' && s[|t| + 1..] == Join(ts[1..]);
      CommaAt(s, |t|);
      SplitJoin(ts[1..]);
    }
  }

  lemma TokensJoin(ts: seq<string>)
    requires NoCommas(ts) && forall i :: 0 <= i < |ts| ==> ts[i] != ""
    ensures Tokens(Join(ts)) == ts
  {
    if ts != [] { SplitJoin(ts); }
  }

  lemma {:induction false} SplitHasNoCommas(s: string)
    ensures NoCommas(Split(s))
    decreases |s|
  {
    CommaIsFirst(s);
    assert Comma(s) == |s| ==> s[..|s|] == s;
    if Comma(s) < |s| { SplitHasNoCommas(s[Comma(s) + 1..]); }
  }

  lemma {:induction false} JoinMore(ts: seq<string>, t: string)
    ensures Join(ts + [t]) == if ts == [] then t else Join(ts) + "," + t
  {
    if ts == [] {
      assert [] + [t] == [t];
    } else {
      assert (ts + [t])[0] == ts[0] && (ts + [t])[1..] == ts[1..] + [t];
      JoinMore(ts[1..], t);
    }
  }

  // ----- printing and parsing again -----

  function Texts(l: seq<Item>): (ts: seq<string>)
    ensures |ts| == |l| && forall i :: 0 <= i < |l| ==> ts[i] == l[i].token
  {
    if l == [] then [] else [l[0].token] + Texts(l[1..])
  }

  lemma {:induction false} PushingDistinct(l: seq<Item>, more: seq<Item>)
    requires KeysDistinct(l + more)
    ensures PushAll(l, more) == l + more
    decreases |more|
  {
    if more == [] {
      assert l + more == l;
    } else {
      var i := more[0];
      assert l + more == l + [i] + more[1..];
      assert (l + more)[|l|] == i;
      WithoutAbsent(l, KeyOf(i)) by {
        forall j | 0 <= j < |l| ensures KeyOf(l[j]) != KeyOf(i) {
          assert (l + more)[j] == l[j];
        }
      }
      PushingDistinct(l + [i], more[1..]);
    }
  }

  lemma {:induction false} WithoutAbsent(l: seq<Item>, k: Key)
    requires forall j :: 0 <= j < |l| ==> KeyOf(l[j]) != k
    ensures Without(l, k) == l
  {
    if l != [] { WithoutAbsent(l[1..], k); }
  }

  /** One option per key, and every item is that of its own text. */
  predicate ProperItems(l: seq<Item>, lists: seq<Options>, flags: Flags) {
    KeysDistinct(l)
    && forall i :: 0 <= i < |l| ==>
      Allowed(l[i].token, lists) && l[i] == ItemFor(l[i].token, lists, flags) && ',' !in l[i].token
  }

  lemma PushProper(l: seq<Item>, item: Item, lists: seq<Options>, flags: Flags)
    requires ProperItems(l, lists, flags) && Allowed(item.token, lists) && item == ItemFor(item.token, lists, flags)
    requires ',' !in item.token
    ensures ProperItems(Push(l, item), lists, flags)
  {
    hide Allowed, ItemFor, KeyOf;
    WithoutDistinct(l, KeyOf(item));
    var kept := Without(l, KeyOf(item));
    forall i | 0 <= i < |kept|
      ensures Allowed(kept[i].token, lists) && kept[i] == ItemFor(kept[i].token, lists, flags) && ',' !in kept[i].token
    {
      assert kept[i] in kept && kept[i] in l;
    }
  }

  /** Whatever is parsed into such a list, it stays one, also when the parser stops half-way. */
  lemma {:induction false} ParseProper(l: seq<Item>, ts: seq<string>, lists: seq<Options>, flags: Flags)
    requires ProperItems(l, lists, flags) && NoCommas(ts)
    ensures ProperItems(Parse(l, ts, lists, flags).0, lists, flags)
    decreases |ts|
  {
    hide ProperItems, Allowed, ItemFor, Push;
    if ts != [] && Allowed(ts[0], lists) {
      var item := ItemFor(ts[0], lists, flags);
      PushProper(l, item, lists, flags);
      ParseProper(Push(l, item), ts[1..], lists, flags);
    }
  }

  /** Every such list, printed in full and parsed again, is the same list. */
  lemma PrintParse(l: seq<Item>, lists: seq<Options>, flags: Flags)
    requires ProperItems(l, lists, flags)
    ensures Parse([], Tokens(Join(Texts(l))), lists, flags) == (l, Success)
  {
    hide Parse, ItemFor, Tokens, PushAll, KeysDistinct, Join;
    var ts := Texts(l);
    TokensJoin(ts);
    assert Items(ts, lists, flags) == l;
    ParseIsPushAll([], ts, lists, flags);
    assert [] + l == l;
    PushingDistinct([], l);
  }

  /** In particular the list that is mounted: the user's options and then the mandatory ones, each text as it is. */
  lemma MountPrintParse(user: string, mandatory: string, lists: seq<Options>, flags: Flags)
    ensures var l := Parse(Parse([], Tokens(user), lists, flags).0, Tokens(mandatory), lists, flags).0;
      ProperItems(l, lists, flags) && Parse([], Tokens(Join(Texts(l))), lists, flags) == (l, Success)
  {
    hide Parse, Tokens, ProperItems, Join;
    NothingProper(lists, flags);
    TextHasNoCommas(user);
    TextHasNoCommas(mandatory);
    var first := Parse([], Tokens(user), lists, flags).0;
    ParseProper([], Tokens(user), lists, flags);
    ParseProper(first, Tokens(mandatory), lists, flags);
    PrintParse(Parse(first, Tokens(mandatory), lists, flags).0, lists, flags);
  }

  lemma NothingProper(lists: seq<Options>, flags: Flags)
    ensures ProperItems([], lists, flags)
  {}

  lemma TextHasNoCommas(text: string)
    ensures NoCommas(Tokens(text))
  {
    SplitHasNoCommas(text);
  }
}
