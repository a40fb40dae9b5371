/** Volume labels: the decoder, the comparison that never builds the decoded text, and what they agree on.

    A label is a string of bytes other than NUL; the methods take it with its terminator, so that every
    index they use is checked to lie inside the C string. Character classes are those of the "C" locale. */
module Labels {
  import opened Basics

  predicate IsCntrl(k: int) { 0 <= k < 32 || k == 127 }

  predicate IsPunct(k: int) { 33 <= k <= 47 || 58 <= k <= 64 || 91 <= k <= 96 || 123 <= k <= 126 }

  /** Bytes that stand for themselves in a decoded label. */
  predicate Kept(k: int) { (!IsCntrl(k) && !IsPunct(k)) || (k != 0 && k == ' ' as int) }

  function Digit(k: nat): char
    requires k < 8
  {
    ('0' as int + k) as char
  }

  predicate IsOctal(c: char) { '0' <= c <= '7' }

  predicate IsHex(c: char) { '0' <= c <= '9' || 'a' <= c <= 'f' || 'A' <= c <= 'F' }

  function OctalValue(c: char): nat
    requires IsOctal(c)
  {
    c as int - '0' as int
  }

  function HexValue(c: char): nat
    requires IsHex(c)
  {
    if '0' <= c <= '9' then c as int - '0' as int
    else if 'a' <= c <= 'f' then c as int - 'a' as int + 10
    else c as int - 'A' as int + 10
  }

  /** A backslash and three octal digits. */
  function Octal(k: nat): string { ['\\', Digit(k / 64 % 8), Digit(k / 8 % 8), Digit(k % 8)] }

  /** How one byte value is written in a decoded label; storing it in a `char` truncates it. */
  function Written(k: nat): string { if Kept(k) then [(k % 256) as char] else Octal(k) }

  /** The value of the escapes that name a character, if the letter is one of them. */
  function NamedEscape(c: char): Option<nat> {
    match c
    case 'a' => Some(7)
    case 'b' => Some(8)
    case 'f' => Some(12)
    case 'n' => Some(10)
    case 'r' => Some(13)
    case 't' => Some(9)
    case '\\' => Some(92)
    case '\'' => Some(39)
    case '\"' => Some(34)
    case _ => None
  }

  predicate UnknownEscape(c: char) { NamedEscape(c).None? && c != 'x' && !IsOctal(c) }

  /** One item at the head of an encoded label: the text it decodes to, how many characters it takes, and
      the number it spells if it is a numeric escape. */
  datatype Item = Bad | Item(out: string, used: nat, number: Option<nat>)

  function Head(e: string): (r: Item)
    requires e != []
    ensures r.Item? ==> 0 < r.used <= |e| && 0 < |r.out| <= 4 * r.used
  {
    if e[0] != '\\' then Item(Written(e[0] as int), 1, None)
    else if |e| == 1 then Bad
    else if NamedEscape(e[1]).Some? then Item(Octal(NamedEscape(e[1]).value), 2, None)
    else if e[1] == 'x' then
      if |e| >= 4 && IsHex(e[2]) && IsHex(e[3]) then
        var k := HexValue(e[2]) * 16 + HexValue(e[3]);
        Item(Written(k), 4, Some(k))
      else Bad
    else if IsOctal(e[1]) then
      if |e| >= 4 && IsOctal(e[2]) && IsOctal(e[3]) then
        var k := (OctalValue(e[1]) * 8 + OctalValue(e[2])) * 8 + OctalValue(e[3]);
        Item(Written(k), 4, Some(k))
      else Bad
    else Item(['\\', e[1]], 2, None)
  }

  function Decode(e: string): Option<string> {
    if e == [] then Some([])
    else match Head(e)
      case Bad => None
      case Item(out, used, _) =>
        match Decode(e[used..])
        case None => None
        case Some(rest) => Some(out + rest)
  }

  /** The C string in a buffer: what lies before the first NUL. */
  function CText(buffer: string): string {
    if buffer == [] || buffer[0] == '\0' then [] else [buffer[0]] + CText(buffer[1..])
  }

  /** The label as it is read afterwards. An escape that spells 256 ends it, because its low byte is stored. */
  function Decoded(e: string): Option<string> {
    match Decode(e)
    case None => None
    case Some(buffer) => Some(CText(buffer))
  }

  /** Some numeric escape among the well-formed items at the front spells a number above the limit. */
  predicate EscapeAbove(e: string, limit: nat) {
    e != [] && Head(e).Item? &&
    ((Head(e).number.Some? && Head(e).number.value > limit) || EscapeAbove(e[Head(e).used..], limit))
  }

  /** What the comparison accepts, item by item. An escape above 127 never matches: the number is an `int`,
      the decoded byte a signed `char`. */
  predicate Matches(d: string, e: string)
    decreases |e|
  {
    if e == [] then d == []
    else match Head(e)
      case Bad => false
      case Item(out, used, number) =>
        (number.Some? ==> number.value <= 127) && out <= d && Matches(d[|out|..], e[used..])
  }

  // ----- the comparison against the decoder -----

  /** The comparison succeeds exactly when decoding gives that text and no numeric escape exceeds 127. */
  lemma {:induction false} MatchesIffDecodes(d: string, e: string)
    ensures Matches(d, e) <==> Decode(e) == Some(d) && !EscapeAbove(e, 127)
    decreases |e|
  {
    if e != [] && Head(e).Item? {
      var out, used := Head(e).out, Head(e).used;
      if out <= d {
        MatchesIffDecodes(d[|out|..], e[used..]);
        assert d == out + d[|out|..];
        if Decode(e) == Some(d) {
          assert Decode(e).value[|out|..] == Decode(e[used..]).value;
        }
      }
    }
  }

  predicate IsCString(s: string) { forall i :: 0 <= i < |s| ==> 0 < s[i] as int < 256 }

  lemma DecodeFrom(e: string, i: nat)
    requires i <= |e|
    ensures Decode(e[i..]) ==
      if i == |e| then Some([])
      else var head := Head(e[i..]);
        if head.Item? && Decode(e[i + head.used..]).Some? then Some(head.out + Decode(e[i + head.used..]).value)
          else None
  {
    if i < |e| && Head(e[i..]).Item? { assert e[i..][Head(e[i..]).used..] == e[i + Head(e[i..]).used..]; }
  }

  // ----- the C functions, on terminated strings -----

  /** A C string together with its terminator. */
  predicate Terminated(s: string) {
    |s| > 0 && s[|s| - 1] == '\0' && forall i :: 0 <= i < |s| - 1 ==> 0 < s[i] as int < 256
  }

  function Chars(s: string): string
    requires Terminated(s)
  {
    s[..|s| - 1]
  }

  lemma {:induction false} DecodeFits(e: string)
    requires Decode(e).Some?
    ensures |Decode(e).value| <= 4 * |e|
  {
    if e != [] { DecodeFits(e[Head(e).used..]); }
  }

  /** The value of `count` digits from `at` on, most significant first. */
  function Number(s: string, at: nat, count: nat, base: nat): nat
    requires at + count <= |s| && forall j :: at <= j < at + count ==> IsHex(s[j])
  {
    if count == 0 then 0 else Number(s, at, count - 1, base) * base + HexValue(s[at + count - 1])
  }

  /** The digit loops of both functions: two hexadecimal digits, or three octal ones, from `at` on. The
      first character that is no digit, the terminator at the latest, ends the reading. */
  method ReadNumber(s: string, at: nat, hex: bool) returns (r: Option<nat>)
    requires Terminated(s) && at < |s|
    ensures r == if HasDigits(s, at, hex) then Some(DigitsValue(s, at, hex)) else None
  {
    var count := if hex then 2 else 3;
    var k: nat, i: nat := 0, 0;
    while i < count
      invariant i <= count && at + i < |s|
      invariant forall j :: at <= j < at + i ==> if hex then IsHex(s[j]) else IsOctal(s[j])
      invariant k == Number(s, at, i, if hex then 16 else 8)
    {
      if hex && !IsHex(s[at + i]) { return None; }
      if !hex && !IsOctal(s[at + i]) { return None; }
      k := k * (if hex then 16 else 8) + HexValue(s[at + i]);
      i := i + 1;
    }
    return Some(k);
  }

  /** Whether the digits a numeric escape needs follow it. */
  predicate HasDigits(s: string, at: nat, hex: bool) {
    var count := if hex then 2 else 3;
    at + count < |s| && forall j :: at <= j < at + count ==> if hex then IsHex(s[j]) else IsOctal(s[j])
  }

  function DigitsValue(s: string, at: nat, hex: bool): nat
    requires HasDigits(s, at, hex)
  {
    if hex then Number(s, at, 2, 16) else Number(s, at, 3, 8)
  }

  lemma DigitsMean(s: string, at: nat, hex: bool)
    requires HasDigits(s, at, hex)
    ensures DigitsValue(s, at, hex) ==
      if hex then HexValue(s[at]) * 16 + HexValue(s[at + 1])
      else (HexValue(s[at]) * 8 + HexValue(s[at + 1])) * 8 + HexValue(s[at + 2])
  {
    hide HexValue;
    var base := if hex then 16 else 8;
    assert Number(s, at, 0, base) == 0;
    assert Number(s, at, 1, base) == HexValue(s[at]);
    assert Number(s, at, 2, base) == HexValue(s[at]) * base + HexValue(s[at + 1]);
  }

  lemma NumberHead(s: string, i: nat, hex: bool)
    requires Terminated(s) && i + 1 < |s| && s[i] == '\\' && if hex then s[i + 1] == 'x' else IsOctal(s[i + 1])
    ensures var at := if hex then i + 2 else i + 1;
      Head(Chars(s)[i..]) ==
        if HasDigits(s, at, hex) then var k := DigitsValue(s, at, hex); Item(Written(k), 4, Some(k)) else Bad
  {
    hide Kept, Octal, Written, DigitsValue;
    var at, e := if hex then i + 2 else i + 1, Chars(s)[i..];
    assert forall j :: 0 <= j < |e| ==> e[j] == s[i + j];
    if HasDigits(s, at, hex) { DigitsMean(s, at, hex); }
  }

  method Put(buffer: array<char>, at: nat, text: string)
    requires at + |text| <= buffer.Length
    modifies buffer
    ensures buffer[..at + |text|] == old(buffer[..at]) + text
  {
    forall j | 0 <= j < |text| { buffer[at + j] := text[j]; }
  }

  /** The numeric escape whose backslash is at the input cursor. */
  method DecodeNumber(encoded: string, i: nat, result: array<char>, o: nat) returns (ok: bool, o': nat)
    requires Terminated(encoded) && i + 1 < |Chars(encoded)|
    requires encoded[i] == '\\' && (encoded[i + 1] == 'x' || IsOctal(encoded[i + 1]))
    requires o + 4 * (|Chars(encoded)| - i) <= result.Length
    modifies result
    ensures var head := Head(Chars(encoded)[i..]);
      (ok <==> head.Item?)
      && (ok ==> head.used == 4 && o' == o + |head.out| <= result.Length)
      && (ok ==> result[..o'] == old(result[..o]) + head.out)
  {
    hide Head;
    var hex := encoded[i + 1] == 'x';
    NumberHead(encoded, i, hex);
    var k := ReadNumber(encoded, if hex then i + 2 else i + 1, hex);
    if k.None? { return false, o; }
    if Kept(k.value) {
      Put(result, o, [(k.value % 256) as char]);
      return true, o + 1;
    } else {
      Put(result, o, Octal(k.value));
      return true, o + 4;
    }
  }

  /** One round of the decoder's loop: the item at the input cursor, written at the output cursor. */
  method DecodeItem(encoded: string, i: nat, result: array<char>, o: nat) returns (ok: bool, i': nat, o': nat)
    requires Terminated(encoded) && i < |Chars(encoded)|
    requires o + 4 * (|Chars(encoded)| - i) <= result.Length
    modifies result
    ensures ok <==> Head(Chars(encoded)[i..]).Item?
    ensures ok ==> i' == i + Head(Chars(encoded)[i..]).used && o' == o + |Head(Chars(encoded)[i..]).out|
    ensures ok ==> o' <= result.Length && result[..o'] == old(result[..o]) + Head(Chars(encoded)[i..]).out
  {
    ok, i', o' := true, i, o;
    if encoded[i'] == '\\' {
      i' := i' + 1;
      if encoded[i'] == '\0' { return false, i', o'; }
      if NamedEscape(encoded[i']).Some? {
        Put(result, o', Octal(NamedEscape(encoded[i']).value));
        o' := o' + 3;
      } else if encoded[i'] == 'x' || IsOctal(encoded[i']) {
        ok, o' := DecodeNumber(encoded, i, result, o);
        return ok, i + 4, o';
      } else {
        Put(result, o', ['\\', encoded[i']]);
        o' := o' + 1;
      }
    } else if Kept(encoded[i'] as int) {
      Put(result, o', [encoded[i']]);
    } else {
      Put(result, o', Octal(encoded[i'] as int));
      o' := o' + 3;
    }
    o' := o' + 1;
    i' := i' + 1;
  }

  lemma MatchesFrom(d: string, o: nat, e: string, i: nat)
    requires i < |e| && o <= |d|
    ensures var head := Head(e[i..]);
      Matches(d[o..], e[i..]) <==>
        head.Item? && (head.number.Some? ==> head.number.value <= 127) && head.out <= d[o..]
        && Matches(d[o + |head.out|..], e[i + head.used..])
  {
    var head := Head(e[i..]);
    if head.Item? && head.out <= d[o..] {
      assert e[i..][head.used..] == e[i + head.used..];
      assert d[o..][|head.out|..] == d[o + |head.out|..];
    }
  }

  lemma {:induction false} CTextStops(buffer: string, n: nat)
    requires n < |buffer| && buffer[n] == '\0'
    ensures CText(buffer) == CText(buffer[..n])
  {
    if n > 0 && buffer[0] != '\0' {
      assert buffer[..n][1..] == buffer[1..][..n - 1];
      CTextStops(buffer[1..], n - 1);
    }
  }

  /** decode_label: null for a malformed label, else a terminated string in a buffer of 4 * length + 1. */
  method DecodeLabel(encoded: string) returns (result: array?<char>)
    requires Terminated(encoded)
    ensures result == null <==> Decode(Chars(encoded)).None?
    ensures result != null ==>
      result.Length == 4 * |Chars(encoded)| + 1
      && |Decode(Chars(encoded)).value| < result.Length
      && result[..|Decode(Chars(encoded)).value|] == Decode(Chars(encoded)).value
      && result[|Decode(Chars(encoded)).value|] == '\0'
      && Some(CText(result[..])) == Decoded(Chars(encoded))
  {
    hide Head, Decode;
    ghost var e := Chars(encoded);
    var buffer := new char[4 * (|encoded| - 1) + 1];
    var i: nat, o: nat, ok := 0, 0, true;
    assert e[0..] == e;
    while encoded[i] != '\0'
      invariant 0 <= i <= |e| && 0 <= o <= 4 * i
      invariant Decode(e).Some? == Decode(e[i..]).Some?
      invariant Decode(e).Some? ==> Decode(e).value == buffer[..o] + Decode(e[i..]).value
      decreases |e| - i
    {
      DecodeFrom(e, i);
      ghost var done, head := buffer[..o], Head(e[i..]);
      ok, i, o := DecodeItem(encoded, i, buffer, o);
      if !ok { return null; }
      if Decode(e[i..]).Some? {
        assert (done + head.out) + Decode(e[i..]).value == done + (head.out + Decode(e[i..]).value);
      }
    }
    DecodeFrom(e, i);
    if Decode(e).Some? { DecodeFits(e); }
    buffer[o] := '\0';
    assert buffer[..o] == Decode(e).value;
    CTextStops(buffer[..], o);
    return buffer;
  }

  /** The four-way test for an octal escape at a cursor, each index read only after the one before it matched. */
  predicate OctalAt(d: string, at: nat, k: nat)
    requires Terminated(d) && at < |d|
  {
    d[at] == '\\' && d[at + 1] == Digit(k / 64 % 8) && d[at + 2] == Digit(k / 8 % 8) && d[at + 3] == Digit(k % 8)
  }

  /** A plain `char` read as an `int`. */
  function Signed(c: char): int { if c as int < 128 then c as int else c as int - 256 }

  lemma CharPrefix(d: string, at: nat, c: char)
    requires Terminated(d) && at < |d| && c != '\0'
    ensures [c] <= Chars(d)[at..] <==> d[at] == c
  {}

  lemma EscapePrefix(d: string, at: nat, c: char)
    requires Terminated(d) && at < |d| && c != '\0'
    ensures ['\\', c] <= Chars(d)[at..] <==> d[at] == '\\' && d[at + 1] == c
  {
    if d[at] == '\\' && d[at + 1] == c {
      assert Chars(d)[at..][1] == c;
    }
  }

  lemma OctalPrefix(d: string, at: nat, k: nat)
    requires Terminated(d) && at < |d|
    ensures Octal(k) <= Chars(d)[at..] <==> OctalAt(d, at, k)
  {
    hide Digit;
    var text, rest := Octal(k), Chars(d)[at..];
    NoNul(k);
    if text <= rest {
      assert rest[0] == d[at] == text[0] && rest[1] == d[at + 1] == text[1];
      assert rest[2] == d[at + 2] == text[2] && rest[3] == d[at + 3] == text[3];
    }
    if OctalAt(d, at, k) {
      assert d[at + 3] != '\0' && |rest| >= 4;
      assert rest[..4] == [d[at], d[at + 1], d[at + 2], d[at + 3]] == text;
    }
  }

  lemma OctalLength(k: nat)
    ensures |Octal(k)| == 4
  {}

  lemma NoNul(k: nat)
    ensures Digit(k / 64 % 8) != '\0' && Digit(k / 8 % 8) != '\0' && Digit(k % 8) != '\0'
  {}

  /** The numeric escape whose backslash is at the cursor of the encoded string. */
  method CompareNumber(decoded: string, o: nat, encoded: string, i: nat) returns (ok: bool, o': nat)
    requires Terminated(decoded) && Terminated(encoded) && o < |decoded| && i + 1 < |Chars(encoded)|
    requires encoded[i] == '\\' && (encoded[i + 1] == 'x' || IsOctal(encoded[i + 1]))
    ensures var d, head := Chars(decoded)[o..], Head(Chars(encoded)[i..]);
      (ok <==> head.Item? && (head.number.Some? ==> head.number.value <= 127) && head.out <= d)
      && (ok ==> head.used == 4 && o' == o + |head.out|)
  {
    hide Head, Digit, HasDigits, DigitsValue, OctalAt, Octal, IsOctal;
    var hex := encoded[i + 1] == 'x';
    NumberHead(encoded, i, hex);
    var k := ReadNumber(encoded, if hex then i + 2 else i + 1, hex);
    if k.None? { return false, o; }
    OctalLength(k.value);
    if Kept(k.value) {
      if k.value <= 127 { CharPrefix(decoded, o, k.value as char); }
      return Signed(decoded[o]) == k.value, o + 1;
    } else {
      OctalPrefix(decoded, o, k.value);
      return OctalAt(decoded, o, k.value), o + 4;
    }
  }

  /** One round of the comparison's loop. */
  method CompareItem(decoded: string, o: nat, encoded: string, i: nat) returns (ok: bool, o': nat, i': nat)
    requires Terminated(decoded) && Terminated(encoded) && o < |decoded| && i < |Chars(encoded)|
    ensures var d, head := Chars(decoded)[o..], Head(Chars(encoded)[i..]);
      (ok <==> head.Item? && (head.number.Some? ==> head.number.value <= 127) && head.out <= d)
      && (ok ==> i' == i + head.used && o' == o + |head.out|)
  {
    ok, o', i' := false, o, i;
    if encoded[i'] == '\\' {
      i' := i' + 1;
      if encoded[i'] == '\0' { return; }
      if NamedEscape(encoded[i']).Some? {
        OctalPrefix(decoded, o, NamedEscape(encoded[i']).value);
        if !OctalAt(decoded, o', NamedEscape(encoded[i']).value) { return; }
        o' := o' + 3;
      } else if encoded[i'] == 'x' || IsOctal(encoded[i']) {
        ok, o' := CompareNumber(decoded, o, encoded, i);
        return ok, o', i + 4;
      } else {
        EscapePrefix(decoded, o, encoded[i']);
        if decoded[o'] != '\\' { return; }
        o' := o' + 1;
        if decoded[o'] != encoded[i'] { return; }
      }
    } else {
      if Kept(encoded[i'] as int) {
        CharPrefix(decoded, o, encoded[i']);
        if decoded[o'] != encoded[i'] { return; }
      } else {
        OctalPrefix(decoded, o, encoded[i'] as int);
        if !OctalAt(decoded, o', encoded[i'] as int) { return; }
        o' := o' + 3;
      }
    }
    return true, o' + 1, i' + 1;
  }

  /** compare_labels: both strings are only read, and only up to their terminators. */
  method CompareLabels(decoded: string, encoded: string) returns (same: bool)
    requires Terminated(decoded) && Terminated(encoded)
    ensures same <==> Matches(Chars(decoded), Chars(encoded))
  {
    hide Head;
    ghost var d, e := Chars(decoded), Chars(encoded);
    var i: nat, o: nat, ok := 0, 0, true;
    while encoded[i] != '\0'
      invariant 0 <= i <= |e| && 0 <= o <= |d|
      invariant Matches(d, e) <==> Matches(d[o..], e[i..])
      decreases |e| - i
    {
      MatchesFrom(d, o, e, i);
      ok, o, i := CompareItem(decoded, o, encoded, i);
      if !ok { return false; }
    }
    assert e[i..] == [];
    same := decoded[o] == encoded[i];
  }
}
