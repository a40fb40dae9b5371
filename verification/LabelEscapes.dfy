/** The label decoder against printers that do not use it: each escape sequence, written with digits from a literal, and
    whole labels composed of them. */
module LabelEscapes {
  import opened Basics
  import opened Labels

  const OCTAL_DIGITS := "01234567"
  const HEX_DIGITS := "0123456789abcdef"
  const UPPER_HEX_DIGITS := "0123456789ABCDEF"

  /** Letters, digits and blanks, and all bytes that are not ASCII, stand for themselves. */
  predicate Stands(k: nat) {
    k >= 128
    || '0' as int <= k <= '9' as int || 'A' as int <= k <= 'Z' as int || 'a' as int <= k <= 'z' as int
      || k == ' ' as int
  }

  /** A backslash and three octal digits. */
  function OctalEscape(k: nat): string
    requires k < 512
  {
    ['\\', OCTAL_DIGITS[k / 64], OCTAL_DIGITS[k / 8 % 8], OCTAL_DIGITS[k % 8]]
  }

  /** A backslash, an x and two hexadecimal digits, each in either case. */
  function HexEscape(k: nat, upperFirst: bool, upperSecond: bool): string
    requires k < 256
  {
    ['\\', 'x', (if upperFirst then UPPER_HEX_DIGITS else HEX_DIGITS)[k / 16],
      (if upperSecond then UPPER_HEX_DIGITS else HEX_DIGITS)[k % 16]]
  }

  /** One byte of a label, spelled out. */
  function Spelled(k: nat): string
    requires k < 256
  {
    if Stands(k) then [k as char] else OctalEscape(k)
  }

  // ----- single items -----

  lemma DigitsInOrder(k: nat)
    requires k < 8
    ensures OCTAL_DIGITS[k] == Digit(k) && IsOctal(OCTAL_DIGITS[k]) && OctalValue(OCTAL_DIGITS[k]) == k
  {}

  lemma HexInOrder(k: nat, upper: bool)
    requires k < 16
    ensures var c := (if upper then UPPER_HEX_DIGITS else HEX_DIGITS)[k]; IsHex(c) && HexValue(c) == k
  {}

  lemma WrittenIsSpelled(k: nat)
    requires k < 256
    ensures Written(k) == Spelled(k)
  {
    hide Digit;
    DigitsInOrder(k / 64);
    DigitsInOrder(k / 8 % 8);
    DigitsInOrder(k % 8);
  }

  /** An item alone. */
  lemma DecodeOne(e: string)
    requires e != [] && Head(e).Item? && Head(e).used == |e|
    ensures Decode(e) == Some(Head(e).out)
  {
    hide Head;
    assert e[|e|..] == [];
    assert Decode([]) == Some([]) && Head(e).out + [] == Head(e).out;
  }

  /** Two hexadecimal digits, in either case, spell the byte they say. */
  lemma HexDecodes(k: nat, upperFirst: bool, upperSecond: bool)
    requires k < 256
    ensures Decode(HexEscape(k, upperFirst, upperSecond)) == Some(Spelled(k))
    ensures Head(HexEscape(k, upperFirst, upperSecond)) == Item(Spelled(k), 4, Some(k))
  {
    hide HexValue, Written, Spelled, IsHex;
    HexInOrder(k / 16, upperFirst);
    HexInOrder(k % 16, upperSecond);
    WrittenIsSpelled(k);
    DecodeOne(HexEscape(k, upperFirst, upperSecond));
  }

  lemma OctalHead(k: nat)
    requires k < 512
    ensures Head(OctalEscape(k)) == Item(Written(k), 4, Some(k))
  {
    hide OctalValue, Digit, IsOctal, Written;
    DigitsInOrder(k / 64);
    DigitsInOrder(k / 8 % 8);
    DigitsInOrder(k % 8);
    OctalUnnamed(OctalEscape(k)[1]);
    assert (k / 64 * 8 + k / 8 % 8) * 8 + k % 8 == k;
  }

  /** Three octal digits spell the byte they say, and from 256 on its low byte. */
  lemma OctalDecodes(k: nat)
    requires k < 512
    ensures Decode(OctalEscape(k)) == Some(if k < 256 then Spelled(k) else [(k - 256) as char])
    ensures k < 256 ==> Head(OctalEscape(k)) == Item(Spelled(k), 4, Some(k))
  {
    hide Head, Octal, Spelled, Decode;
    OctalHead(k);
    if k < 256 { WrittenIsSpelled(k); }
    DecodeOne(OctalEscape(k));
  }

  lemma OctalUnnamed(c: char)
    requires IsOctal(c)
    ensures c != 'x' && NamedEscape(c).None?
  {}

  /** A byte outside of escapes. */
  lemma PlainDecodes(k: nat)
    requires 0 < k < 256 && k != '\\' as int
    ensures Decode([k as char]) == Some(Spelled(k))
    ensures Head([k as char]) == Item(Spelled(k), 1, None)
  {
    hide Spelled, Written;
    WrittenIsSpelled(k);
    DecodeOne([k as char]);
  }

  // ----- escapes that name a character -----

  /** The escapes that name a character, each with the octal escape it stands for. */
  const NAMED: seq<(char, string)> := [
    ('a', "\\007"), ('b', "\\010"), ('t', "\\011"), ('n', "\\012"), ('f', "\\014"), ('r', "\\015"),
    ('\"', "\\042"), ('\'', "\\047"), ('\\', "\\134")]

  lemma NamedDecode(c: char, k: nat)
    requires NamedEscape(c) == Some(k) && k < 128 && !Stands(k)
    ensures Decode(['\\', c]) == Some(OctalEscape(k)) == Decode(OctalEscape(k))
  {
    hide Digit, Kept, Octal, OctalEscape;
    OctalDecodes(k);
    WrittenIsSpelled(k);
    OctalWritten(k);
    DecodeOne(['\\', c]);
  }

  lemma OctalWritten(k: nat)
    requires k < 512
    ensures Octal(k) == OctalEscape(k)
  {
    hide Digit;
    DigitsInOrder(k / 64);
    DigitsInOrder(k / 8 % 8);
    DigitsInOrder(k % 8);
  }

  /** A named escape means the same as its octal escape, which decoding leaves as it is. */
  lemma NamedDecodes(i: nat)
    requires i < |NAMED|
    ensures Decode(['\\', NAMED[i].0]) == Some(NAMED[i].1) == Decode(NAMED[i].1)
  {
    hide Decode;
    var c, k := NAMED[i].0, [7, 8, 9, 10, 12, 13, 34, 39, 92][i];
    assert NamedEscape(c) == Some(k);
    assert OctalEscape(k) == NAMED[i].1;
    NamedDecode(c, k);
  }

  /** Any other letter after a backslash is kept with it, but an x or an octal digit needs more digits. */
  lemma OtherDecodes(c: char)
    requires forall i :: 0 <= i < |NAMED| ==> NAMED[i].0 != c
    ensures Decode(['\\', c]) == if c in "x01234567" then None else Some(['\\', c])
  {
    assert NamedEscape(c).None? by {
      assert NAMED[0].0 == 'a' && NAMED[1].0 == 'b' && NAMED[2].0 == 't' && NAMED[3].0 == 'n' && NAMED[4].0 == 'f';
      assert NAMED[5].0 == 'r' && NAMED[6].0 == '\"' && NAMED[7].0 == '\'' && NAMED[8].0 == '\\';
    }
    var e := ['\\', c];
    assert c in "x01234567" <==> c == 'x' || IsOctal(c);
    if Head(e).Item? { DecodeOne(e); }
  }

  // ----- whole labels -----

  lemma HeadExtends(a: string, b: string)
    requires a != [] && Head(a).Item?
    ensures Head(a + b) == Head(a)
  {
    hide Octal, Written, OctalValue, HexValue;
    assert forall j :: 0 <= j < |a| ==> (a + b)[j] == a[j];
  }

  /** Labels are decoded piece by piece. */
  lemma {:induction false} DecodeJoin(a: string, b: string)
    requires Decode(a).Some?
    ensures Decode(a + b) == if Decode(b).None? then None else Some(Decode(a).value + Decode(b).value)
    decreases |a|
  {
    hide Head, Decode;
    assert a[0..] == a && (a + b)[0..] == a + b;
    DecodeFrom(a, 0);
    if a == [] {
      assert a + b == b;
      if Decode(b).Some? { assert [] + Decode(b).value == Decode(b).value; }
    } else {
      DecodeFrom(a + b, 0);
      HeadExtends(a, b);
      var out, used := Head(a).out, Head(a).used;
      assert (a + b)[used..] == a[used..] + b;
      DecodeJoin(a[used..], b);
      if Decode(b).Some? {
        assert out + (Decode(a[used..]).value + Decode(b).value) == (out + Decode(a[used..]).value) + Decode(b).value;
      }
    }
  }

  /** How a byte of a label may be written by its source. */
  datatype Style = AsIs | InHex(upperFirst: bool, upperSecond: bool) | InOctal

  /** A NUL has no place in a label, and a backslash on its own is no byte. */
  predicate Writable(k: nat, style: Style) { 0 < k < 256 && (style.AsIs? ==> k != '\\' as int) }

  function Encoded(k: nat, style: Style): string
    requires Writable(k, style)
  {
    match style
    case AsIs => [k as char]
    case InHex(first, second) => HexEscape(k, first, second)
    case InOctal => OctalEscape(k)
  }

  function EncodedAll(bytes: seq<nat>, styles: seq<Style>): string
    requires |bytes| == |styles| && forall i :: 0 <= i < |bytes| ==> Writable(bytes[i], styles[i])
  {
    if bytes == [] then [] else Encoded(bytes[0], styles[0]) + EncodedAll(bytes[1..], styles[1..])
  }

  function SpelledAll(bytes: seq<nat>): string
    requires forall i :: 0 <= i < |bytes| ==> bytes[i] < 256
  {
    if bytes == [] then [] else Spelled(bytes[0]) + SpelledAll(bytes[1..])
  }

  lemma EncodedDecodes(k: nat, style: Style)
    requires Writable(k, style)
    ensures Decode(Encoded(k, style)) == Some(Spelled(k))
    ensures Encoded(k, style) != []
    ensures Head(Encoded(k, style)) == Item(Spelled(k), |Encoded(k, style)|, if style.AsIs? then None else Some(k))
  {
    hide Head, Decode, Spelled;
    match style
    case AsIs => PlainDecodes(k);
    case InHex(first, second) => HexDecodes(k, first, second);
    case InOctal => OctalDecodes(k);
  }

  /** However the bytes of a label are written, each as itself, in hexadecimal or in octal, decoding gives their
      spelling: it depends on the bytes alone. */
  lemma {:induction false} LabelDecodes(bytes: seq<nat>, styles: seq<Style>)
    requires |bytes| == |styles| && forall i :: 0 <= i < |bytes| ==> Writable(bytes[i], styles[i])
    ensures Decode(EncodedAll(bytes, styles)) == Some(SpelledAll(bytes))
  {
    if bytes != [] {
      hide Decode, Encoded, Spelled;
      EncodedDecodes(bytes[0], styles[0]);
      LabelDecodes(bytes[1..], styles[1..]);
      DecodeJoin(Encoded(bytes[0], styles[0]), EncodedAll(bytes[1..], styles[1..]));
    } else {
      assert Decode([]) == Some([]);
    }
  }

  /** Some byte that is not ASCII is written as a number. */
  predicate WideNumber(bytes: seq<nat>, styles: seq<Style>)
    requires |bytes| == |styles|
  {
    exists i :: 0 <= i < |bytes| && bytes[i] > 127 && !styles[i].AsIs?
  }

  lemma {:induction false} WideIffAbove(bytes: seq<nat>, styles: seq<Style>)
    requires |bytes| == |styles| && forall i :: 0 <= i < |bytes| ==> Writable(bytes[i], styles[i])
    ensures EscapeAbove(EncodedAll(bytes, styles), 127) <==> WideNumber(bytes, styles)
  {
    if bytes != [] {
      hide Head, Encoded;
      var first, rest := Encoded(bytes[0], styles[0]), EncodedAll(bytes[1..], styles[1..]);
      EncodedDecodes(bytes[0], styles[0]);
      HeadExtends(first, rest);
      assert (first + rest)[|first|..] == rest;
      WideIffAbove(bytes[1..], styles[1..]);
      WideTail(bytes, styles);
    }
  }

  lemma WideTail(bytes: seq<nat>, styles: seq<Style>)
    requires |bytes| == |styles| && bytes != []
    ensures WideNumber(bytes, styles) <==>
      (bytes[0] > 127 && !styles[0].AsIs?) || WideNumber(bytes[1..], styles[1..])
  {
    if WideNumber(bytes[1..], styles[1..]) {
      var i :| 0 <= i < |bytes| - 1 && bytes[1..][i] > 127 && !styles[1..][i].AsIs?;
      assert bytes[i + 1] > 127 && !styles[i + 1].AsIs?;
    }
    if WideNumber(bytes, styles) && !(bytes[0] > 127 && !styles[0].AsIs?) {
      var i :| 0 <= i < |bytes| && bytes[i] > 127 && !styles[i].AsIs?;
      assert bytes[1..][i - 1] > 127 && !styles[1..][i - 1].AsIs?;
    }
  }

  /** The comparison of a stored label with a reported one compares their bytes, except that it never recognises a
      byte that is not ASCII and written as a number. */
  lemma SameLabelIff(stored: seq<nat>, bytes: seq<nat>, styles: seq<Style>)
    requires forall i :: 0 <= i < |stored| ==> stored[i] < 256
    requires |bytes| == |styles| && forall i :: 0 <= i < |bytes| ==> Writable(bytes[i], styles[i])
    ensures Matches(SpelledAll(stored), EncodedAll(bytes, styles)) <==> stored == bytes && !WideNumber(bytes, styles)
  {
    hide Matches, EncodedAll, SpelledAll, WideNumber, EscapeAbove;
    MatchesIffDecodes(SpelledAll(stored), EncodedAll(bytes, styles));
    LabelDecodes(bytes, styles);
    WideIffAbove(bytes, styles);
    if SpelledAll(stored) == SpelledAll(bytes) { SpellingTells(stored, bytes); }
  }

  /** Different bytes have different spellings. */
  lemma {:induction false} SpellingTells(a: seq<nat>, b: seq<nat>)
    requires forall i :: 0 <= i < |a| ==> a[i] < 256
    requires forall i :: 0 <= i < |b| ==> b[i] < 256
    requires SpelledAll(a) == SpelledAll(b)
    ensures a == b
  {
    if a != [] && b != [] {
      SpellingStarts(a[0], SpelledAll(a[1..]), b[0], SpelledAll(b[1..]));
      SpellingTells(a[1..], b[1..]);
      assert a == [a[0]] + a[1..] && b == [b[0]] + b[1..];
    }
  }

  lemma SpellingStarts(k: nat, rest: string, l: nat, tail: string)
    requires k < 256 && l < 256 && Spelled(k) + rest == Spelled(l) + tail
    ensures k == l && rest == tail
  {
    hide Stands, OctalEscape;
    var s, t := Spelled(k) + rest, Spelled(l) + tail;
    SpelledShape(k);
    SpelledShape(l);
    assert s[0] == t[0];
    if Stands(k) {
      assert s[1..] == rest && t[1..] == tail;
    } else {
      assert s[..4] == OctalEscape(k) && t[..4] == OctalEscape(l) && s[4..] == rest && t[4..] == tail;
      EscapeTells(k, l);
    }
  }

  /** Only what is written as an escape begins with a backslash. */
  lemma SpelledShape(k: nat)
    requires k < 256
    ensures |Spelled(k)| == if Stands(k) then 1 else 4
    ensures Spelled(k)[0] == '\\' <==> !Stands(k)
  {}

  lemma EscapeTells(k: nat, l: nat)
    requires k < 256 && l < 256 && OctalEscape(k) == OctalEscape(l)
    ensures k == l
  {
    hide OctalEscape;
    EscapeDigits(k);
    EscapeDigits(l);
    SameDigit(k / 64, l / 64);
    SameDigit(k / 8 % 8, l / 8 % 8);
    SameDigit(k % 8, l % 8);
    FromDigits(k);
    FromDigits(l);
  }

  lemma FromDigits(k: nat)
    requires k < 256
    ensures k == 64 * (k / 64) + 8 * (k / 8 % 8) + k % 8
  {}

  lemma EscapeDigits(k: nat)
    requires k < 256
    ensures var e := OctalEscape(k);
      |e| == 4 && e[1] == OCTAL_DIGITS[k / 64] && e[2] == OCTAL_DIGITS[k / 8 % 8] && e[3] == OCTAL_DIGITS[k % 8]
  {}

  lemma SameDigit(k: nat, l: nat)
    requires k < 8 && l < 8
    ensures OCTAL_DIGITS[k] == OCTAL_DIGITS[l] ==> k == l
  {
    DigitsInOrder(k);
    DigitsInOrder(l);
  }
}
