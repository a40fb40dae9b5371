/** What decoded labels look like, and exactly which labels decode to texts that decoding leaves alone. */
module LabelForm {
  import opened Basics
  import opened Labels

  // ----- the normal form -----

  /** Three octal digits of a byte value that does not stand for itself. */
  predicate ByteDigits(a: char, b: char, c: char) {
    IsOctal(a) && IsOctal(b) && IsOctal(c) && OctalValue(a) < 4
    && !Kept((OctalValue(a) * 8 + OctalValue(b)) * 8 + OctalValue(c))
  }

  /** Kept characters, octal escapes of the other byte values, and escapes the decoder does not know. */
  predicate Normal(d: string) {
    d == []
    || (d[0] != '\\' && d[0] as int < 256 && Kept(d[0] as int) && Normal(d[1..]))
    || (|d| >= 2 && d[0] == '\\' && UnknownEscape(d[1]) && Normal(d[2..]))
    || (|d| >= 4 && d[0] == '\\' && ByteDigits(d[1], d[2], d[3]) && Normal(d[4..]))
  }

  lemma ThreeDigits(a: nat, b: nat, c: nat)
    requires a < 8 && b < 8 && c < 8
    ensures var k := (a * 8 + b) * 8 + c; k / 64 % 8 == a && k / 8 % 8 == b && k % 8 == c
  {
    var k := (a * 8 + b) * 8 + c;
    assert k / 8 == a * 8 + b;
    assert k / 64 == k / 8 / 8 == a;
  }

  lemma DigitBack(c: char, d: nat)
    ensures IsOctal(c) ==> OctalValue(c) < 8 && Digit(OctalValue(c)) == c
    ensures d < 8 ==> IsOctal(Digit(d)) && OctalValue(Digit(d)) == d
  {}

  /** Writing a number in three octal digits and reading it back. */
  lemma OctalDigits(k: nat)
    requires k < 512
    ensures |Octal(k)| == 4 && Octal(k)[0] == '\\' && forall j :: 1 <= j < 4 ==> IsOctal(Octal(k)[j])
    ensures (OctalValue(Octal(k)[1]) * 8 + OctalValue(Octal(k)[2])) * 8 + OctalValue(Octal(k)[3]) == k
    ensures k < 256 ==> OctalValue(Octal(k)[1]) < 4
  {
    hide Digit, IsOctal, OctalValue;
    DigitBack('0', k / 64 % 8);
    DigitBack('0', k / 8 % 8);
    DigitBack('0', k % 8);
    assert k / 64 == k / 8 / 8;
  }

  lemma OctalBack(a: char, b: char, c: char)
    requires IsOctal(a) && IsOctal(b) && IsOctal(c)
    ensures Octal((OctalValue(a) * 8 + OctalValue(b)) * 8 + OctalValue(c)) == ['\\', a, b, c]
  {
    hide Digit, IsOctal, OctalValue;
    DigitBack(a, 0);
    DigitBack(b, 0);
    DigitBack(c, 0);
    ThreeDigits(OctalValue(a), OctalValue(b), OctalValue(c));
  }

  // ----- what one item contributes -----

  lemma {:induction false} OctalNormal(k: nat, rest: string)
    requires k < 256 && !Kept(k)
    ensures Normal(Octal(k) + rest) <==> Normal(rest)
  {
    hide Octal, Kept, OctalValue;
    OctalDigits(k);
    var d := Octal(k) + rest;
    assert d[0] == Octal(k)[0] && d[1] == Octal(k)[1] && d[2] == Octal(k)[2] && d[3] == Octal(k)[3];
    assert d[4..] == rest;
  }

  /** A single character in front: kept ones do not matter, a backslash has to be completed, others are not normal. */
  lemma {:induction false} CharNormal(c: char, rest: string)
    requires c as int < 256
    ensures Normal([c] + rest) <==>
      if c == '\\' then
        (rest != [] && UnknownEscape(rest[0]) && Normal(rest[1..]))
        || (|rest| >= 3 && ByteDigits(rest[0], rest[1], rest[2]) && Normal(rest[3..]))
      else Kept(c as int) && Normal(rest)
  {
    hide Kept, UnknownEscape, ByteDigits;
    var d := [c] + rest;
    assert d[1..] == rest;
    if |rest| >= 1 { assert d[1] == rest[0] && d[2..] == rest[1..]; }
    if |rest| >= 3 { assert d[2] == rest[1] && d[3] == rest[2] && d[4..] == rest[3..]; }
  }

  lemma {:induction false} EscapeNormal(c: char, rest: string)
    requires UnknownEscape(c)
    ensures Normal(['\\', c] + rest) <==> Normal(rest)
  {
    hide UnknownEscape;
    var d := ['\\', c] + rest;
    assert d[2..] == rest;
    NotOctal(c);
  }

  lemma NotOctal(c: char)
    requires UnknownEscape(c)
    ensures !IsOctal(c) && c != 'x' && NamedEscape(c).None?
  {}

  /** The number fits a byte, or its low byte stands for itself. */
  predicate Plain(k: nat) { k < 256 || Kept(k % 256) }

  lemma {:induction false} WrittenNormal(k: nat, rest: string)
    requires Plain(k)
    ensures Normal(Written(k) + rest) <==> Normal(rest)
  {
    hide Normal, Octal;
    PlainByte(k);
    if Kept(k) { CharNormal((k % 256) as char, rest); } else { OctalNormal(k, rest); }
  }

  lemma PlainByte(k: nat)
    requires Plain(k)
    ensures Kept(k) ==> Kept(k % 256) && (k % 256) as char != '\\'
    ensures !Kept(k) ==> k < 256
  {}

  /** Each item decodes to its number's, its letter's or its own text. */
  lemma HeadCases(e: string)
    requires e != [] && Head(e).Item?
    ensures (Head(e).number.Some? && Head(e).number.value < 512 && Head(e).out == Written(Head(e).number.value))
         || (Head(e).number.None? && e[0] != '\\' && Head(e).out == Written(e[0] as int))
         || (Head(e).number.None? && |e| > 1 && NamedEscape(e[1]).Some? && NamedEscape(e[1]).value < 256
             && Head(e).out == Octal(NamedEscape(e[1]).value) && !Kept(NamedEscape(e[1]).value))
         || (Head(e).number.None? && |e| > 1 && UnknownEscape(e[1]) && Head(e).out == ['\\', e[1]])
  {
    hide Octal, Written, Kept;
    if |e| > 1 && NamedEscape(e[1]).Some? { NamedNotKept(e[1]); }
    if |e| >= 4 && IsOctal(e[1]) && IsOctal(e[2]) && IsOctal(e[3]) { DigitsBelow(e[1], e[2], e[3]); }
  }

  lemma NamedNotKept(c: char)
    requires NamedEscape(c).Some?
    ensures NamedEscape(c).value < 256 && !Kept(NamedEscape(c).value)
  {}

  lemma DigitsBelow(a: char, b: char, c: char)
    requires IsOctal(a) && IsOctal(b) && IsOctal(c)
    ensures (OctalValue(a) * 8 + OctalValue(b)) * 8 + OctalValue(c) < 512
  {}

  predicate PlainItem(i: Item) { i.Item? && (i.number.Some? ==> Plain(i.number.value)) }

  /** An item that is plain, or that spells no number, leaves what follows as it is. */
  lemma PlainItemNormal(e: string, rest: string)
    requires e != [] && IsCString(e) && PlainItem(Head(e))
    ensures Normal(Head(e).out + rest) <==> Normal(rest)
  {
    hide Normal, Head, Kept, Octal, Written, UnknownEscape;
    HeadCases(e);
    if Head(e).number.Some? {
      WrittenNormal(Head(e).number.value, rest);
    } else if e[0] != '\\' && Head(e).out == Written(e[0] as int) {
      WrittenNormal(e[0] as int, rest);
    } else if |e| > 1 && NamedEscape(e[1]).Some? && Head(e).out == Octal(NamedEscape(e[1]).value) {
      NamedNotKept(e[1]);
      OctalNormal(NamedEscape(e[1]).value, rest);
    } else {
      EscapeNormal(e[1], rest);
    }
  }

  /** Any other item is one character that does not stand for itself. */
  lemma OtherItem(e: string)
    requires e != [] && Head(e).Item? && !PlainItem(Head(e))
    ensures var c := (Head(e).number.value % 256) as char; Head(e).out == [c] && !Kept(c as int)
  {
    hide Head, Octal;
    HeadCases(e);
  }

  // ----- exactly which labels decode to normal texts -----

  function After(e: string): string
    requires e != [] && Head(e).Item?
  {
    e[Head(e).used..]
  }

  /** The character of an item that decodes to just one. */
  function One(e: string): Option<char> {
    if e != [] && Head(e).Item? && |Head(e).out| == 1 then Some(Head(e).out[0]) else None
  }

  /** Numbers that are not plain have to spell a backslash, and the items behind it have to complete an escape that
      the decoder does not know, or the three digits of a byte value that does not stand for itself. */
  predicate Settles(e: string)
    decreases |e|
  {
    e == []
    || (PlainItem(Head(e)) && Settles(After(e)))
    || (Head(e).Item? && !PlainItem(Head(e)) && Head(e).number.value % 256 == '\\' as int && Completes(After(e)) && (
          var second := After(e);
          if UnknownEscape(One(second).value) then Settles(After(second)) else Settles(After(After(After(second))))))
  }

  predicate Completes(e: string) {
    One(e).Some? && (UnknownEscape(One(e).value)
      || (One(After(e)).Some? && One(After(After(e))).Some?
          && ByteDigits(One(e).value, One(After(e)).value, One(After(After(e))).value)))
  }

  /** How a decoded text begins. */
  lemma Opening(e: string)
    requires Decode(e).Some?
    ensures var r := Decode(e).value;
      (One(e).Some? ==> r != [] && r[0] == One(e).value && Decode(After(e)) == Some(r[1..]))
      && (One(e).None? ==> r == [] || r[0] == '\\')
  {
    if e != [] {
      hide Head, Decode;
      assert e[0..] == e;
      DecodeFrom(e, 0);
      LongOutput(e);
    }
  }

  lemma LongOutput(e: string)
    requires e != [] && Head(e).Item?
    ensures |Head(e).out| == 1 || Head(e).out[0] == '\\'
  {
    hide Head, Kept;
    HeadCases(e);
  }

  /** A successful decode gives a normal text exactly if the label settles. */
  lemma {:induction false} NormalIffSettles(e: string)
    requires IsCString(e) && Decode(e).Some?
    ensures Normal(Decode(e).value) <==> Settles(e)
    decreases |e|, 1
  {
    if e != [] {
      hide Head, Normal, Kept, UnknownEscape, ByteDigits, Plain;
      if PlainItem(Head(e)) {
        NormalIffSettles(After(e));
        PlainItemNormal(e, Decode(After(e)).value);
      } else {
        OtherNormalIff(e);
      }
    }
  }

  /** The same for a label whose first number is not plain. */
  lemma {:induction false} OtherNormalIff(e: string)
    requires e != [] && IsCString(e) && Decode(e).Some? && !PlainItem(Head(e))
    ensures Normal(Decode(e).value) <==> Settles(e)
    decreases |e|, 0
  {
    hide Head, Normal, Kept, UnknownEscape, ByteDigits, PlainItem, Completes, One;
    var rest := After(e);
    OtherItem(e);
    CharNormal(Head(e).out[0], Decode(rest).value);
    if Head(e).out[0] == '\\' {
      CompletesIff(rest);
      if Completes(rest) {
        CompletesParts(rest);
        if UnknownEscape(One(rest).value) {
          NormalIffSettles(After(rest));
        } else {
          NormalIffSettles(After(After(After(rest))));
        }
      }
    }
  }

  /** What is left of label and text behind a completed backslash. */
  lemma CompletesParts(e: string)
    requires Decode(e).Some? && Completes(e)
    ensures One(e).Some? && e != [] && Head(e).Item?
    ensures var r := Decode(e).value; r != [] && r[0] == One(e).value && Decode(After(e)) == Some(r[1..])
    ensures !UnknownEscape(One(e).value) ==>
      var r, f := Decode(e).value, After(e);
      f != [] && Head(f).Item? && After(f) != [] && Head(After(f)).Item?
      && |r| >= 3 && Decode(After(After(f))) == Some(r[3..])
  {
    hide Head, Decode, UnknownEscape, ByteDigits;
    Opening(e);
    if !UnknownEscape(One(e).value) {
      Opening(After(e));
      Opening(After(After(e)));
    }
  }

  /** A backslash is completed in the decoded text exactly if the items behind it do so. */
  lemma CompletesIff(e: string)
    requires Decode(e).Some?
    ensures var r := Decode(e).value;
      Completes(e) <==> r != [] && (UnknownEscape(r[0]) || (|r| >= 3 && ByteDigits(r[0], r[1], r[2])))
    ensures Completes(e) && !UnknownEscape(One(e).value) ==> |Decode(e).value| >= 3
    ensures var r := Decode(e).value; r != [] && UnknownEscape(r[0]) ==> |r| < 3 || !ByteDigits(r[0], r[1], r[2])
  {
    hide Head, Decode, OctalValue, Kept;
    var r := Decode(e).value;
    BackslashIsNamed();
    Opening(e);
    if One(e).Some? {
      Opening(After(e));
      if One(After(e)).Some? { Opening(After(After(e))); }
    }
  }

  lemma BackslashIsNamed()
    ensures !UnknownEscape('\\') && !IsOctal('\\')
  {}

  /** Labels whose numbers fit a byte always do. */
  lemma {:induction false} ByteLabelsSettle(e: string)
    requires Decode(e).Some? && !EscapeAbove(e, 255)
    ensures Settles(e)
    decreases |e|
  {
    hide Head;
    if e != [] { ByteLabelsSettle(After(e)); }
  }

  // ----- normal texts are the fixed points -----

  lemma NormalHead(d: string)
    requires Normal(d) && d != []
    ensures Head(d).Item? && Head(d).out == d[..Head(d).used] && Normal(d[Head(d).used..])
  {
    hide Octal, Kept, OctalValue;
    if d[0] == '\\' && IsOctal(d[1]) {
      OctalBack(d[1], d[2], d[3]);
      assert d[..4] == ['\\', d[1], d[2], d[3]];
    } else if d[0] == '\\' {
      assert d[..2] == ['\\', d[1]];
    } else {
      assert d[..1] == [d[0]];
    }
  }

  lemma {:induction false} NormalDecodesToItself(d: string)
    requires Normal(d)
    ensures Decode(d) == Some(d)
  {
    hide Decode, Head, Normal;
    assert d[0..] == d;
    DecodeFrom(d, 0);
    if d != [] {
      NormalHead(d);
      var used := Head(d).used;
      NormalDecodesToItself(d[used..]);
      assert d == d[..used] + d[used..];
    }
  }

  /** An escape that decodes to a single character. */
  predicate ShortEscape(t: string) {
    |t| == 4 && t[0] == '\\'
    && (t[1] == 'x'
        || (IsOctal(t[1]) && IsOctal(t[2]) && IsOctal(t[3]) && !ByteDigits(t[1], t[2], t[3])))
  }

  /** No item but single characters can decode to what begins like this. */
  ghost predicate Thin(w: string) {
    forall j :: 0 <= j < |w| && w[j] == '\\' ==> j + 4 <= |w| && ShortEscape(w[j..j + 4])
  }

  /** An item that decodes to one character has a thin text. */
  lemma OneIsThin(e: string)
    requires e != [] && Head(e).Item? && |Head(e).out| == 1
    ensures Thin(e[..Head(e).used])
  {
    hide OctalValue, HexValue, Kept;
    var t := e[..Head(e).used];
    if e[0] == '\\' {
      assert |t| == 4 && t[0..4] == t && ShortEscape(t);
      assert forall j :: 1 <= j < 4 ==> t[j] != '\\';
    }
  }

  /** An item that decodes to more is an escape the decoder does not know, or three digits of a byte. */
  lemma LongItem(e: string)
    requires e != [] && Head(e).Item? && |Head(e).out| != 1
    ensures var out := Head(e).out;
      (|out| == 2 && out[0] == '\\' && UnknownEscape(out[1]))
      || (|out| == 4 && out[0] == '\\' && ByteDigits(out[1], out[2], out[3]))
  {
    hide Head, Octal, Kept, OctalValue, UnknownEscape;
    HeadCases(e);
    if Head(e).number.Some? {
      DigitsOfByte(Head(e).number.value);
    } else if e[0] != '\\' && Head(e).out == Written(e[0] as int) {
      DigitsOfByte(e[0] as int);
    } else if |e| > 1 && NamedEscape(e[1]).Some? && Head(e).out == Octal(NamedEscape(e[1]).value) {
      NamedNotKept(e[1]);
      DigitsOfByte(NamedEscape(e[1]).value);
    }
  }

  lemma DigitsOfByte(k: nat)
    ensures !Kept(k) ==>
      k < 256 && |Octal(k)| == 4 && Octal(k)[0] == '\\'
      && ByteDigits(Octal(k)[1], Octal(k)[2], Octal(k)[3])
  {
    hide Octal, OctalValue;
    if !Kept(k) { OctalDigits(k); }
  }

  /** Such an item is not what a thin text begins with. */
  lemma ManyNotThin(e: string, w: string, rest: string)
    requires e != [] && Head(e).Item? && |Head(e).out| != 1 && Thin(w) && w != []
    ensures !(Head(e).out <= w + rest)
  {
    hide Head, UnknownEscape, ByteDigits;
    var out, text := Head(e).out, w + rest;
    LongItem(e);
    if out <= text {
      assert forall j :: 0 <= j < |out| ==> out[j] == text[j];
      var t := w[0..4];
      assert ShortEscape(t) && t[1] == text[1] && t[2] == text[2] && t[3] == text[3];
      DigitsAreOctal(out[1]);
    }
  }

  lemma DigitsAreOctal(a: char)
    ensures UnknownEscape(a) ==> a != 'x' && !IsOctal(a)
    ensures forall b, c :: ByteDigits(a, b, c) ==> a != 'x'
  {}

  /** After a number that spells a backslash the output lags behind the input, and never catches up. */
  lemma {:induction false} NeverCatchesUp(w: string, e: string)
    requires Thin(w) && w != []
    ensures Decode(e) != Some(w + e)
    decreases |e|
  {
    hide Thin, Head;
    if e != [] && Head(e).Item? && Decode(e) == Some(w + e) {
      var out, used := Head(e).out, Head(e).used;
      assert e[0..] == e;
      DecodeFrom(e, 0);
      assert out <= w + e;
      if |out| == 1 {
        OneIsThin(e);
        var t := e[..used];
        ThinJoin(w, t);
        assert Decode(e[used..]).value == (w + e)[1..];
        assert (w + e)[1..] == w[1..] + (t + e[used..]) == w[1..] + t + e[used..];
        NeverCatchesUp(w[1..] + t, e[used..]);
      } else {
        ManyNotThin(e, w, e);
      }
    }
  }

  lemma ThinJoin(w: string, t: string)
    requires Thin(w) && Thin(t) && w != []
    ensures Thin(w[1..] + t)
  {
    hide ShortEscape;
    var u := w[1..] + t;
    forall j | 0 <= j < |u| && u[j] == '\\' ensures j + 4 <= |u| && ShortEscape(u[j..j + 4]) {
      if j < |w| - 1 {
        assert u[j..j + 4] == w[j + 1..j + 5];
      } else {
        assert u[j..j + 4] == t[j - (|w| - 1)..j - (|w| - 1) + 4];
      }
    }
  }

  /** The first item of a fixed point either copies itself or is a number that spells a backslash. */
  lemma FixedHead(d: string)
    requires d != [] && Head(d).Item? && Head(d).out <= d
    ensures var out, used := Head(d).out, Head(d).used;
      (out == d[..used] && PlainItem(Head(d)))
      || (out == ['\\'] && used == 4 && Thin(d[1..4]))
  {
    hide OctalValue, HexValue, Kept;
    var out, used := Head(d).out, Head(d).used;
    assert forall j :: 0 <= j < |out| ==> out[j] == d[j];
    if |out| == 1 {
      assert out[0] == d[0];
      if d[0] == '\\' { assert used == 4; } else { assert out == d[..1]; }
    } else {
      LongItem(d);
      LongCopies(d);
    }
  }

  lemma LongCopies(d: string)
    requires |d| >= 2 && d[0] == '\\'
    requires UnknownEscape(d[1]) || (|d| >= 4 && ByteDigits(d[1], d[2], d[3]))
    ensures Head(d).Item? && PlainItem(Head(d)) && Head(d).used == if UnknownEscape(d[1]) then 2 else 4
  {
    hide Kept, HexValue;
  }

  /** Every C string that decoding leaves alone is a normal text. */
  lemma {:induction false} FixedIsNormal(d: string)
    requires IsCString(d) && Decode(d) == Some(d)
    ensures Normal(d)
    decreases |d|
  {
    if d != [] {
      hide Head, Normal, Thin, Plain;
      assert d[0..] == d;
      DecodeFrom(d, 0);
      var out, used := Head(d).out, Head(d).used;
      FixedHead(d);
      if out == d[..used] && PlainItem(Head(d)) {
        FixedIsNormal(d[used..]);
        PlainItemNormal(d, d[used..]);
        assert d == out + d[used..];
      } else {
        assert d[1..] == d[1..4] + d[4..];
        assert Decode(d[used..]).value == d[1..];
        NeverCatchesUp(d[1..4], d[4..]);
      }
    }
  }

  /** The normal texts are exactly the fixed points. */
  lemma NormalIffFixed(d: string)
    requires IsCString(d)
    ensures Normal(d) <==> Decode(d) == Some(d)
  {
    if Normal(d) { NormalDecodesToItself(d); }
    if Decode(d) == Some(d) { FixedIsNormal(d); }
  }

  // ----- decoding twice -----

  /** The part of a label before the first number 256, whose low byte ends the decoded C string. */
  function Visible(e: string): string
    decreases |e|
  {
    if e == [] || Head(e).Bad? || Head(e).number == Some(256) then []
    else e[..Head(e).used] + Visible(After(e))
  }

  /** An item depends on its own characters alone. */
  lemma HeadLocal(e: string, rest: string)
    requires e != [] && Head(e).Item?
    ensures Head(e[..Head(e).used] + rest) == Head(e)
  {
    hide Octal, Written, OctalValue, HexValue;
    var f := e[..Head(e).used] + rest;
    assert forall j :: 0 <= j < Head(e).used ==> f[j] == e[j];
  }

  /** Only the number 256 is written with a NUL. */
  lemma ItemCString(e: string)
    requires e != [] && IsCString(e) && Head(e).Item?
    ensures if Head(e).number == Some(256) then Head(e).out == ['\0'] else IsCString(Head(e).out)
  {
    hide Head, Octal, NamedEscape;
    HeadCases(e);
    if Head(e).number.Some? {
      WrittenCString(Head(e).number.value);
    } else if e[0] != '\\' && Head(e).out == Written(e[0] as int) {
      WrittenCString(e[0] as int);
    } else if |e| > 1 && NamedEscape(e[1]).Some? && Head(e).out == Octal(NamedEscape(e[1]).value) {
      OctalCString(NamedEscape(e[1]).value);
    }
  }

  lemma WrittenCString(k: nat)
    requires k < 512
    ensures if k == 256 then Written(k) == ['\0'] else IsCString(Written(k))
  {
    hide Octal;
    OctalCString(k);
  }

  lemma OctalCString(k: nat)
    ensures IsCString(Octal(k))
  {}

  lemma {:induction false} CTextAppend(a: string, b: string)
    requires IsCString(a)
    ensures CText(a + b) == a + CText(b)
  {
    if a == [] {
      assert a + b == b;
    } else {
      assert (a + b)[0] == a[0] && (a + b)[1..] == a[1..] + b;
      CTextAppend(a[1..], b);
    }
  }

  /** The C string in the buffer is what the visible part decodes to. */
  lemma {:induction false} VisibleDecodes(e: string)
    requires IsCString(e) && Decode(e).Some?
    ensures IsCString(Visible(e)) && Decode(Visible(e)) == Decoded(e) && IsCString(Decoded(e).value)
    ensures Visible(e) == e <==> IsCString(Decode(e).value)
    decreases |e|
  {
    hide Head, IsCString;
    EmptyCString();
    if e != [] {
      var t, v := e[..Head(e).used], Visible(After(e));
      assert e == t + After(e);
      SplitCString(t, After(e));
      ItemCString(e);
      VisibleDecodes(After(e));
      SplitCString(Head(e).out, Decode(After(e)).value);
      if Head(e).number == Some(256) {
        NulEnds(Decode(After(e)).value);
      } else {
        HeadLocal(e, v);
        SplitCString(t, v);
        SplitCString(Head(e).out, Decoded(After(e)).value);
        CTextAppend(Head(e).out, Decode(After(e)).value);
        assert (t + v)[Head(e).used..] == v;
      }
    }
  }

  lemma EmptyCString()
    ensures IsCString([])
  {}

  lemma SplitCString(a: string, b: string)
    ensures IsCString(a + b) <==> IsCString(a) && IsCString(b)
  {
    assert forall i :: 0 <= i < |a| ==> (a + b)[i] == a[i];
    assert forall i :: 0 <= i < |b| ==> (a + b)[|a| + i] == b[i];
  }

  lemma NulEnds(rest: string)
    ensures CText(['\0'] + rest) == [] && !IsCString(['\0'] + rest)
  {
    assert (['\0'] + rest)[0] == '\0';
  }

  /** For every label that decodes, decoding the decoded label again changes nothing exactly if its visible part
      settles. That is the whole label unless some escape spells 256. */
  lemma DecodeIdempotentIff(e: string)
    requires IsCString(e) && Decode(e).Some?
    ensures Decode(Decoded(e).value) == Decoded(e) <==> Settles(Visible(e))
    ensures IsCString(Decode(e).value) ==> (Decode(Decode(e).value) == Decode(e) <==> Settles(e))
  {
    hide Decode, Settles, Visible, Normal, CText;
    VisibleDecodes(e);
    var d := Decoded(e).value;
    NormalIffSettles(Visible(e));
    NormalIffFixed(d);
  }

  /** The shortest labels on either side: the number spells a backslash, which "z" completes and the end does not. */
  lemma WideEscapeExamples()
    ensures Settles("\\534z") && Decode("\\534z") == Some("\\z")
    ensures !Settles("\\534") && Decode("\\534") == Some("\\") && Decode("\\").None?
  {
    var e, f, z := "\\534", "\\534z", ['z'];
    assert Head(e) == Item(Written(348), 4, Some(348)) == Head(f) && Head(z) == Item(Written(122), 1, None);
    assert Written(348) == ['\\'] && Written(122) == z;
    assert e[4..] == [] && f[4..] == z && z[1..] == [];
    assert Decode([]) == Some([]) && z + [] == z && ['\\'] + [] == ['\\'] && ['\\'] + z == "\\z";
    assert Decode(z) == Some(z);
  }
}
