/** Cutting a byte stream into lines with one fixed buffer, as the daemon does for each client and the client
    library does for the daemon. */
module Framing {
  import opened Basics

  const MAX_LENGTH: nat := 4096

  const NUL: char := '\0'

  // ----- lines of a stream -----

  /** The position of the first newline, or the length. */
  function Newline(s: string): (i: nat)
    ensures i <= |s|
  {
    if s == [] || s[0] == '\n' then 0 else 1 + Newline(s[1..])
  }

  /** The newline-terminated lines, in order. */
  function Lines(s: string): seq<string>
    decreases |s|
  {
    var i := Newline(s);
    if i == |s| then [] else [s[..i]] + Lines(s[i + 1..])
  }

  /** What comes after the last newline. */
  function Rest(s: string): string
    decreases |s|
  {
    var i := Newline(s);
    if i == |s| then s else Rest(s[i + 1..])
  }

  lemma FirstLine(s: string)
    ensures Newline(s) == |s| ==> Lines(s) == []
    ensures Newline(s) < |s| ==> Lines(s) == [s[..Newline(s)]] + Lines(s[Newline(s) + 1..])
  {
    hide Newline;
  }

  lemma FirstRest(s: string)
    ensures Newline(s) == |s| ==> Rest(s) == s
    ensures Newline(s) < |s| ==> Rest(s) == Rest(s[Newline(s) + 1..])
  {
    hide Newline;
    if Newline(s) < |s| {
      var tail := s[Newline(s) + 1..];
      assert Rest(s) == Rest(tail);
    }
  }

  lemma LinesParts(s: string)
    ensures var i := Newline(s);
      if i == |s| then Lines(s) == [] && Rest(s) == s
      else Lines(s) == [s[..i]] + Lines(s[i + 1..]) && Rest(s) == Rest(s[i + 1..])
  {
    hide Newline, Lines, Rest;
    FirstLine(s);
    FirstRest(s);
  }

  lemma {:induction false} NewlineIsFirst(s: string)
    ensures forall k :: 0 <= k < Newline(s) ==> s[k] != '\n'
    ensures Newline(s) < |s| ==> s[Newline(s)] == '\n'
  {
    if s != [] && s[0] != '\n' {
      NewlineIsFirst(s[1..]);
      forall k | 0 <= k < Newline(s) ensures s[k] != '\n' {
        assert k > 0 ==> s[k] == s[1..][k - 1];
      }
    }
  }

  lemma {:induction false} NewlineAt(s: string, i: nat)
    requires i <= |s| && (forall k :: 0 <= k < i ==> s[k] != '\n') && (i < |s| ==> s[i] == '\n')
    ensures Newline(s) == i
  {
    if s != [] && i > 0 { NewlineAt(s[1..], i - 1); }
  }

  lemma {:induction false} NewlineAppend(a: string, b: string)
    ensures Newline(a + b) == if Newline(a) < |a| then Newline(a) else |a| + Newline(b)
  {
    if a == [] {
      assert a + b == b;
    } else {
      assert (a + b)[0] == a[0] && (a + b)[1..] == a[1..] + b;
      NewlineAppend(a[1..], b);
    }
  }

  lemma {:induction false} LinesAppend(a: string, b: string)
    ensures Lines(a + b) == Lines(a) + Lines(Rest(a) + b) && Rest(a + b) == Rest(Rest(a) + b)
    decreases |a|
  {
    hide Newline, Lines, Rest;
    var i := Newline(a);
    NewlineAppend(a, b);
    LinesParts(a);
    LinesParts(a + b);
    if i == |a| {
      assert [] + Lines(a + b) == Lines(a + b);
    } else {
      assert (a + b)[..i] == a[..i] && (a + b)[i + 1..] == a[i + 1..] + b;
      LinesAppend(a[i + 1..], b);
    }
  }

  lemma {:induction false} RestHasNone(s: string)
    ensures Newline(Rest(s)) == |Rest(s)|
    decreases |s|
  {
    if Newline(s) < |s| { RestHasNone(s[Newline(s) + 1..]); }
  }

  // ----- the buffer -----

  class LineBuffer {
    const buf: array<char>
    var used: nat

    ghost predicate Valid()
      reads this, buf
    {
      buf.Length == MAX_LENGTH + 1 && used <= MAX_LENGTH && buf[used] == NUL && NUL !in buf[..used]
    }

    ghost function Contents(): string
      reads this, buf
      requires Valid()
    {
      buf[..used]
    }

    constructor ()
      ensures Valid() && Contents() == [] && fresh(buf)
    {
      buf := new char[MAX_LENGTH + 1];
      used := 0;
      new;
      buf[0] := NUL;
    }

    /** One read, of no more than there is room for. */
    method Append(chunk: string)
      requires Valid() && |chunk| <= MAX_LENGTH - used && NUL !in chunk
      modifies this, buf
      ensures Valid() && Contents() == old(Contents()) + chunk
    {
      ghost var was := Contents();
      for k := 0 to |chunk|
        invariant used == old(used) && buf[..used] == was && buf[used..used + k] == chunk[..k]
      {
        buf[used + k] := chunk[k];
        assert chunk[..k + 1] == chunk[..k] + [chunk[k]];
        assert buf[used..used + k + 1] == buf[used..used + k] + [chunk[k]];
      }
      ghost var filled := buf[..used + |chunk|];
      assert filled == was + chunk by { assert filled == buf[..used] + buf[used..used + |chunk|]; }
      used := used + |chunk|;
      buf[used] := NUL;
      assert buf[..used] == filled;
    }

    /** strchr for a newline: it stops at the terminator, which is in bounds. */
    method FindNewline() returns (i: nat)
      requires Valid()
      ensures i == Newline(Contents())
    {
      i := 0;
      while buf[i] != NUL && buf[i] != '\n'
        invariant i <= used && forall k :: 0 <= k < i ==> buf[k] != '\n'
        decreases used - i
      {
        i := i + 1;
      }
      assert i < used ==> buf[i] in buf[..used];
      NewlineAt(Contents(), i);
    }

    /** Takes the first line out and moves the rest, with its terminator, to the front. */
    method TakeLine() returns (line: Option<string>)
      requires Valid()
      modifies this, buf
      ensures Valid()
      ensures var s := old(Contents()); var i := Newline(s);
        if i == |s| then line == None && Contents() == s
        else line == Some(s[..i]) && Contents() == s[i + 1..]
    {
      var i := FindNewline();
      ghost var s := Contents();
      NewlineIsFirst(s);
      if i == used { return None; }
      line := Some(buf[..i]);
      assert line.value == s[..i];
      ghost var tail := buf[i + 1..used + 1];
      used := used - (i + 1);
      MoveDown(i + 1, used + 1);
      assert buf[..used + 1] == tail;
      assert buf[..used] == tail[..used] && buf[used] == tail[used];
      assert tail[..used] == s[i + 1..] && tail[used] == NUL;
    }

    /** memmove to the front of the buffer. */
    method MoveDown(from: nat, count: nat)
      requires from + count <= buf.Length
      modifies buf
      ensures buf[..count] == old(buf[from..from + count])
    {
      for k := 0 to count
        invariant buf[..k] == old(buf[from..from + k])
        invariant buf[from + k..] == old(buf[from + k..])
      {
        assert buf[from + k] == buf[from + k..][0];
        ghost var rest := buf[from + k..];
        buf[k] := buf[from + k];
        assert old(buf[from..from + k + 1]) == old(buf[from..from + k]) + [old(buf[from + k])];
        assert buf[from + k + 1..] == rest[1..];
      }
    }

    /** What the daemon does with one read: it takes every complete line, and drops the client if what is left
        fills the buffer. */
    method Receive(chunk: string) returns (lines: seq<string>, overflow: bool)
      requires Valid() && |chunk| <= MAX_LENGTH - used && NUL !in chunk
      modifies this, buf
      ensures Valid() && lines == Lines(old(Contents()) + chunk) && Contents() == Rest(old(Contents()) + chunk)
      ensures overflow <==> |Contents()| == MAX_LENGTH
    {
      hide Lines, Rest, Newline;
      ghost var text := Contents() + chunk;
      Append(chunk);
      LinesParts(text);
      lines := [];
      var line := TakeLine();
      while line.Some?
        invariant Valid()
        invariant line.Some? ==>
          lines + [line.value] + Lines(Contents()) == Lines(text) && Rest(Contents()) == Rest(text)
        invariant line.None? ==> lines == Lines(text) && Contents() == Rest(text)
        decreases used + if line.Some? then 1 else 0
      {
        lines := lines + [line.value];
        LinesParts(Contents());
        line := TakeLine();
      }
      overflow := used == MAX_LENGTH;
    }

    /** A connection that is read until it ends or is dropped; each read gets as much as its size allows, the buffer
        has room for, and the stream still has. */
    method Serve(stream: string, sizes: seq<nat>) returns (lines: seq<string>, count: nat, dropped: bool)
      requires Valid() && Contents() == "" && NUL !in stream && forall i :: 0 <= i < |sizes| ==> sizes[i] > 0
      modifies this, buf
      ensures Valid() && count <= |stream| && lines == Lines(stream[..count]) && Contents() == Rest(stream[..count])
      ensures dropped <==> !AllShort(stream[..count])
      ensures |sizes| >= |stream| ==> (dropped <==> !AllShort(stream)) && (!dropped ==> count == |stream|)
    {
      hide Lines, Rest, Newline, AllShort;
      lines, count, dropped := [], 0, false;
      var i: nat := 0;
      NothingRead(stream);
      while i < |sizes| && count < |stream| && !dropped
        invariant Valid() && i <= |sizes| && count <= |stream| && (count < |stream| ==> count >= i)
        invariant lines == Lines(stream[..count]) && Contents() == Rest(stream[..count])
        invariant dropped <==> !AllShort(stream[..count])
        invariant dropped <==> used == MAX_LENGTH
      {
        var room := MAX_LENGTH - used;
        var size := if sizes[i] < room then sizes[i] else room;
        size := if size < |stream| - count then size else |stream| - count;
        var chunk := stream[count..count + size];
        assert stream[..count + size] == stream[..count] + chunk;
        assert NUL !in chunk;
        OneRead(stream[..count], chunk);
        var more;
        more, dropped := Receive(chunk);
        lines, count, i := lines + more, count + size, i + 1;
      }
      if AllShort(stream) { ShortNeverFills(stream, count); }
      assert stream[..|stream|] == stream;
    }
  }

  lemma NothingRead(stream: string)
    ensures Lines(stream[..0]) == [] && Rest(stream[..0]) == "" && AllShort(stream[..0])
  {}

  lemma OneRead(a: string, chunk: string)
    requires AllShort(a) && |Rest(a) + chunk| <= MAX_LENGTH
    ensures Lines(a + chunk) == Lines(a) + Lines(Rest(a) + chunk) && Rest(a + chunk) == Rest(Rest(a) + chunk)
    ensures AllShort(a + chunk) <==> |Rest(a + chunk)| < MAX_LENGTH
  {
    hide Lines, Rest, Newline;
    LinesAppend(a, chunk);
    LinesFit(Rest(a) + chunk);
  }

  // ----- every way of reading and taking -----

  /** What was read so far, what is in the buffer, and the lines that were taken, by whichever thread. */
  datatype Reader = Reader(total: string, contents: string, taken: seq<string>)

  datatype Op = Read(chunk: string) | Take

  /** Both programs read only when there is no line to take, and no more than there is room for. */
  function Operate(r: Reader, op: Op): Option<Reader> {
    match op
    case Read(chunk) =>
      if Newline(r.contents) == |r.contents| && 0 < |chunk| <= MAX_LENGTH - |r.contents|
      then Some(r.(total := r.total + chunk, contents := r.contents + chunk)) else None
    case Take =>
      var i := Newline(r.contents);
      if i == |r.contents| then None
      else Some(r.(contents := r.contents[i + 1..], taken := r.taken + [r.contents[..i]]))
  }

  function Operates(r: Reader, ops: seq<Op>): Option<Reader>
    decreases |ops|
  {
    if ops == [] then Some(r)
    else match Operate(r, ops[0])
      case None => None
      case Some(r') => Operates(r', ops[1..])
  }

  /** With its newline, such a line fits. */
  predicate Short(s: string) { |s| + 1 <= 4096 }

  /** All lines are short, and so is the one that is not finished. */
  predicate AllShort(s: string) { (forall i :: 0 <= i < |Lines(s)| ==> Short(Lines(s)[i])) && Short(Rest(s)) }

  /** Lines taken and lines still in the buffer are the lines of the stream. */
  ghost predicate Framed(r: Reader) {
    r.taken + Lines(r.contents) == Lines(r.total) && Rest(r.contents) == Rest(r.total) && |r.contents| <= MAX_LENGTH
    && forall i :: 0 <= i < |Lines(r.total)| ==> Short(Lines(r.total)[i])
  }

  lemma {:induction false} LinesFit(s: string)
    requires |s| <= MAX_LENGTH
    ensures forall i :: 0 <= i < |Lines(s)| ==> Short(Lines(s)[i])
    decreases |s|
  {
    var i := Newline(s);
    if i < |s| { LinesFit(s[i + 1..]); }
  }

  lemma ReadFramed(r: Reader, chunk: string)
    requires Framed(r) && Operate(r, Read(chunk)).Some?
    ensures Framed(Operate(r, Read(chunk)).value)
  {
    hide Lines, Rest, Newline;
    LinesAppend(r.total, chunk);
    LinesParts(r.contents);
    LinesFit(r.contents + chunk);
  }

  lemma OperateFramed(r: Reader, op: Op)
    requires Framed(r) && Operate(r, op).Some?
    ensures Framed(Operate(r, op).value)
  {
    var r' := Operate(r, op).value;
    match op
    case Read(chunk) => ReadFramed(r, chunk);
    case Take =>
      var i := Newline(r.contents);
      assert r.taken + ([r.contents[..i]] + Lines(r'.contents)) == r'.taken + Lines(r'.contents);
  }

  lemma {:induction false} OperatesFramed(r: Reader, ops: seq<Op>)
    requires Framed(r) && Operates(r, ops).Some?
    ensures Framed(Operates(r, ops).value)
    decreases |ops|
  {
    hide Framed;
    if ops != [] {
      OperateFramed(r, ops[0]);
      OperatesFramed(Operate(r, ops[0]).value, ops[1..]);
    }
  }

  const START := Reader("", "", [])

  /** However the stream arrives, and whoever takes the lines: once no line is left in the buffer, exactly the lines
      of the stream were taken, and the buffer is full if and only if some line of the stream was too long. */
  lemma FramingIndependent(ops: seq<Op>)
    requires Operates(START, ops).Some?
    ensures var r := Operates(START, ops).value;
      |r.contents| <= MAX_LENGTH
      && (Newline(r.contents) == |r.contents| ==>
            r.taken == Lines(r.total) && r.contents == Rest(r.total)
              && (|r.contents| == MAX_LENGTH <==> !AllShort(r.total)))
  {
    OperatesFramed(START, ops);
  }

  /** A stream whose lines are short never fills the buffer, at whichever of its prefixes reading stands. */
  lemma ShortNeverFills(stream: string, n: nat)
    requires n <= |stream| && AllShort(stream)
    ensures AllShort(stream[..n])
  {
    assert stream[..n] + stream[n..] == stream;
    LinesAppend(stream[..n], stream[n..]);
    var a, b := stream[..n], stream[n..];
    forall i | 0 <= i < |Lines(a)| ensures Short(Lines(a)[i]) {
      assert Lines(stream)[i] == Lines(a)[i];
    }
    var tail := Rest(a) + b;
    NewlineAppend(Rest(a), b);
    RestHasNone(a);
    if Newline(tail) < |tail| {
      assert Lines(stream)[|Lines(a)|] == tail[..Newline(tail)];
    }
  }
}
