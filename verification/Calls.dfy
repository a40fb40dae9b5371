/** One listing call of the client library: it skips what is not its own answer, takes exactly one block of
    items, and may be cut short at any point. */
module Calls {
  import opened Basics
  import opened Forests
  import opened Media
  import opened Listing
  import opened Replies

  datatype Result =
    | Okay | TimedOut | CommandFailed | NotConnected | IoError
    | InvalidState | FatalIoError | TimeError

  /** After these the handle cannot be used any more. */
  predicate Invalid(r: Result) { r.InvalidState? || r.FatalIoError? || r.TimeError? }

  /** What a call meets while it waits for its answer. `Garbled` is a line the message validator refuses,
      `Unparsed` one it accepts but cannot parse; waiting can end with an error, and sending can fail. */
  datatype Event = Line(message: Message) | Garbled | Unparsed | Stopped(why: Result) | Unsent

  /** What is asked for: everything, or one path. */
  function Asking(asked: Option<string>): Query { if asked.None? then ListAll else ListOne }

  predicate About(m: Message, asked: Option<string>)
    requires asked.Some? ==> |m.args| > 1
  {
    asked.Some? ==> m.args[1] == asked
  }

  predicate StartsFor(m: Message, asked: Option<string>) { Opens(m, Asking(asked)) && About(m, asked) }

  predicate RefusesFor(m: Message, asked: Option<string>) {
    m.cmd == FAILED && RefusedQuery(m, Asking(asked)) && About(m, asked)
  }

  predicate ClosesFor(m: Message, asked: Option<string>) { Closes(m, Asking(asked)) && About(m, asked) }

  // ----- one message -----

  datatype Progress = Progress(phase: Phase, started: bool, tree: Forest<Media>)

  datatype Step = Goes(progress: Progress) | Exits(result: Result, progress: Progress)
    | Breaks(result: Result, progress: Progress)

  function Process(c: Progress, m: Message, asked: Option<string>): Step {
    if c.started then
      if ClosesFor(m, asked) then Exits(Okay, c.(phase := Idle))
      else if !IsItem(m) then Breaks(InvalidState, c)
      else match Place(c.tree, m.args, asked)
        case None => Breaks(InvalidState, c)
        case Some(tree) => Goes(c.(tree := tree))
    else if c.phase.Idle? && StartsFor(m, asked) then Goes(c.(started := true, phase := Inside(Asking(asked))))
    else if c.phase.Idle? && RefusesFor(m, asked) then Exits(CommandFailed, c)
    else match Next(c.phase, m)
      case None => Breaks(FatalIoError, c)
      case Some(p) => Goes(c.(phase := p))
  }

  // ----- a whole call -----

  /** A single device must come as a single root, except that the root path may bring several. */
  predicate Acceptable(tree: Forest<Media>, asked: Option<string>) {
    asked.Some? ==> tree.Node? && (asked.value == ROOT_PATH || tree.next.Nil?)
  }

  /** The end of a call; `broken` also stops the worker thread. */
  datatype Outcome = Waiting(progress: Progress)
    | Ended(result: Result, tree: Forest<Media>, phase: Phase, broken: bool)

  function Exit(r: Result, c: Progress, asked: Option<string>): Outcome {
    if !r.Okay? then Ended(r, Nil, c.phase, false)
    else if c.started && Acceptable(c.tree, asked) then Ended(Okay, c.tree, c.phase, false)
    else Ended(InvalidState, Nil, c.phase, true)
  }

  /** One event; `prior` is the result the handle still holds from the call before. */
  function Meet(prior: Result, c: Progress, e: Event, asked: Option<string>): Step {
    match e
    case Line(m) => Process(c, m, asked)
    case Garbled => Breaks(prior, c)
    case Unparsed => Breaks(InvalidState, c)
    case Unsent => Breaks(IoError, c)
    case Stopped(why) => if Invalid(why) then Breaks(why, c) else Exits(why, c)
  }

  function Call(prior: Result, c: Progress, events: seq<Event>, asked: Option<string>): Outcome
    decreases |events|
  {
    if events == [] then Waiting(c)
    else match Meet(prior, c, events[0], asked)
      case Goes(c') => Call(prior, c', events[1..], asked)
      case Exits(r, c') => Exit(r, c', asked)
      case Breaks(r, c') => Ended(r, Nil, c'.phase, true)
  }

  function Fresh(p: Phase): Progress { Progress(p, false, Nil) }

  /** An end of the wait is never reported as a success. */
  predicate Sensible(events: seq<Event>) {
    forall i :: 0 <= i < |events| ==> events[i] != Stopped(Okay)
  }

  function AsLines(ms: seq<Message>): seq<Event> { seq(|ms|, i requires 0 <= i < |ms| => Line(ms[i])) }

  // ----- what a successful call has seen -----

  datatype Transcript = Transcript(before: seq<Message>, open: Message, items: seq<Message>, close: Message,
    rest: seq<Event>)

  /** Other messages, then one contiguous block for exactly this query, whose items rebuild the tree. */
  predicate Tells(t: Transcript, p: Phase, events: seq<Event>, asked: Option<string>) {
    events == AsLines(t.before) + [Line(t.open)] + AsLines(t.items) + [Line(t.close)] + t.rest
    && Run(p, t.before) == Some(Idle)
      && (forall i :: 0 <= i < |t.before| ==> !StartsFor(t.before[i], asked) && !RefusesFor(t.before[i], asked))
    && StartsFor(t.open, asked) && ClosesFor(t.close, asked)
    && Rebuild(Nil, t.items, asked).Some? && Acceptable(Rebuild(Nil, t.items, asked).value, asked)
  }

  lemma {:induction false} RebuildItems(f: Forest<Media>, items: seq<Message>, asked: Option<string>)
    requires Rebuild(f, items, asked).Some?
    ensures forall i :: 0 <= i < |items| ==> IsItem(items[i])
    decreases |items|
  {
    if items != [] { RebuildItems(Place(f, items[0].args, asked).value, items[1..], asked); }
  }

  lemma LinesParts(ms: seq<Message>)
    ensures |AsLines(ms)| == |ms|
      && (ms != [] ==> AsLines(ms)[0] == Line(ms[0]) && AsLines(ms)[1..] == AsLines(ms[1..]))
    ensures ms == [] ==> AsLines(ms) == []
  {}

  /** Inside its own block a call can only succeed through its own items and its own end. */
  lemma {:induction false} BlockOk(prior: Result, c: Progress, events: seq<Event>, asked: Option<string>)
    returns (items: seq<Message>, close: Message, rest: seq<Event>)
    requires c.started && Sensible(events) && (prior != Okay || Garbled !in events)
    requires Call(prior, c, events, asked).Ended? && Call(prior, c, events, asked).result.Okay?
    ensures events == AsLines(items) + [Line(close)] + rest && ClosesFor(close, asked)
    ensures Rebuild(c.tree, items, asked) == Some(Call(prior, c, events, asked).tree)
    ensures Acceptable(Call(prior, c, events, asked).tree, asked) && Call(prior, c, events, asked).phase.Idle?
    decreases |events|
  {
    hide IsItem, Place, ClosesFor, Acceptable;
    var m := events[0].message;
    if ClosesFor(m, asked) {
      items, close, rest := [], m, events[1..];
      assert AsLines([]) == [];
    } else {
      var c' := Process(c, m, asked).progress;
      items, close, rest := BlockOk(prior, c', events[1..], asked);
      items := [m] + items;
      LinesParts(items);
      assert items[1..] == items[1..];
    }
  }

  /** Success means that the answer came, unless an unreadable line met a handle that was fine before. */
  lemma {:induction false} CallOk(prior: Result, p: Phase, events: seq<Event>, asked: Option<string>)
    returns (t: Transcript)
    requires Sensible(events) && (prior != Okay || Garbled !in events)
    requires Call(prior, Fresh(p), events, asked).Ended? && Call(prior, Fresh(p), events, asked).result.Okay?
    ensures Tells(t, p, events, asked)
    ensures Rebuild(Nil, t.items, asked) == Some(Call(prior, Fresh(p), events, asked).tree)
    ensures Call(prior, Fresh(p), events, asked).phase.Idle?
    decreases |events|
  {
    hide StartsFor, RefusesFor, ClosesFor, Next, Acceptable, Rebuild;
    var m := events[0].message;
    if p.Idle? && StartsFor(m, asked) {
      var items, close, rest := BlockOk(prior, Process(Fresh(p), m, asked).progress, events[1..], asked);
      t := Transcript([], m, items, close, rest);
      LinesParts([]);
    } else {
      var q := Next(p, m).value;
      var s := CallOk(prior, q, events[1..], asked);
      t := s.(before := [m] + s.before);
      if p.Inside? { NotOurs(p, m, asked); }
      TellsBefore(s, m, p, events, asked);
    }
  }

  /** One more message before the block that is not the call's. */
  lemma TellsBefore(s: Transcript, m: Message, p: Phase, events: seq<Event>, asked: Option<string>)
    requires events != [] && events[0] == Line(m) && !StartsFor(m, asked) && !RefusesFor(m, asked)
    requires Next(p, m).Some? && Tells(s, Next(p, m).value, events[1..], asked)
    ensures Tells(s.(before := [m] + s.before), p, events, asked)
  {
    hide StartsFor, RefusesFor, ClosesFor, Next, Acceptable, Rebuild;
    var before := [m] + s.before;
    LinesParts(before);
    assert before[1..] == s.before;
    assert events == [events[0]] + events[1..];
    assert AsLines(before) == [Line(m)] + AsLines(s.before);
  }

  /** Inside somebody else's block no message starts or refuses a query. */
  lemma NotOurs(p: Phase, m: Message, asked: Option<string>)
    requires p.Inside? && Next(p, m).Some?
    ensures !StartsFor(m, asked) && !RefusesFor(m, asked)
  {
    assert STARTED[0] == 's' && STARTED[1] == 't' && FINISHED[0] == 'f' && FINISHED[1] == 'i' && FAILED[1] == 'a'
      && ITEM[0] == 'r';
    assert "supported_filesystems_list"[1] == 'u' && "supported_filesystem_options_list"[1] == 'u';
  }

  /** The call over lines that all keep it going. */
  lemma {:induction false} BlockComes(prior: Result, c: Progress, items: seq<Message>, close: Message,
    rest: seq<Event>, asked: Option<string>)
    requires c.started && ClosesFor(close, asked) && Rebuild(c.tree, items, asked).Some?
    ensures Call(prior, c, AsLines(items) + [Line(close)] + rest, asked) ==
      Exit(Okay, c.(phase := Idle, tree := Rebuild(c.tree, items, asked).value), asked)
    decreases |items|
  {
    hide ClosesFor, Acceptable, Exit;
    LinesParts(items);
    var events := AsLines(items) + [Line(close)] + rest;
    if items != [] {
      assert events[1..] == AsLines(items[1..]) + [Line(close)] + rest;
      ItemsDoNotClose(items[0], asked);
      BlockComes(prior, c.(tree := Place(c.tree, items[0].args, asked).value), items[1..], close, rest, asked);
    }
  }

  lemma ItemsDoNotClose(m: Message, asked: Option<string>)
    requires IsItem(m)
    ensures !ClosesFor(m, asked)
  {
    assert ITEM[0] == 'r' && FINISHED[0] == 'f';
  }

  lemma {:induction false} AnswerComes(prior: Result, p: Phase, t: Transcript, events: seq<Event>,
    asked: Option<string>)
    requires Tells(t, p, events, asked)
    ensures Call(prior, Fresh(p), events, asked) == Ended(Okay, Rebuild(Nil, t.items, asked).value, Idle, false)
    decreases |t.before|
  {
    hide StartsFor, RefusesFor, ClosesFor, Next, Acceptable, Rebuild;
    LinesParts(t.before);
    var block := AsLines(t.items) + [Line(t.close)] + t.rest;
    if t.before == [] {
      assert events == [Line(t.open)] + block && events[1..] == block;
      BlockComes(prior, Process(Fresh(p), t.open, asked).progress, t.items, t.close, t.rest, asked);
    } else {
      var s := t.(before := t.before[1..]);
      assert events[1..] == AsLines(s.before) + [Line(t.open)] + AsLines(t.items) + [Line(t.close)] + t.rest;
      AnswerComes(prior, Next(p, t.before[0]).value, s, events[1..], asked);
    }
  }

  /** A call succeeds exactly when its answer came whole, and the result holds that answer's items and no others;
      this is so unless an unreadable line meets a handle whose last result was a success. */
  lemma OkIffAnswered(prior: Result, p: Phase, events: seq<Event>, asked: Option<string>)
    requires Sensible(events) && (prior != Okay || Garbled !in events)
    ensures var o := Call(prior, Fresh(p), events, asked);
      (o.Ended? && o.result.Okay? <==> exists t :: Tells(t, p, events, asked))
      && forall t :: Tells(t, p, events, asked) ==> o == Ended(Okay, Rebuild(Nil, t.items, asked).value, Idle, false)
  {
    var o := Call(prior, Fresh(p), events, asked);
    if o.Ended? && o.result.Okay? {
      var t := CallOk(prior, p, events, asked);
      assert Tells(t, p, events, asked);
    }
    forall t | Tells(t, p, events, asked) ensures o == Ended(Okay, Rebuild(Nil, t.items, asked).value, Idle, false) {
      AnswerComes(prior, p, t, events, asked);
    }
  }

  /** When a line is unreadable, the call returns whatever the call before it returned: after a success that is a
      success without any device, although nothing was listed. */
  lemma {:induction false} GarbledKeepsPrior(prior: Result, c: Progress, lines: seq<Message>, rest: seq<Event>,
    asked: Option<string>)
    requires Advance(c, lines, asked).Some?
    ensures var o := Call(prior, c, AsLines(lines) + [Garbled] + rest, asked);
      o.Ended? && o.result == prior && o.tree == Nil && o.broken
    decreases |lines|
  {
    hide Process;
    LinesParts(lines);
    var events := AsLines(lines) + [Garbled] + rest;
    if lines != [] {
      assert events[1..] == AsLines(lines[1..]) + [Garbled] + rest;
      GarbledKeepsPrior(prior, Process(c, lines[0], asked).progress, lines[1..], rest, asked);
    }
  }

  /** When the wait for a line ends before the answer is whole, the call returns the reason without any device. The
      handle can be used again after a timeout, a lost connection or a failed read, and after nothing else. */
  lemma {:induction false} StoppedCall(prior: Result, c: Progress, lines: seq<Message>, why: Result, rest: seq<Event>,
    asked: Option<string>)
    requires Advance(c, lines, asked).Some? && !why.Okay?
    ensures Call(prior, c, AsLines(lines) + [Stopped(why)] + rest, asked) ==
      Ended(why, Nil, Advance(c, lines, asked).value.phase,
            why !in {TimedOut, CommandFailed, NotConnected, IoError})
    decreases |lines|
  {
    hide Process;
    LinesParts(lines);
    var events := AsLines(lines) + [Stopped(why)] + rest;
    if lines != [] {
      assert events[1..] == AsLines(lines[1..]) + [Stopped(why)] + rest;
      StoppedCall(prior, Process(c, lines[0], asked).progress, lines[1..], why, rest, asked);
    }
  }

  lemma GarbledExample()
    ensures Call(Okay, Fresh(Idle), [Garbled], None) == Ended(Okay, Nil, Idle, true)
  {}

  /** In full: a success is a whole answer, or else that one accident. */
  lemma {:induction false} SuccessMeans(prior: Result, p: Phase, events: seq<Event>, asked: Option<string>)
    requires Sensible(events)
    ensures var o, answered, accident :=
              Call(prior, Fresh(p), events, asked),
              exists t :: Tells(t, p, events, asked),
              prior.Okay? && GarbledFirst(Fresh(p), events, asked);
      (o.Ended? && o.result.Okay? <==> answered || accident) && !(answered && accident)
  {
    WithoutGarbled(prior, Fresh(p), events, asked);
    if GarbledFirst(Fresh(p), events, asked) {
      forall t ensures !Tells(t, p, events, asked) {
        if Tells(t, p, events, asked) { AnswerComes(TimedOut, p, t, events, asked); }
      }
    } else {
      OkIffAnswered(TimedOut, p, events, asked);
    }
  }

  /** The first event that does not keep the call going is an unreadable line. */
  predicate GarbledFirst(c: Progress, events: seq<Event>, asked: Option<string>)
    decreases |events|
  {
    events != [] &&
    match events[0]
    case Garbled => true
    case Line(m) => Process(c, m, asked).Goes? && GarbledFirst(Process(c, m, asked).progress, events[1..], asked)
    case _ => false
  }

  lemma {:induction false} WithoutGarbled(prior: Result, c: Progress, events: seq<Event>, asked: Option<string>)
    ensures GarbledFirst(c, events, asked) ==>
      forall r :: Call(r, c, events, asked).Ended? && Call(r, c, events, asked).result == r
    ensures !GarbledFirst(c, events, asked) ==> Call(prior, c, events, asked) == Call(TimedOut, c, events, asked)
    decreases |events|
  {
    if events != [] && events[0].Line? && Process(c, events[0].message, asked).Goes? {
      WithoutGarbled(prior, Process(c, events[0].message, asked).progress, events[1..], asked);
    }
  }

  // ----- what a call leaves behind -----

  /** A call that is still waiting after these lines. */
  function Advance(c: Progress, lines: seq<Message>, asked: Option<string>): Option<Progress>
    decreases |lines|
  {
    if lines == [] then Some(c)
    else match Process(c, lines[0], asked)
      case Goes(c') => Advance(c', lines[1..], asked)
      case _ => None
  }

  /** However a call reads its lines, it leaves the handle in the phase that the stream itself is in: a call that
      is given up in the middle of a block leaves the rest of it to be skipped by the next one. */
  lemma {:induction false} PhaseFollows(c: Progress, lines: seq<Message>, asked: Option<string>)
    requires Advance(c, lines, asked).Some? && (c.started ==> c.phase == Inside(Asking(asked)))
    ensures Run(c.phase, lines) == Some(Advance(c, lines, asked).value.phase)
    ensures Advance(c, lines, asked).value.started ==> Advance(c, lines, asked).value.phase == Inside(Asking(asked))
    decreases |lines|
  {
    hide IsItem, Place, Generic, About;
    if lines != [] {
      var m := lines[0];
      KindsApart(m, Asking(asked));
      if c.started {
        NotClosing(m, asked);
      } else if c.phase.Idle? && StartsFor(m, asked) {
        OpenedBy(m, Asking(asked));
      }
      PhaseFollows(Process(c, m, asked).progress, lines[1..], asked);
    }
  }

  lemma NotClosing(m: Message, asked: Option<string>)
    requires IsItem(m)
    ensures Next(Inside(Asking(asked)), m) == Some(Inside(Asking(asked)))
  {
    assert ITEM[0] == 'r' && FINISHED[0] == 'f';
  }

  /** A call that starts inside an abandoned block first reads the remaining items of that block and its end. */
  lemma AbandonedRest(q: Query, before: seq<Message>)
    requires Run(Inside(q), before) == Some(Idle)
    ensures exists j ::
      0 <= j < |before| && Closes(before[j], q) && (forall i :: 0 <= i < j ==> ItemOf(before[i], q))
      && Run(Idle, before[j + 1..]) == Some(Idle)
  {
    var j := EndOfBlock(q, before);
  }

  lemma {:induction false} EndOfBlock(q: Query, before: seq<Message>) returns (j: nat)
    requires Run(Inside(q), before) == Some(Idle)
    ensures j < |before| && Closes(before[j], q) && (forall i :: 0 <= i < j ==> ItemOf(before[i], q))
    ensures Run(Idle, before[j + 1..]) == Some(Idle)
    decreases |before|
  {
    hide Closes, ItemOf;
    if Closes(before[0], q) {
      j := 0;
    } else {
      j := EndOfBlock(q, before[1..]);
      assert before[1..][j + 1..] == before[j + 2..];
      j := j + 1;
    }
  }

  // ----- with the daemon at the other end -----

  function Params(asked: Option<string>): seq<Option<string>> {
    if asked.None? then [Some(QueryName(ListAll))] else [Some(QueryName(ListOne)), asked]
  }

  /** What the daemon sends for a listing; when a device cannot be printed, the end is missing. */
  function Answer(f: Forest<Media>, asked: Option<string>): Output {
    if asked.Some? && asked.value != ROOT_PATH && asked.value !in Paths(f) then
      Output([Message(FAILED, Params(asked) + [Some("no such removable device")])], false)
    else
      var out := Print(if asked.None? || asked.value == ROOT_PATH then Preorder(f, ROOT_PATH)
                       else Preorder(Subtree(f, asked.value), ParentOf(f, asked.value, ROOT_PATH)));
      Output([Message(STARTED, Params(asked))] + out.lines
        + (if out.complete then [Message(FINISHED, Params(asked))] else []),
             out.complete)
  }

  /** The tree a call is meant to return. */
  function Wanted(f: Forest<Media>, asked: Option<string>): Forest<Media> {
    Map(if asked.None? || asked.value == ROOT_PATH then f else Subtree(f, asked.value), Conveyed)
  }

  ghost predicate Listable(f: Forest<Media>) {
    Unique(f) && Sorted(f) && AllTransmissible(f) && ROOT_PATH !in Paths(f)
  }

  /** The messages that come before the answer: they are accepted and leave no block open. */
  ghost predicate Quiet(p: Phase, before: seq<Message>, asked: Option<string>) {
    Run(p, before) == Some(Idle) && forall i :: 0 <= i < |before| ==>
      !StartsFor(before[i], asked) && !RefusesFor(before[i], asked)
  }

  lemma AnswerLines(f: Forest<Media>, asked: Option<string>)
    requires Listable(f) && (asked.Some? && asked.value != ROOT_PATH ==> asked.value in Paths(f))
    ensures exists items ::
      Answer(f, asked).lines == [Message(STARTED, Params(asked))] + items + [Message(FINISHED, Params(asked))]
      && Rebuild(Nil, items, asked) == Some(Wanted(f, asked))
  {
    if asked.None? || asked.value == ROOT_PATH {
      ListAllRoundTrip(f, asked);
      TransmissiblePrints(f, ROOT_PATH);
    } else {
      var p := asked.value;
      ListOneRoundTrip(f, p);
      SubtreeKeeps(f, p);
      TransmissiblePrints(Subtree(f, p), ParentOf(f, p, ROOT_PATH));
    }
  }

  /** Asking the daemon for its devices, or for one of them, returns what their descriptions convey. The one
      exception is the root path while there is no device at all: it breaks the handle. */
  lemma ListingCall(f: Forest<Media>, prior: Result, p: Phase, before: seq<Message>, rest: seq<Event>,
    asked: Option<string>)
    requires Listable(f) && (asked.Some? && asked.value != ROOT_PATH ==> asked.value in Paths(f))
    requires Quiet(p, before, asked)
    ensures Call(prior, Fresh(p), AsLines(before + Answer(f, asked).lines) + rest, asked) ==
      if asked == Some(ROOT_PATH) && f.Nil? then Ended(InvalidState, Nil, Idle, true)
      else Ended(Okay, Wanted(f, asked), Idle, false)
  {
    hide Tells, Call, Rebuild, Answer, AllTransmissible, Unique, Sorted, Wanted, Acceptable, Run;
    AnswerLines(f, asked);
    var open, close := Message(STARTED, Params(asked)), Message(FINISHED, Params(asked));
    var items :| Answer(f, asked).lines == [open] + items + [close]
      && Rebuild(Nil, items, asked) == Some(Wanted(f, asked));
    BlockArrives(prior, p, before, open, items, close, rest, asked);
    WantedAcceptable(f, asked);
    assert AsLines(before + ([open] + items + [close])) == AsLines(before) + [Line(open)] + AsLines(items)
      + [Line(close)];
  }

  lemma WantedAcceptable(f: Forest<Media>, asked: Option<string>)
    requires Listable(f) && (asked.Some? && asked.value != ROOT_PATH ==> asked.value in Paths(f))
    ensures Acceptable(Wanted(f, asked), asked) <==> !(asked == Some(ROOT_PATH) && f.Nil?)
  {
    if asked.Some? && asked.value != ROOT_PATH {
      SubtreeKeeps(f, asked.value);
      var g := Subtree(f, asked.value);
      assert Map(g, Conveyed).next == Map(g.next, Conveyed);
    }
  }

  lemma {:induction false} BlockArrives(
      prior: Result, p: Phase, before: seq<Message>, open: Message, items: seq<Message>, close: Message,
        rest: seq<Event>,
      asked: Option<string>)
    requires Quiet(p, before, asked) && StartsFor(open, asked) && ClosesFor(close, asked)
      && Rebuild(Nil, items, asked).Some?
    ensures Call(prior, Fresh(p), AsLines(before) + [Line(open)] + AsLines(items) + [Line(close)] + rest, asked) ==
      Exit(Okay, Progress(Idle, true, Rebuild(Nil, items, asked).value), asked)
    decreases |before|
  {
    hide StartsFor, RefusesFor, ClosesFor, Next, Acceptable, Rebuild, Exit;
    LinesParts(before);
    var block := AsLines(items) + [Line(close)] + rest;
    var events := AsLines(before) + [Line(open)] + AsLines(items) + [Line(close)] + rest;
    if before == [] {
      assert events == [Line(open)] + block && events[1..] == block;
      BlockComes(prior, Process(Fresh(p), open, asked).progress, items, close, rest, asked);
    } else {
      assert events[1..] == AsLines(before[1..]) + [Line(open)] + AsLines(items) + [Line(close)] + rest;
      BlockArrives(prior, Next(p, before[0]).value, before[1..], open, items, close, rest, asked);
    }
  }

  /** A path the daemon does not know is reported as a failure of the command. */
  lemma {:induction false} UnknownPath(f: Forest<Media>, prior: Result, p: Phase, before: seq<Message>,
    rest: seq<Event>, path: string)
    requires path != ROOT_PATH && path !in Paths(f) && Quiet(p, before, Some(path))
    ensures Call(prior, Fresh(p), AsLines(before + Answer(f, Some(path)).lines) + rest, Some(path)) ==
      Ended(CommandFailed, Nil, Idle, false)
    decreases |before|
  {
    hide StartsFor, Next;
    var failed := Answer(f, Some(path)).lines;
    LinesParts(before + failed);
    var events := AsLines(before + failed) + rest;
    assert STARTED[0] == 's' && FAILED[0] == 'f';
    if before == [] {
      assert before + failed == failed;
      assert !StartsFor(failed[0], Some(path)) by { NotStarting(failed[0], path); }
    } else {
      assert (before + failed)[1..] == before[1..] + failed;
      assert events[1..] == AsLines(before[1..] + failed) + rest;
      UnknownPath(f, prior, Next(p, before[0]).value, before[1..], rest, path);
    }
  }

  lemma NotStarting(m: Message, path: string)
    requires m.cmd == FAILED
    ensures !StartsFor(m, Some(path))
  {
    assert STARTED[0] == 's' && FAILED[0] == 'f';
  }

  // ----- late answers -----

  /** What comes before the answer is passed over. */
  lemma {:induction false} QuietSkipped(prior: Result, p: Phase, before: seq<Message>, rest: seq<Event>,
    asked: Option<string>)
    requires Quiet(p, before, asked)
    ensures Call(prior, Fresh(p), AsLines(before) + rest, asked) == Call(prior, Fresh(Idle), rest, asked)
    decreases |before|
  {
    hide StartsFor, RefusesFor, ClosesFor, Next, Exit;
    LinesParts(before);
    var events := AsLines(before) + rest;
    if before == [] {
      assert events == rest;
    } else {
      assert events[1..] == AsLines(before[1..]) + rest;
      QuietSkipped(prior, Next(p, before[0]).value, before[1..], rest, asked);
    }
  }

  lemma {:induction false} ItemsKeepPhase(q: Query, items: seq<Message>)
    requires (q == ListAll || q == ListOne) && forall i :: 0 <= i < |items| ==> IsItem(items[i])
    ensures Run(Inside(q), items) == Some(Inside(q))
    decreases |items|
  {
    if items != [] {
      assert ITEM[0] == 'r' && FINISHED[0] == 'f';
      ItemsKeepPhase(q, items[1..]);
    }
  }

  lemma OtherOpening(m: Message, late: Option<string>, asked: Option<string>)
    requires m.cmd == STARTED && m.args == Params(late) && late != asked
    ensures Next(Idle, m) == Some(Inside(Asking(late))) && !StartsFor(m, asked) && !RefusesFor(m, asked)
  {
    NamesApart();
    OpenedBy(m, Asking(late));
    assert STARTED[0] == 's' && FAILED[0] == 'f';
  }

  lemma OtherLine(m: Message, asked: Option<string>)
    requires m.cmd == FINISHED || m.cmd == ITEM
    ensures !StartsFor(m, asked) && !RefusesFor(m, asked)
  {
    assert STARTED[0] == 's' && FAILED[0] == 'f' && FAILED[1] == 'a' && FINISHED[0] == 'f' && FINISHED[1] == 'i';
    assert ITEM[0] == 'r';
  }

  /** The block that answers another query is quiet. */
  lemma BlockQuiet(open: Message, items: seq<Message>, close: Message, late: Option<string>, asked: Option<string>)
    requires open == Message(STARTED, Params(late)) && close == Message(FINISHED, Params(late)) && late != asked
    requires forall i :: 0 <= i < |items| ==> IsItem(items[i])
    ensures Quiet(Idle, [open] + items + [close], asked)
  {
    hide StartsFor, RefusesFor, Next, Run, IsItem;
    var q, all := Asking(late), [open] + items + [close];
    OtherOpening(open, late, asked);
    ItemsKeepPhase(q, items);
    assert Next(Inside(q), close) == Some(Idle) by { ClosesItself(close, late); }
    RunAppend(Idle, [open] + items, [close]);
    RunAppend(Idle, [open], items);
    RunSingle(Idle, open);
    RunSingle(Inside(q), close);
    forall i | 0 <= i < |all| ensures !StartsFor(all[i], asked) && !RefusesFor(all[i], asked) {
      if 0 < i {
        assert i <= |items| ==> IsItem(all[i]);
        if i <= |items| { ItemsCommand(all[i]); }
        OtherLine(all[i], asked);
      }
    }
  }

  lemma ItemsCommand(m: Message)
    requires IsItem(m)
    ensures m.cmd == ITEM
  {}

  lemma RunSingle(p: Phase, m: Message)
    ensures Run(p, [m]) == Next(p, m)
  {
    hide Next;
    assert [m][1..] == [];
  }

  lemma ClosesItself(m: Message, late: Option<string>)
    requires m == Message(FINISHED, Params(late))
    ensures Next(Inside(Asking(late)), m) == Some(Idle)
  {}

  lemma OtherRefusal(m: Message, late: string, asked: Option<string>)
    requires m == Message(FAILED, Params(Some(late)) + [Some("no such removable device")]) && Some(late) != asked
    ensures Quiet(Idle, [m], asked)
  {
    NamesApart();
    RunSingle(Idle, m);
    assert STARTED[0] == 's' && FAILED[0] == 'f';
  }

  /** An answer to another query, as it arrives after a call that was given up, is passed over as a whole, whether it
      lists devices or refuses a path: the call goes on as if it had not come. */
  lemma LateAnswerSkipped(f: Forest<Media>, prior: Result, late: Option<string>, rest: seq<Event>,
    asked: Option<string>)
    requires Listable(f) && late != asked
    ensures Call(prior, Fresh(Idle), AsLines(Answer(f, late).lines) + rest, asked)
      == Call(prior, Fresh(Idle), rest, asked)
  {
    hide Call, Rebuild, Quiet, Unique, Sorted, AllTransmissible, Wanted, Params;
    var lines := Answer(f, late).lines;
    if late.Some? && late.value != ROOT_PATH && late.value !in Paths(f) {
      OtherRefusal(lines[0], late.value, asked);
      assert lines == [lines[0]];
    } else {
      AnswerLines(f, late);
      var open, close := Message(STARTED, Params(late)), Message(FINISHED, Params(late));
      var items :| lines == [open] + items + [close] && Rebuild(Nil, items, late) == Some(Wanted(f, late));
      RebuildItems(Nil, items, late);
      BlockQuiet(open, items, close, late, asked);
    }
    QuietSkipped(prior, Idle, lines, rest, asked);
  }
}
