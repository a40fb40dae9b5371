/** The reply stream as the client library reads it: one automaton over all messages, and listing calls on
    top of it. */
module Replies {
  import opened Basics
  import opened Media
  import opened Listing

  datatype Query = ListAll | ListOne | ListFilesystems | ListOptions

  const STARTED := "started"
  const FINISHED := "finished"
  const SUCCEEDED := "succeeded"
  const FAILED := "failed"

  function QueryName(q: Query): string {
    match q
    case ListAll => "list_all_removable_devices"
    case ListOne => "list_removable_device"
    case ListFilesystems => "list_supported_filesystems"
    case ListOptions => "list_supported_filesystem_options"
  }

  /** Answers to a query repeat its name and, for two of the queries, its argument. */
  predicate Generic(m: Message, q: Query) {
    match q
    case ListAll | ListFilesystems => |m.args| == 1 && m.args[0] == Some(QueryName(q))
    case ListOne | ListOptions => |m.args| == 2 && m.args[1].Some? && m.args[0] == Some(QueryName(q))
  }

  predicate RefusedQuery(m: Message, q: Query) {
    match q
    case ListAll | ListFilesystems => |m.args| == 2 && m.args[1].Some? && m.args[0] == Some(QueryName(q))
    case ListOne | ListOptions => |m.args| == 3 && m.args[2].Some? && m.args[1].Some? && m.args[0] == Some(QueryName(q))
  }

  /** The commands without a listing: mount, unmount, poweroff. */
  predicate Succeeded(m: Message) {
    m.cmd == SUCCEEDED && |m.args| >= 2 && m.args[1].Some? &&
    ((|m.args| == 3 && m.args[0] == Some("mount"))
     || (|m.args| == 2 && (m.args[0] == Some("unmount") || m.args[0] == Some("poweroff"))))
  }

  predicate Refused(m: Message) {
    m.cmd == FAILED &&
    (RefusedQuery(m, ListAll) || RefusedQuery(m, ListOne) || RefusedQuery(m, ListFilesystems)
      || RefusedQuery(m, ListOptions)
     || (|m.args| == 4 && m.args[3].Some? && m.args[1].Some? && m.args[0] == Some("mount"))
     || (|m.args| == 3 && m.args[2].Some? && m.args[1].Some?
       && (m.args[0] == Some("unmount") || m.args[0] == Some("poweroff"))))
  }

  predicate Notification(m: Message) {
    ((m.cmd == ADDED || m.cmd == CHANGED) && ValidDescription(m.args))
    || (m.cmd == REMOVED && |m.args| == 1 && m.args[0].Some?)
    || (m.cmd == MOUNTED && |m.args| == 3 && m.args[0].Some? && m.args[1].Some? && m.args[2].Some?)
    || (m.cmd == UNMOUNTED && |m.args| == 2 && m.args[0].Some? && m.args[1].Some?)
  }

  predicate Opens(m: Message, q: Query) { m.cmd == STARTED && Generic(m, q) }

  predicate Closes(m: Message, q: Query) { m.cmd == FINISHED && Generic(m, q) }

  predicate AllPresent(args: seq<Option<string>>) { forall i :: 0 <= i < |args| ==> args[i].Some? }

  predicate ItemOf(m: Message, q: Query) {
    match q
    case ListAll | ListOne => IsItem(m)
    case ListFilesystems => m.cmd == "supported_filesystems_list" && AllPresent(m.args)
    case ListOptions => m.cmd == "supported_filesystem_options_list" && AllPresent(m.args)
  }

  // ----- the automaton -----

  datatype Phase = Idle | Inside(query: Query)

  function Next(p: Phase, m: Message): Option<Phase> {
    match p
    case Idle =>
      if Refused(m) || Succeeded(m) then Some(Idle)
      else if Opens(m, ListAll) then Some(Inside(ListAll))
      else if Opens(m, ListOne) then Some(Inside(ListOne))
      else if Opens(m, ListFilesystems) then Some(Inside(ListFilesystems))
      else if Opens(m, ListOptions) then Some(Inside(ListOptions))
      else if Notification(m) then Some(Idle)
      else None
    case Inside(q) =>
      if Closes(m, q) then Some(Idle) else if ItemOf(m, q) then Some(p) else None
  }

  /** Where a sequence of messages leads, or nothing if one of them is refused. */
  function Run(p: Phase, ms: seq<Message>): Option<Phase>
    decreases |ms|
  {
    if ms == [] then Some(p)
    else match Next(p, ms[0])
      case None => None
      case Some(q) => Run(q, ms[1..])
  }

  // ----- what it accepts, said without it -----

  /** A complete answer: one message, or the block of a listing. */
  datatype Reply = One(message: Message) | Block(query: Query, open: Message, items: seq<Message>, close: Message)

  predicate Whole(r: Reply) {
    match r
    case One(m) => Refused(m) || Succeeded(m) || Notification(m)
    case Block(q, open, items, close) =>
      Opens(open, q) && Closes(close, q) && forall i :: 0 <= i < |items| ==> ItemOf(items[i], q)
  }

  function Messages(r: Reply): seq<Message> {
    match r
    case One(m) => [m]
    case Block(_, open, items, close) => [open] + items + [close]
  }

  function Stream(replies: seq<Reply>): seq<Message> {
    if replies == [] then [] else Messages(replies[0]) + Stream(replies[1..])
  }

  predicate AllWhole(replies: seq<Reply>) { forall i :: 0 <= i < |replies| ==> Whole(replies[i]) }

  /** The beginning of a stream of complete answers. */
  ghost predicate Begins(ms: seq<Message>) {
    exists replies, more :: AllWhole(replies) && Stream(replies) == ms + more
  }

  lemma NamesApart()
    ensures QueryName(ListAll) != QueryName(ListOne) && QueryName(ListAll) != QueryName(ListFilesystems)
    ensures QueryName(ListAll) != QueryName(ListOptions) && QueryName(ListOne) != QueryName(ListFilesystems)
    ensures QueryName(ListOne) != QueryName(ListOptions) && QueryName(ListFilesystems) != QueryName(ListOptions)
  {
    assert |QueryName(ListAll)| == 26 && |QueryName(ListOne)| == 21;
    assert |QueryName(ListFilesystems)| == 26 && |QueryName(ListOptions)| == 33;
    assert QueryName(ListAll)[5] == 'a' && QueryName(ListFilesystems)[5] == 's';
  }

  /** The kinds of messages do not overlap. */
  lemma KindsApart(m: Message, q: Query)
    ensures Opens(m, q) ==> !Refused(m) && !Succeeded(m) && !Notification(m)
    ensures Opens(m, q) ==> forall r :: r != q ==> !Opens(m, r)
    ensures Closes(m, q) ==> !ItemOf(m, q)
  {
    NamesApart();
    assert STARTED[0] == 's' && STARTED[1] == 't' && SUCCEEDED[1] == 'u' && FAILED[0] == 'f' && ADDED[0] == 'r';
    assert FINISHED[0] == 'f' && ITEM[0] == 'r' && "supported_filesystems_list"[0] == 's';
  }

  lemma OpenedBy(m: Message, q: Query)
    requires Opens(m, q)
    ensures Next(Idle, m) == Some(Inside(q))
  {
    KindsApart(m, q);
  }

  lemma {:induction false} RunAppend(p: Phase, a: seq<Message>, b: seq<Message>)
    ensures Run(p, a + b) == match Run(p, a) case None => None case Some(q) => Run(q, b)
    decreases |a|
  {
    if a == [] {
      assert a + b == b;
    } else {
      assert (a + b)[0] == a[0] && (a + b)[1..] == a[1..] + b;
      match Next(p, a[0])
      case None =>
      case Some(q) => RunAppend(q, a[1..], b);
    }
  }

  lemma {:induction false} RunItems(q: Query, items: seq<Message>)
    requires forall i :: 0 <= i < |items| ==> ItemOf(items[i], q)
    ensures Run(Inside(q), items) == Some(Inside(q))
    decreases |items|
  {
    if items != [] {
      KindsApart(items[0], q);
      RunItems(q, items[1..]);
    }
  }

  lemma RunMessages(r: Reply)
    requires Whole(r)
    ensures Run(Idle, Messages(r)) == Some(Idle)
  {
    match r
    case One(m) =>
      forall q: Query { KindsApart(m, q); }
      assert [m][1..] == [];
    case Block(q, open, items, close) =>
      OpenedBy(open, q);
      RunItems(q, items);
      assert [close][1..] == [];
      assert ([open] + items)[1..] == items;
      RunAppend(Idle, [open] + items, [close]);
  }

  lemma {:induction false} RunStream(replies: seq<Reply>)
    requires AllWhole(replies)
    ensures Run(Idle, Stream(replies)) == Some(Idle)
  {
    if replies != [] {
      RunMessages(replies[0]);
      RunStream(replies[1..]);
      RunAppend(Idle, Messages(replies[0]), Stream(replies[1..]));
    }
  }

  lemma SomeClose(q: Query) returns (close: Message)
    ensures Closes(close, q)
  {
    close := Message(FINISHED,
      if q.ListAll? || q.ListFilesystems? then [Some(QueryName(q))] else [Some(QueryName(q)), Some("")]);
  }

  lemma NextMeans(p: Phase, m: Message)
    requires Next(p, m).Some?
    ensures p.Idle? ==> match Next(p, m).value case Idle => Whole(One(m)) case Inside(q) => Opens(m, q)
    ensures p.Inside? ==> match Next(p, m).value
      case Idle => Closes(m, p.query) case Inside(q) => q == p.query && ItemOf(m, q)
  {}

  lemma OneMore(r: Reply, replies: seq<Reply>)
    requires Whole(r) && AllWhole(replies)
    ensures AllWhole([r] + replies) && Stream([r] + replies) == Messages(r) + Stream(replies)
  {
    assert ([r] + replies)[1..] == replies;
  }

  /** Accepted messages, taken apart: from the middle of a block, its remaining items and its end come first. */
  lemma {:induction false} TakeApart(p: Phase, ms: seq<Message>)
    returns (items: seq<Message>, close: Message, replies: seq<Reply>, more: seq<Message>)
    requires Run(p, ms).Some?
    ensures AllWhole(replies)
    ensures p.Idle? ==> ms + more == Stream(replies)
    ensures p.Inside? ==>
      Whole(Block(p.query, SomeOpen(p.query), items, close)) && ms + more == items + [close] + Stream(replies)
    decreases |ms|
  {
    hide Next, Whole, Opens, Closes, ItemOf, AllWhole, Stream;
    if ms == [] {
      NoReplies();
      items, replies, more, close := [], [], [], Message(FINISHED, []);
      if p.Inside? {
        close := SomeClose(p.query);
        BlockWhole(p.query, SomeOpen(p.query), [], close);
        more := [close];
      }
    } else {
      var m, next := ms[0], Next(p, ms[0]).value;
      NextMeans(p, m);
      items, close, replies, more := TakeApart(next, ms[1..]);
      assert ms + more == [m] + (ms[1..] + more);
      match (p, next)
      case (Idle, Idle) =>
        OneMore(One(m), replies);
        replies := [One(m)] + replies;
      case (Idle, Inside(q)) =>
        Reopened(q, m, items, close);
        OneMore(Block(q, m, items, close), replies);
        replies := [Block(q, m, items, close)] + replies;
      case (Inside(q), Idle) =>
        items, close := [], m;
        BlockWhole(q, SomeOpen(q), [], close);
      case (Inside(q), Inside(_)) =>
        MoreItems(q, m, items, close);
        items := [m] + items;
    }
  }

  function SomeOpen(q: Query): (m: Message)
    ensures Opens(m, q)
  {
    Message(STARTED, if q.ListAll? || q.ListFilesystems? then [Some(QueryName(q))] else [Some(QueryName(q)), Some("")])
  }

  lemma NoReplies()
    ensures AllWhole([]) && Stream([]) == []
  {}

  lemma BlockWhole(q: Query, open: Message, items: seq<Message>, close: Message)
    requires Opens(open, q) && Closes(close, q) && forall i :: 0 <= i < |items| ==> ItemOf(items[i], q)
    ensures Whole(Block(q, open, items, close))
  {}

  lemma Reopened(q: Query, open: Message, items: seq<Message>, close: Message)
    requires Opens(open, q) && Whole(Block(q, SomeOpen(q), items, close))
    ensures Whole(Block(q, open, items, close))
  {}

  lemma MoreItems(q: Query, m: Message, items: seq<Message>, close: Message)
    requires ItemOf(m, q) && Whole(Block(q, SomeOpen(q), items, close))
    ensures Whole(Block(q, SomeOpen(q), [m] + items, close))
  {}

  /** The automaton accepts exactly the beginnings of streams of complete answers. */
  lemma AcceptsIffBegins(ms: seq<Message>)
    ensures Run(Idle, ms).Some? <==> Begins(ms)
  {
    if Run(Idle, ms).Some? {
      var items, close, replies, more := TakeApart(Idle, ms);
      assert AllWhole(replies) && Stream(replies) == ms + more;
    }
    if Begins(ms) {
      var replies, more :| AllWhole(replies) && Stream(replies) == ms + more;
      RunStream(replies);
      RunAppend(Idle, ms, more);
    }
  }
}
