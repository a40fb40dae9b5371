/** The handle of the client library: reading replies, and the listing calls. */
module Library {
  import opened Basics
  import opened Forests
  import opened Media
  import opened Shapes
  import opened Listing
  import opened Replies
  import opened Calls
  import opened Links
  import opened DeviceTree
  import opened TreeListing

  datatype Code = Going | Leaving | Failing

  class Handle {
    var phase: Phase
    var result: Result
    /** Notifications passed to the application. */
    var delivered: seq<Message>
    /** The worker was told to stop. */
    var stopped: bool

    constructor ()
      ensures phase.Idle? && result.Okay? && delivered == [] && !stopped
    {
      phase, result, delivered, stopped := Idle, Okay, [], false;
    }

    /** Reads a message nobody is waiting for; between listings a notification goes to the application. */
    method HandleCmd(m: Message) returns (ok: bool)
      modifies this`phase, this`delivered
      ensures ok == Next(old(phase), m).Some?
      ensures phase == if ok then Next(old(phase), m).value else old(phase)
      ensures delivered == old(delivered) + if old(phase).Idle? && Notification(m) then [m] else []
    {
      NotificationsApart(m);
      match phase {
      case Idle =>
        if Refused(m) || Succeeded(m) { return true; }
        if m.cmd == STARTED {
          if Generic(m, ListAll) { phase := Inside(ListAll); return true; }
          else if Generic(m, ListOne) { phase := Inside(ListOne); return true; }
          else if Generic(m, ListFilesystems) { phase := Inside(ListFilesystems); return true; }
          else if Generic(m, ListOptions) { phase := Inside(ListOptions); return true; }
        }
        if Notification(m) { delivered := delivered + [m]; return true; }
      case Inside(q) =>
        if Closes(m, q) { phase := Idle; return true; }
        if ItemOf(m, q) { return true; }
      }
      return false;
    }

    /** One message of a listing call. */
    method ProcessListing(t: DeviceTree, started: bool, m: Message, asked: Option<string>)
      returns (code: Code, started': bool, ghost more: set<MediaNode>)
      requires t.Valid()
      modifies this`phase, this`result, this`delivered
      modifies t`root, t`shape, Nodes(t.shape)`next, Nodes(t.shape)`prev, Nodes(t.shape)`kids
      ensures t.Valid() && fresh(more) && Nodes(t.shape) == old(Nodes(t.shape)) + more
      ensures match Process(Progress(old(phase), started, old(t.Devices())), m, asked)
              case Goes(c) => code.Going? && result == old(result) && Progress(phase, started', t.Devices()) == c
              case Exits(r, c) => code.Leaving? && result == r && Progress(phase, started', t.Devices()) == c
              case Breaks(r, c) => code.Failing? && result == r && Progress(phase, started', t.Devices()) == c
    {
      hide Nodes, Distinct, Linked, Contents, LinksOf, Next, Place, ValidDescription, ClosesFor, StartsFor,
        RefusesFor, Notification;
      started', more := started, {};
      assert allocated(Nodes(t.shape));
      if started {
        if ClosesFor(m, asked) {
          result, phase := Okay, Idle;
          return Leaving, started, {};
        }
        if IsItem(m) {
          var ok;
          ok, more := PlaceItem(t, m.args, asked);
          if ok { return Going, started, more; }
        }
        result := InvalidState;
        return Failing, started, more;
      }
      if phase.Idle? {
        if StartsFor(m, asked) {
          phase := Inside(Asking(asked));
          return Going, true, {};
        } else if RefusesFor(m, asked) {
          result := CommandFailed;
          return Leaving, started, {};
        }
      }
      var ok := HandleCmd(m);
      if !ok {
        result := FatalIoError;
        return Failing, started, {};
      }
      return Going, started, {};
    }

    method MeetEvent(t: DeviceTree, started: bool, e: Event, asked: Option<string>)
      returns (code: Code, started': bool, ghost more: set<MediaNode>)
      requires t.Valid()
      modifies this`phase, this`result, this`delivered
      modifies t`root, t`shape, Nodes(t.shape)`next, Nodes(t.shape)`prev, Nodes(t.shape)`kids
      ensures t.Valid() && fresh(more) && Nodes(t.shape) == old(Nodes(t.shape)) + more
      ensures match Meet(old(result), Progress(old(phase), started, old(t.Devices())), e, asked)
              case Goes(c) => code.Going? && result == old(result) && Progress(phase, started', t.Devices()) == c
              case Exits(r, c) => code.Leaving? && result == r && Progress(phase, started', t.Devices()) == c
              case Breaks(r, c) => code.Failing? && result == r && Progress(phase, started', t.Devices()) == c
    {
      hide Nodes, Distinct, Linked, Contents, LinksOf, Process;
      started', more := started, {};
      match e {
      case Garbled => code := Failing;
      case Unparsed => result, code := InvalidState, Failing;
      case Unsent => result, code := IoError, Failing;
      case Stopped(why) => result, code := why, if Invalid(why) then Failing else Leaving;
      case Line(m) => code, started', more := ProcessListing(t, started, m, asked);
      }
    }

    /** A listing call; it waits as long as no event ends it. A handle that broke before refuses at once. */
    method ListDevices(asked: Option<string>, events: seq<Event>) returns (answer: Option<Result>, tree: DeviceTree)
      modifies this
      ensures tree.Valid() && fresh(tree)
      ensures Invalid(old(result)) ==>
        answer == Some(InvalidState) && tree.Devices() == Nil && result == old(result) && phase == old(phase)
      ensures !Invalid(old(result)) ==>
        match Call(old(result), Fresh(old(phase)), events, asked)
        case Waiting(c) => answer == None && phase == c.phase && stopped == old(stopped)
        case Ended(r, f, p, broken) =>
          answer == Some(r) && result == r && tree.Devices() == f && phase == p && stopped == (old(stopped) || broken)
    {
      hide Nodes, Distinct, Linked, Contents, LinksOf, Meet, Acceptable;
      ghost var prior, outcome := result, Call(result, Fresh(phase), events, asked);
      tree := new DeviceTree();
      if Invalid(result) { return Some(InvalidState), tree; }
      var started, i := false, 0;
      while i < |events|
        decreases |events| - i
        invariant i <= |events| && fresh(tree) && fresh(Nodes(tree.shape)) && tree.Valid()
        invariant result == prior && stopped == old(stopped)
        invariant outcome == Call(prior, Progress(phase, started, tree.Devices()), events[i..], asked)
      {
        assert events[i..][1..] == events[i + 1..];
        var code;
        ghost var more;
        code, started, more := MeetEvent(tree, started, events[i], asked);
        if !code.Going? {
          assert allocated(Nodes(tree.shape));
          tree := Conclude(tree, started, asked, code.Leaving?);
          return Some(result), tree;
        }
        i := i + 1;
      }
      return None, tree;
    }

    /** The end of a call: the result tree survives only a success, and a failure also stops the worker. */
    method Conclude(t: DeviceTree, started: bool, asked: Option<string>, leaving: bool) returns (tree: DeviceTree)
      requires t.Valid()
      modifies this`result, this`stopped
      ensures tree.Valid() && (tree == t || fresh(tree))
      ensures var o := if leaving then Exit(old(result), Progress(phase, started, old(t.Devices())), asked)
                       else Ended(old(result), Nil, phase, true);
        o == Ended(result, tree.Devices(), phase, o.broken) && stopped == (old(stopped) || o.broken)
    {
      hide Nodes, Linked, Distinct, Contents, LinksOf, Acceptable;
      assert allocated(Nodes(t.shape));
      tree := t;
      if leaving {
        var fine := Leave(t, started, asked);
        if fine && result.Okay? { return t; }
        if fine { return new DeviceTree(); }
      }
      stopped := true;
      tree := new DeviceTree();
    }

    /** A success without its listing is no success. */
    method Leave(t: DeviceTree, started: bool, asked: Option<string>) returns (fine: bool)
      requires t.Valid()
      modifies this`result
      ensures fine == (old(result).Okay? ==> started && Acceptable(t.Devices(), asked))
      ensures result == if fine then old(result) else InvalidState
    {
      FirstRoot(t);
      fine := !result.Okay? || (started
        && (asked.None? || (t.root != null && (asked.value == ROOT_PATH || t.root.next == null))));
      if !fine { result := InvalidState; }
    }
  }

  lemma FirstRoot(t: DeviceTree)
    requires t.Valid()
    ensures t.root == null <==> t.Devices().Nil?
    ensures t.root != null ==> (t.root.next == null <==> t.Devices().next.Nil?)
  {
    var s, c := t.shape, CellsOf(Nodes(t.shape));
    EmptyContents(c);
    if s.Link? {
      HeadLinks(s, null);
      SplitContents(c, s);
      if s.next.Link? { SplitContents(c, s.next); }
    }
  }

  lemma NotificationsApart(m: Message)
    ensures Notification(m) ==> !Refused(m) && !Succeeded(m) && m.cmd != STARTED
  {
    assert ADDED[0] == 'r' && STARTED[0] == 's' && SUCCEEDED[0] == 's' && FAILED[0] == 'f';
  }
}
