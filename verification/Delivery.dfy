/** What the client library makes of the daemon's notifications before the application sees them: it passes on one line
    after another, and ends the handle at the first that is ill-formed. */
module Delivery {
  import opened Basics
  import opened Forests
  import opened Media
  import opened Replica
  import Replies

  /** The lines that the application gets while no call is going on. */
  function Delivered(lines: seq<Message>): seq<Message> {
    if lines == [] || !Replies.Notification(lines[0]) then [] else [lines[0]] + Delivered(lines[1..])
  }

  /** A note whose line the library accepts. Devices of unknown type are not announced at all. */
  predicate Accepted(n: Note) {
    match n
    case Added(_, _, m) => m.kind.UnknownKind? || Transmissible(m)
    case Changed(_, _, m) => m.kind.UnknownKind? || Transmissible(m)
    case _ => true
  }

  predicate AllAccepted(notes: seq<Note>) { forall i :: 0 <= i < |notes| ==> Accepted(notes[i]) }

  /** The part of a log before the first note that ends the handle. */
  function Passed(notes: seq<Note>): seq<Note> {
    if notes == [] || !Accepted(notes[0]) then [] else [notes[0]] + Passed(notes[1..])
  }

  /** A line is a notification that leaves the library's automaton where it is, or it is refused. */
  lemma WireAccepted(n: Note)
    ensures Wire(n) == [] ==> Accepted(n)
    ensures Wire(n) != [] ==>
      |Wire(n)| == 1
      && (Replies.Notification(Wire(n)[0]) <==> Accepted(n))
      && Replies.Next(Replies.Idle, Wire(n)[0]) == if Accepted(n) then Some(Replies.Idle) else None
  {
    hide ValidDescription, Transmissible;
    NotificationNamesDiffer();
    if Wire(n) != [] { NamesApart(Wire(n)[0].cmd); }
    if n.Added? || n.Changed? { DescriptionRoundTrip(n.parent, n.path, n.media); }
  }

  lemma NamesApart(c: string)
    requires c == ADDED || c == REMOVED || c == CHANGED || c == MOUNTED || c == UNMOUNTED
    ensures c != Replies.STARTED && c != Replies.FAILED && c != Replies.SUCCEEDED
  {
    assert c[0] == 'r' && Replies.STARTED[0] == 's' && Replies.FAILED[0] == 'f' && Replies.SUCCEEDED[0] == 's';
  }

  /** What is delivered are the lines of the notes before the first one that is refused. */
  lemma {:induction false} DeliveredWires(notes: seq<Note>)
    ensures Delivered(Wires(notes)) == Wires(Passed(notes))
  {
    if notes != [] {
      hide Wire, Accepted, Replies.Notification;
      var n, more := notes[0], notes[1..];
      WireAccepted(n);
      DeliveredWires(more);
      assert Wires(notes) == Wire(n) + Wires(more);
      if Accepted(n) {
        assert Passed(notes)[1..] == Passed(more);
        if Wire(n) == [] {
          assert Wires(notes) == Wires(more);
        } else {
          assert Wires(notes)[0] == Wire(n)[0] && Wires(notes)[1..] == Wires(more);
        }
      } else {
        assert Wires(notes)[0] == Wire(n)[0];
      }
    }
  }

  /** The handle survives a log exactly if all of its lines are accepted; then all of them are delivered. */
  lemma {:induction false} SurvivesIff(notes: seq<Note>)
    ensures Replies.Run(Replies.Idle, Wires(notes)) == Some(Replies.Idle) <==> AllAccepted(notes)
    ensures AllAccepted(notes) <==> Passed(notes) == notes
    ensures AllAccepted(notes) <==> Delivered(Wires(notes)) == Wires(notes)
  {
    if notes != [] {
      hide Wire, Accepted, Replies.Notification, Replies.Next;
      var n, more := notes[0], notes[1..];
      WireAccepted(n);
      SurvivesIff(more);
      AllAcceptedParts(n, more);
      assert notes == [n] + more && Wires(notes) == Wire(n) + Wires(more);
      if Wire(n) == [] {
        assert Wires(notes) == Wires(more);
      } else {
        assert Wires(notes)[0] == Wire(n)[0] && Wires(notes)[1..] == Wires(more);
      }
    }
  }

  lemma AllAcceptedParts(n: Note, more: seq<Note>)
    ensures AllAccepted([n] + more) <==> Accepted(n) && AllAccepted(more)
  {
    hide Accepted;
    var notes := [n] + more;
    assert forall i :: 0 <= i < |more| ==> notes[i + 1] == more[i];
    assert notes[0] == n;
  }

  /** A log that clients can read is delivered as it is. */
  lemma ReadableDelivered(notes: seq<Note>)
    requires forall i :: 0 <= i < |notes| ==> Readable(notes[i])
    ensures AllAccepted(notes) && Delivered(Wires(notes)) == Wires(notes)
  {
    SurvivesIff(notes);
  }

  /** If only its last note can be refused, everything readable in a log arrives. */
  lemma {:induction false} HeardInTime(notes: seq<Note>)
    requires forall i :: 0 <= i < |notes| - 1 ==> Accepted(notes[i])
    ensures Heard(Passed(notes)) == Heard(notes)
  {
    hide Accepted;
    if notes != [] {
      if Accepted(notes[0]) {
        HeardInTime(notes[1..]);
        assert Passed(notes)[1..] == Passed(notes[1..]);
      } else {
        assert notes[1..] == [];
        RefusedUnreadable(notes[0]);
      }
    }
  }

  lemma RefusedUnreadable(n: Note)
    ensures Readable(n) ==> Accepted(n)
  {}

  /** Processing what is delivered of any log has exactly the effect of the readable notes before the first one that
      ends the handle. */
  lemma ProcessDelivered(f: Forest<Device>, notes: seq<Note>)
    ensures ProcessAll(f, Commands(Delivered(Wires(notes)))) == ApplyAll(f, Heard(Passed(notes)))
  {
    DeliveredWires(notes);
    ProcessHeard(f, Passed(notes));
  }

  lemma ProcessReadable(f: Forest<Device>, notes: seq<Note>)
    requires forall i :: 0 <= i < |notes| ==> Readable(notes[i])
    ensures Delivered(Wires(notes)) == Wires(notes) && ProcessAll(f, Commands(Wires(notes))) == ApplyAll(f, notes)
  {
    ReadableDelivered(notes);
    ProcessAllReceived(f, notes);
  }
}
