/** The daemon's main loop, as far as its clients are concerned: the client list and the poll array that is
    filled from it at the head of every iteration. */
module EventLoop {
  import opened Basics
  import opened Clients

  /** The monitor, the listening socket and the mount table come before the clients. */
  const DEFAULT_COUNT: nat := 3

  /** What poll says about a client, and whether the daemon drops it while it serves it. */
  datatype Ready = Quiet | HungUp | Readable(drops: bool)

  predicate Leaves(r: Ready) { r.HungUp? || (r.Readable? && r.drops) }

  /** The clients that are still there after each was served. */
  function Kept(clients: seq<int>, ready: seq<Ready>): seq<int>
    requires |ready| == |clients|
  {
    if clients == [] then []
    else (if Leaves(ready[0]) then [] else [clients[0]]) + Kept(clients[1..], ready[1..])
  }

  predicate Distinct(s: seq<int>) { forall i, j :: 0 <= i < j < |s| ==> s[i] != s[j] }

  lemma {:induction false} KeptOnes(clients: seq<int>, ready: seq<Ready>)
    requires |ready| == |clients|
    ensures forall fd :: fd in Kept(clients, ready) ==> fd in clients
    ensures Distinct(clients) ==> Distinct(Kept(clients, ready))
  {
    if clients != [] {
      KeptOnes(clients[1..], ready[1..]);
      var k := Kept(clients[1..], ready[1..]);
      forall i | 0 <= i < |k| ensures k[i] != clients[0] || !Distinct(clients) {
        var fd := k[i];
        assert fd in k;
        assert fd in clients[1..];
      }
    }
  }

  lemma {:induction false} KeptOneMore(clients: seq<int>, ready: seq<Ready>, n: nat)
    requires |ready| == |clients| && n < |clients|
    ensures Kept(clients[..n + 1], ready[..n + 1]) ==
      Kept(clients[..n], ready[..n]) + if Leaves(ready[n]) then [] else [clients[n]]
  {
    if n > 0 {
      KeptOneMore(clients[1..], ready[1..], n - 1);
      assert clients[..n + 1][1..] == clients[1..][..n] && ready[..n + 1][1..] == ready[1..][..n];
      assert clients[..n][1..] == clients[1..][..n - 1] && ready[..n][1..] == ready[1..][..n - 1];
    }
  }

  class Loop {
    const list: ClientList
    var pollfds: array<int>
    var pollfdsCount: nat
    const monitor: int
    const listener: int
    const mounts: int

    /** What holds at the head of every iteration. */
    ghost predicate Valid()
      reads this, list, list.nodes
    {
      list.Valid() && Distinct(list.Fds()) && pollfds.Length == pollfdsCount == DEFAULT_COUNT + list.count
    }

    constructor (monitor: int, listener: int, mounts: int)
      ensures Valid() && list.Fds() == [] && fresh(pollfds) && fresh(list)
    {
      this.monitor, this.listener, this.mounts := monitor, listener, mounts;
      list := new ClientList();
      pollfdsCount := DEFAULT_COUNT;
      pollfds := new int[DEFAULT_COUNT];
    }

    /** Three fixed slots, then one slot per client, all in bounds. */
    method FillPoll()
      requires Valid()
      modifies pollfds
      ensures pollfds[..] == [monitor, listener, mounts] + list.Fds()
    {
      hide Linked, Different, LinksOf;
      pollfds[0], pollfds[1], pollfds[2] := monitor, listener, mounts;
      ghost var nodes, fds := list.nodes, list.Fds();
      var client, i := list.root, 0;
      while client != null
        invariant 0 <= i <= |nodes| && client == At(nodes, i)
        invariant pollfds[..DEFAULT_COUNT + i] == [monitor, listener, mounts] + fds[..i]
        decreases |nodes| - i
      {
        NextOf(nodes, i);
        pollfds[i + DEFAULT_COUNT] := client.fd;
        assert fds[..i + 1] == fds[..i] + [client.fd];
        client, i := client.next, i + 1;
      }
      assert pollfds[..] == pollfds[..DEFAULT_COUNT + |nodes|];
      assert fds[..|nodes|] == fds;
    }

    /** One client whose slot poll has marked. A client that is not in the list would be a bug. */
    method Serve(fd: int, ready: Ready) returns (bug: bool)
      requires list.Valid() && fd in list.Fds()
      modifies list, list.Repr()
      ensures !bug && list.Valid() && list.Repr() <= old(list.Repr())
      ensures list.Fds() == if Leaves(ready) then Without(old(list.Fds()), fd) else old(list.Fds())
    {
      hide Linked, Different, LinksOf, FdsOf;
      bug := false;
      match ready
      case Quiet =>
      case HungUp => var _ := list.Remove(fd);
      case Readable(drops) =>
        var client, _, i := list.Find(fd);
        assert list.Fds()[..|list.nodes|] == list.Fds();
        if client == null { return true; }
        if drops { var _ := list.Remove(fd); }
    }

    /** Every slot that was filled, in order; `late` was accepted after that. */
    method ServeAll(ready: seq<Ready>, ghost was: seq<int>, ghost late: seq<int>) returns (bug: bool)
      requires list.Valid() && list.Fds() == was + late && Distinct(was)
      requires |late| <= 1 && (late != [] ==> late[0] !in was)
      requires pollfds.Length == pollfdsCount == DEFAULT_COUNT + |was| && |ready| == |was|
      requires pollfds[..] == [monitor, listener, mounts] + was
      modifies list, list.Repr()
      ensures !bug && list.Valid() && list.Repr() <= old(list.Repr()) && list.Fds() == Kept(was, ready) + late
    {
      hide Served, Without, Distinct, Linked, Different, LinksOf, FdsOf;
      ServedEnds(was, ready, late);
      var i := DEFAULT_COUNT;
      while i < pollfdsCount
        invariant DEFAULT_COUNT <= i <= pollfdsCount && list.Valid() && list.Repr() <= old(list.Repr())
        invariant list.Fds() == Served(was, ready, i - DEFAULT_COUNT, late)
      {
        ghost var n := i - DEFAULT_COUNT;
        assert pollfds[i] == pollfds[..][i] == was[n];
        NextSlot(was, ready, n, late);
        var wrong := Serve(pollfds[i], ready[i - DEFAULT_COUNT]);
        if wrong { return true; }
        i := i + 1;
      }
      return false;
    }

    /** One iteration: a client may be accepted, then every client that was polled is served. */
    method Iterate(accepted: Option<int>, ready: seq<Ready>) returns (bug: bool)
      requires Valid() && |ready| == list.count
      modifies this, pollfds, list, list.Repr()
      ensures !bug && Valid() && fresh(list.Repr() - old(list.Repr()))
      ensures list.Fds() == Kept(old(list.Fds()), ready) +
                            if accepted.Some? && accepted.value !in old(list.Fds()) then [accepted.value] else []
    {
      hide Kept, Distinct, Linked, Different, LinksOf, FdsOf;
      ghost var was := list.Fds();
      FillPoll();
      ghost var late := if accepted.Some? && accepted.value !in was then [accepted.value] else [];
      if accepted.Some? { var _ := list.Add(accepted.value); }
      bug := ServeAll(ready, was, late);
      if bug { return; }
      KeptWithLate(was, ready, late);
      if pollfdsCount != DEFAULT_COUNT + list.count {
        pollfdsCount := DEFAULT_COUNT + list.count;
        pollfds := new int[pollfdsCount];
      }
    }
  }

  lemma KeptWithLate(was: seq<int>, ready: seq<Ready>, late: seq<int>)
    requires |ready| == |was| && Distinct(was) && |late| <= 1 && (late != [] ==> late[0] !in was)
    ensures Distinct(Kept(was, ready) + late)
  {
    KeptOnes(was, ready);
    var k := Kept(was, ready);
    assert forall i :: 0 <= i < |k| ==> k[i] in k && k[i] in was;
  }

  /** The list after the first `n` slots were served; `late` was accepted after they were filled. */
  function Served(was: seq<int>, ready: seq<Ready>, n: nat, late: seq<int>): seq<int>
    requires |ready| == |was| && n <= |was|
  {
    Kept(was[..n], ready[..n]) + was[n..] + late
  }

  lemma ServedEnds(was: seq<int>, ready: seq<Ready>, late: seq<int>)
    requires |ready| == |was|
    ensures Served(was, ready, 0, late) == was + late && Served(was, ready, |was|, late) == Kept(was, ready) + late
  {
    assert was[..0] == [] && ready[..0] == [] && was[0..] == was;
    assert was[..|was|] == was && ready[..|was|] == ready;
  }

  /** The client of the next slot is still in the list, whatever happened to those before it. */
  lemma NextSlot(was: seq<int>, ready: seq<Ready>, n: nat, late: seq<int>)
    requires |ready| == |was| && n < |was| && Distinct(was) && |late| <= 1 && (late != [] ==> late[0] !in was)
    ensures was[n] in Served(was, ready, n, late)
    ensures Served(was, ready, n + 1, late) ==
      if Leaves(ready[n]) then Without(Served(was, ready, n, late), was[n]) else Served(was, ready, n, late)
  {
    hide Kept, Without;
    var before, after, fd := Kept(was[..n], ready[..n]), was[n + 1..] + late, was[n];
    assert was[n..] == [fd] + was[n + 1..];
    KeptOneMore(was, ready, n);
    StillDistinct(was, ready, n, late);
    assert Served(was, ready, n, late) == before + [fd] + after;
    NotBefore(before, fd, after);
    WithoutMiddle(before, fd, after);
    assert Served(was, ready, n + 1, late) == before + (if Leaves(ready[n]) then [] else [fd]) + after;
  }

  lemma NotBefore(a: seq<int>, fd: int, b: seq<int>)
    requires Distinct(a + [fd] + b)
    ensures fd !in a && fd in a + [fd] + b
  {
    var s := a + [fd] + b;
    assert s[|a|] == fd && forall i :: 0 <= i < |a| ==> s[i] == a[i];
  }

  lemma StillDistinct(was: seq<int>, ready: seq<Ready>, n: nat, late: seq<int>)
    requires |ready| == |was| && n < |was| && Distinct(was) && |late| <= 1 && (late != [] ==> late[0] !in was)
    ensures Distinct(Kept(was[..n], ready[..n]) + was[n..] + late)
  {
    hide Kept;
    KeptOnes(was[..n], ready[..n]);
    var k, tail := Kept(was[..n], ready[..n]), was[n..];
    assert Distinct(was[..n]) && Distinct(tail);
    forall fd | fd in k ensures fd !in tail && fd in was { assert fd in was[..n]; }
    forall fd | fd in tail ensures fd in was {}
    Joined(k, tail);
    if late != [] { Joined(k + tail, late); } else { assert k + tail + late == k + tail; }
  }

  lemma Joined(a: seq<int>, b: seq<int>)
    requires Distinct(a) && Distinct(b) && forall fd :: fd in a ==> fd !in b
    ensures Distinct(a + b)
  {
    forall i, j | 0 <= i < |a| && 0 <= j < |b| ensures a[i] != b[j] { assert a[i] in a && b[j] in b; }
  }
}
