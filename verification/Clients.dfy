/** The daemon's doubly linked list of client connections. */
module Clients {

  class Client {
    const fd: int
    var next: Client?
    var prev: Client?

    constructor (fd: int)
      ensures this.fd == fd && next == null && prev == null
    {
      this.fd := fd;
      next, prev := null, null;
    }
  }

  /** The descriptors without the first occurrence of one of them. */
  function Without(s: seq<int>, fd: int): seq<int> {
    if s == [] then [] else if s[0] == fd then s[1..] else [s[0]] + Without(s[1..], fd)
  }

  lemma {:induction false} WithoutMiddle(a: seq<int>, fd: int, b: seq<int>)
    requires fd !in a
    ensures Without(a + [fd] + b, fd) == a + b
  {
    var s := a + [fd] + b;
    if a == [] {
      assert s[1..] == b;
    } else {
      assert s[0] == a[0] && s[1..] == a[1..] + [fd] + b;
      WithoutMiddle(a[1..], fd, b);
    }
  }

  ghost function FdsOf(nodes: seq<Client>): (fds: seq<int>)
    ensures |fds| == |nodes|
  {
    seq(|nodes|, i requires 0 <= i < |nodes| => nodes[i].fd)
  }

  /** The node at a position, or null outside of the list. */
  ghost function At(nodes: seq<Client>, i: int): Client? { if 0 <= i < |nodes| then nodes[i] else null }

  ghost predicate Different(nodes: seq<Client>) { forall i, j :: 0 <= i < j < |nodes| ==> nodes[i] != nodes[j] }

  ghost function Cut(nodes: seq<Client>, i: nat): seq<Client>
    requires i < |nodes|
  {
    nodes[..i] + nodes[i + 1..]
  }

  lemma CutAt(nodes: seq<Client>, i: nat, j: int)
    requires i < |nodes|
    ensures At(Cut(nodes, i), j) == if j < i then At(nodes, j) else At(nodes, j + 1)
  {}

  lemma CutContents(nodes: seq<Client>, i: nat)
    requires i < |nodes| && Different(nodes)
    ensures |Cut(nodes, i)| == |nodes| - 1 && Different(Cut(nodes, i))
    ensures forall n :: n in Cut(nodes, i) ==> n in nodes
    ensures FdsOf(Cut(nodes, i)) == FdsOf(nodes)[..i] + FdsOf(nodes)[i + 1..]
  {}

  datatype Pointers = Pointers(next: Client?, prev: Client?)

  ghost function LinksOf(nodes: seq<Client>): map<Client, Pointers>
    reads nodes
  {
    map n | n in nodes :: Pointers(n.next, n.prev)
  }

  /** The links run through the nodes in both directions. */
  ghost predicate Linked(h: map<Client, Pointers>, nodes: seq<Client>) {
    forall i {:trigger nodes[i]} :: 0 <= i < |nodes| ==>
      nodes[i] in h && h[nodes[i]] == Pointers(At(nodes, i + 1), At(nodes, i - 1))
  }

  /** Only the neighbours of the node are written: they are linked to each other. */
  ghost predicate Bridged(h: map<Client, Pointers>, h': map<Client, Pointers>, nodes: seq<Client>, i: nat) {
    forall n :: n in nodes ==>
      n in h && n in h'
      && h'[n] == Pointers(if n == At(nodes, i - 1) then At(nodes, i + 1) else h[n].next,
                           if n == At(nodes, i + 1) then At(nodes, i - 1) else h[n].prev)
  }

  lemma CutLinked(h: map<Client, Pointers>, h': map<Client, Pointers>, nodes: seq<Client>, i: nat)
    requires i < |nodes| && Different(nodes) && Linked(h, nodes) && Bridged(h, h', nodes, i)
    ensures Linked(h', Cut(nodes, i))
  {
    hide Cut, At;
    CutContents(nodes, i);
    var cut := Cut(nodes, i);
    forall j | 0 <= j < |cut| ensures cut[j] in h' && h'[cut[j]] == Pointers(At(cut, j + 1), At(cut, j - 1)) {
      CutAt(nodes, i, j);
      CutAt(nodes, i, j + 1);
      CutAt(nodes, i, j - 1);
      AtMeans(cut, j, 0);
      AtMeans(nodes, if j < i then j else j + 1, i - 1);
      AtMeans(nodes, if j < i then j else j + 1, i + 1);
    }
  }

  lemma AtMeans(nodes: seq<Client>, j: nat, k: int)
    requires j < |nodes| && Different(nodes)
    ensures At(nodes, j) == nodes[j] && (nodes[j] == At(nodes, k) <==> j == k)
  {}

  /** A node at the end: only the last one before it is written. */
  ghost predicate Appended(h: map<Client, Pointers>, h': map<Client, Pointers>, nodes: seq<Client>, x: Client) {
    x in h' && h'[x] == Pointers(null, At(nodes, |nodes| - 1))
    && forall n :: n in nodes ==>
      n in h && n in h' && h'[n] == if n == At(nodes, |nodes| - 1) then h[n].(next := x) else h[n]
  }

  lemma AppendLinked(h: map<Client, Pointers>, h': map<Client, Pointers>, nodes: seq<Client>, x: Client)
    requires Different(nodes) && x !in nodes && Linked(h, nodes) && Appended(h, h', nodes, x)
    ensures Linked(h', nodes + [x])
  {
    hide At, Different;
    var all, n := nodes + [x], |nodes|;
    forall i {:trigger all[i]} | 0 <= i < |all| ensures all[i] in h'
      && h'[all[i]] == Pointers(At(all, i + 1), At(all, i - 1)) {
      AppendAt(nodes, x, i + 1);
      AppendAt(nodes, x, i - 1);
      if i < n {
        assert all[i] == nodes[i];
        AtMeans(nodes, i, n - 1);
      } else {
        NoneAt(nodes, i + 1);
      }
    }
  }

  lemma AppendAt(nodes: seq<Client>, x: Client, k: int)
    ensures At(nodes + [x], k) == if k == |nodes| then x else At(nodes, k)
  {}

  lemma NoneAt(nodes: seq<Client>, k: int)
    requires k < 0 || k >= |nodes|
    ensures At(nodes, k) == null
  {}

  lemma AppendShape(nodes: seq<Client>, x: Client)
    requires Different(nodes) && x !in nodes
    ensures Different(nodes + [x]) && At(nodes + [x], 0) == if nodes == [] then x else At(nodes, 0)
    ensures FdsOf(nodes + [x]) == FdsOf(nodes) + [x.fd]
  {}

  ghost function Only(n: Client?): set<Client> { if n == null then {} else {n} }

  class ClientList {
    var root: Client?
    var count: nat
    ghost var nodes: seq<Client>

    ghost function Repr(): set<Client>
      reads this`nodes
    {
      set n | n in nodes
    }

    ghost predicate Valid()
      reads this, nodes
    {
      count == |nodes| && Different(nodes) && root == At(nodes, 0) && Linked(LinksOf(nodes), nodes)
    }

    ghost function Fds(): seq<int>
      reads this`nodes
    {
      FdsOf(nodes)
    }

    constructor ()
      ensures Valid() && Fds() == [] && Repr() == {}
    {
      root, count, nodes := null, 0, [];
    }

    /** The first client with the descriptor, and the one before it or the last one. */
    method Find(fd: int) returns (client: Client?, last: Client?, ghost i: nat)
      requires Valid()
      ensures i <= |nodes| && client == At(nodes, i) && last == At(nodes, i - 1)
      ensures fd !in Fds()[..i] && (i < |nodes| ==> Fds()[i] == fd)
    {
      hide Linked, Different, LinksOf;
      client, last, i := root, null, 0;
      while client != null && client.fd != fd
        invariant i <= |nodes| && client == At(nodes, i) && last == At(nodes, i - 1) && fd !in Fds()[..i]
        decreases |nodes| - i
      {
        NextOf(nodes, i);
        assert Fds()[..i + 1] == Fds()[..i] + [client.fd];
        client, last, i := client.next, client, i + 1;
      }
    }

    /** The new client is linked behind the last one, if there is one. */
    method Attach(x: Client, last: Client?)
      requires Valid() && x !in nodes && last == At(nodes, |nodes| - 1) && x.next == null && x.prev == null
      modifies this`root, x, Only(last)
      ensures Appended(old(LinksOf(nodes)), LinksOf(nodes + [x]), nodes, x)
        && root == if last == null then x else old(root)
    {
      hide Linked, Different;
      if last != null {
        last.next := x;
        x.prev := last;
      } else {
        root := x;
      }
    }

    /** A new client goes to the end, unless its descriptor is there already. */
    method Add(fd: int) returns (added: bool)
      requires Valid()
      modifies this, Repr()
      ensures Valid() && fresh(Repr() - old(Repr())) && added == (fd !in old(Fds()))
      ensures Fds() == old(Fds()) + if added then [fd] else []
    {
      hide Linked, Different, LinksOf, Appended, FdsOf;
      var client, last, i := Find(fd);
      assert i == |nodes| ==> Fds()[..i] == Fds();
      if client != null { return false; }
      ghost var h := LinksOf(nodes);
      assert allocated(nodes);
      var x := new Client(fd);
      assert x !in nodes;
      Attach(x, last);
      AppendShape(nodes, x);
      AppendLinked(h, LinksOf(nodes + [x]), nodes, x);
      nodes, count := nodes + [x], count + 1;
      return true;
    }

    /** The client at the position is left out by its neighbours. */
    method Unlink(client: Client, ghost i: nat)
      requires Valid() && i < |nodes| && client == nodes[i]
      modifies Repr()
      ensures Bridged(old(LinksOf(nodes)), LinksOf(nodes), nodes, i)
    {
      hide Linked, Different;
      NextOf(nodes, i);
      if client.prev != null { client.prev.next := client.next; }
      if client.next != null { client.next.prev := client.prev; }
    }

    method Remove(fd: int) returns (removed: bool)
      requires Valid()
      modifies this, Repr()
      ensures Valid() && Repr() <= old(Repr()) && removed == (fd in old(Fds()))
      ensures Fds() == if removed then Without(old(Fds()), fd) else old(Fds())
    {
      hide Cut, Without, Linked, Bridged, FdsOf, Different, LinksOf;
      var client, last, i := Find(fd);
      ghost var fds, h, was := Fds(), LinksOf(nodes), nodes;
      if client == null {
        assert fds[..i] == fds;
        return false;
      }
      CutContents(nodes, i);
      CutAt(nodes, i, 0);
      NextOf(nodes, i);
      var next := client.next;
      Unlink(client, i);
      CutLinked(h, LinksOf(nodes), nodes, i);
      if client == root { root := next; }
      nodes, count := Cut(nodes, i), count - 1;
      StillLinked(was, nodes);
      assert fds == fds[..i] + [fd] + fds[i + 1..];
      WithoutMiddle(fds[..i], fd, fds[i + 1..]);
      return true;
    }
  }

  lemma NextOf(nodes: seq<Client>, i: nat)
    requires i < |nodes| && Linked(LinksOf(nodes), nodes) && Different(nodes)
    ensures nodes[i].next == At(nodes, i + 1) && nodes[i].prev == At(nodes, i - 1)
      && (nodes[i] == At(nodes, 0) <==> i == 0)
  {}

  lemma StillLinked(all: seq<Client>, nodes: seq<Client>)
    requires (forall n :: n in nodes ==> n in all) && Linked(LinksOf(all), nodes)
    ensures Linked(LinksOf(nodes), nodes)
  {}
}
