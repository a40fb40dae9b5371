/** Listings on the linked list: the daemon prints it, the library builds its own from the lines. */
module TreeListing {
  import opened Basics
  import opened Forests
  import opened Media
  import opened Shapes
  import opened Listing
  import opened Links
  import opened DeviceTree
  import opened MountCheck
  import opened Replies
  import opened Calls

  // ----- the daemon prints -----

  ghost predicate Above(x: MediaNode, path: string)
    reads x, x.parent
  {
    path == if x.parent == null then ROOT_PATH else x.parent.path
  }

  /** A device, then its children. */
  method PrintEach(x: MediaNode, ghost k: MediaShape, ghost h: LinkMap, ghost c: CellMap, ghost parentPath: string)
    returns (lines: seq<Message>, complete: bool)
    requires x.kids == First(k) && Scope(h, k, x, null) && Describes(c, Nodes(k)) && Describes(c, {x})
      && Nodes(k) <= c.Keys
    requires Above(x, parentPath)
    ensures Output(lines, complete) == Print(Preorder(Node(c[x].path, c[x].data, Contents(c, k), Nil), parentPath))
    decreases Size(k), 1
  {
    hide Scope, Nodes, Contents, Describe;
    PrintParts(Node(c[x].path, c[x].data, Contents(c, k), Nil), parentPath);
    NoLines(c);
    var m := x.Data();
    lines := Describe(ITEM, if x.parent == null then ROOT_PATH else x.parent.path, x.path, m);
    if lines == [] { return lines, false; }
    var below;
    below, complete := PrintSiblings(x.kids, k, h, c, x, null);
    lines := lines + below;
  }

  method PrintSiblings(first: MediaNode?, ghost s: MediaShape, ghost h: LinkMap, ghost c: CellMap,
                       parent: MediaNode?, ghost prev: MediaNode?)
    returns (lines: seq<Message>, complete: bool)
    requires first == First(s) && Scope(h, s, parent, prev) && Describes(c, Nodes(s)) && Nodes(s) <= c.Keys
    ensures Output(lines, complete)
      == Print(Preorder(Contents(c, s), if parent == null then ROOT_PATH else parent.path))
    decreases Size(s), 0
  {
    hide Scope, Nodes, Size, Contents, Describes, Describe, Preorder, Print, Then;
    ThenUnit(Print(Preorder(Contents(c, s), if parent == null then ROOT_PATH else parent.path)));
    ghost var at := if parent == null then ROOT_PATH else parent.path;
    var iter := first;
    lines := [];
    ghost var rest, before := s, prev;
    while iter != null
      invariant iter == First(rest) && Size(rest) <= Size(s) && Scope(h, rest, parent, before)
      invariant Nodes(rest) <= c.Keys && Describes(c, Nodes(rest))
      invariant Print(Preorder(Contents(c, s), at)) == Then(Output(lines, true), Print(Preorder(Contents(c, rest), at)))
      decreases Size(rest)
    {
      ScopeParts(h, rest, parent, before);
      DescribesParts(c, rest);
      SplitContents(c, rest);
      ParentKnown(h, rest, parent, before);
      PrintSplit(Contents(c, rest), at);
      var some;
      some, complete := PrintEach(iter, rest.kids, h, c, at);
      ThenStep(lines, Output(some, complete), Print(Preorder(Contents(c, rest.next), at)));
      lines := lines + some;
      if !complete { return; }
      iter, rest, before := iter.next, rest.next, iter;
    }
    NoLines(c);
    ThenUnit(Output(lines, true));
    complete := true;
  }

  lemma ThenUnit(a: Output)
    ensures Then(Output([], true), a) == a && Then(Output(a.lines, true), Output([], true)) == Output(a.lines, true)
  {}

  lemma ThenStep(lines: seq<Message>, a: Output, b: Output)
    ensures Then(Output(lines, true), Then(a, b)) ==
      if a.complete then Then(Output(lines + a.lines, true), b) else Output(lines + a.lines, false)
  {}

  /** The listing commands of the daemon. */
  method AnswerList(t: DeviceTree, asked: Option<string>) returns (lines: seq<Message>, complete: bool)
    requires t.Valid()
    ensures Output(lines, complete) == Answer(t.Devices(), asked)
  {
    hide Nodes, Linked, Distinct, Contents, LinksOf, CellsOf, FindNode, KidsOf, Preorder, Print, Subtree, ParentOf,
      List, Paths;
    SnapshotKeys(Nodes(t.shape));
    ghost var s, c := t.shape, CellsOf(Nodes(t.shape));
    TracesAll(Nodes(s), Nodes(s));
    if asked.None? || asked.value == ROOT_PATH {
      lines, complete := PrintSiblings(t.root, s, LinksOf(Nodes(s)), c, null, null);
    } else {
      FindNodeMeaning(c, s, asked.value);
      var x := FindMedia(asked.value, t.root, s, null, null, Nodes(s));
      if x == null { return [Message(FAILED, Params(asked) + [Some("no such removable device")])], false; }
      NodeReady(s, x, asked.value);
      NodeContents(c, s, asked.value);
      ParentNow(s, asked.value);
      ghost var k := KidsOf(s, x);
      ListScope(k, x, c);
      lines, complete := PrintEach(x, k, LinksOf(Nodes(k)), c, ParentOf(t.Devices(), asked.value, ROOT_PATH));
    }
    lines := [Message(STARTED, Params(asked))] + lines;
    if complete { lines := lines + [Message(FINISHED, Params(asked))]; }
  }

  lemma ListScope(k: MediaShape, x: MediaNode, c: CellMap)
    requires List(k, x, c)
    ensures Scope(LinksOf(Nodes(k)), k, x, null) && Describes(c, Nodes(k)) && Nodes(k) <= c.Keys
  {}

  lemma ParentKnown(h: LinkMap, s: MediaShape, parent: MediaNode?, prev: MediaNode?)
    requires s.Link? && Scope(h, s, parent, prev)
    ensures s.node.parent == parent
  {}

  lemma NoLines(c: CellMap)
    ensures Contents(c, Bare) == Nil && forall at :: Print(Preorder(Nil, at)) == Output([], true)
  {}

  lemma PrintParts(f: Forest<Media>, at: string)
    requires f.Node? && f.next.Nil?
    ensures Print(Preorder(f, at)) ==
      if Describe(ITEM, at, f.path, f.data) == [] then Output([], false)
      else Then(Output(Describe(ITEM, at, f.path, f.data), true), Print(Preorder(f.kids, f.path)))
  {
    var items := [Item(at, f.path, f.data)] + Preorder(f.kids, f.path);
    assert Preorder(f, at) == items && items[1..] == Preorder(f.kids, f.path);
  }

  lemma PrintSplit(f: Forest<Media>, at: string)
    requires f.Node?
    ensures Print(Preorder(f, at))
      == Then(Print(Preorder(Node(f.path, f.data, f.kids, Nil), at)), Print(Preorder(f.next, at)))
  {
    var g := Node(f.path, f.data, f.kids, Nil);
    var first := Preorder(g, at);
    assert Preorder(g.next, at) == [];
    PrintAppend(first, Preorder(f.next, at));
    assert Preorder(f, at) == first + Preorder(f.next, at);
  }

  // ----- the library builds -----

  /** Places one described device in the result list. */
  method PlaceItem(t: DeviceTree, args: seq<Option<string>>, asked: Option<string>)
    returns (ok: bool, ghost more: set<MediaNode>)
    requires t.Valid() && ValidDescription(args)
    modifies t`root, t`shape, Nodes(t.shape)`next, Nodes(t.shape)`prev, Nodes(t.shape)`kids
    ensures t.Valid() && fresh(more) && Nodes(t.shape) == old(Nodes(t.shape)) + more
    ensures var f := Place(old(t.Devices()), args, asked);
      ok == f.Some? && t.Devices() == if ok then f.value else old(t.Devices())
  {
    hide Nodes, Linked, Distinct, Contents, LinksOf, FindNode, InsertSorted, InsertUnder, Fill, Paths;
    var at: MediaNode? := null;
    if args[0].value != ROOT_PATH && args[1] != asked {
      FindNodeMeaning(CellsOf(Nodes(t.shape)), t.shape, args[0].value);
      at := FindMedia(args[0].value, t.root, t.shape, null, null, Nodes(t.shape));
      if at == null { return false, {}; }
    }
    assert allocated(Nodes(t.shape));
    var x := AddLeaf(t, at, args[0].value, args[1].value, Fill(args));
    return true, {x};
  }

  method AddLeaf(t: DeviceTree, at: MediaNode?, ghost atPath: string, path: string, m: Media) returns (x: MediaNode)
    requires t.Valid() && (at != null ==> FindNode(CellsOf(Nodes(t.shape)), t.shape, atPath) == at)
    modifies t`root, t`shape, Nodes(t.shape)`next, Nodes(t.shape)`prev, Nodes(t.shape)`kids
    ensures t.Valid() && fresh(x) && Nodes(t.shape) == old(Nodes(t.shape)) + {x}
    ensures t.Devices() ==
      if at == null then InsertSorted(old(t.Devices()), path, m) else InsertUnder(old(t.Devices()), atPath, path, m)
  {
    hide Nodes, Linked, Distinct, Contents, LinksOf, FindNode, InsertSorted, InsertUnder;
    assert allocated(Nodes(t.shape));
    x := new MediaNode(path, m, at);
    t.LinkLeaf(x, at, atPath);
  }
}
