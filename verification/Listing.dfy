/** Listings: the daemon prints a tree in preorder, the library rebuilds it item by item. */
module Listing {
  import opened Basics
  import opened Forests
  import opened Media

  /** One line of a listing. */
  datatype Item = Item(parent: string, path: string, media: Media)

  function Preorder(f: Forest<Media>, parent: string): seq<Item> {
    match f
    case Nil => []
    case Node(p, m, kids, next) => [Item(parent, p, m)] + Preorder(kids, p) + Preorder(next, parent)
  }

  /** A device of unknown type cannot be printed, and ends the listing with an error. */
  function ItemLine(i: Item): seq<Message> { Describe(ITEM, i.parent, i.path, i.media) }

  function Lines(items: seq<Item>): seq<Message> {
    if items == [] then [] else ItemLine(items[0]) + Lines(items[1..])
  }

  /** What was printed, and whether it went through to the end. */
  datatype Output = Output(lines: seq<Message>, complete: bool)

  /** Printing stops at the first device of unknown type. */
  function Print(items: seq<Item>): Output {
    if items == [] then Output([], true)
    else if ItemLine(items[0]) == [] then Output([], false)
    else var rest := Print(items[1..]); Output(ItemLine(items[0]) + rest.lines, rest.complete)
  }

  /** What follows is only printed if all went well before. */
  function Then(a: Output, b: Output): Output { if a.complete then Output(a.lines + b.lines, b.complete) else a }

  lemma {:induction false} PrintAppend(a: seq<Item>, b: seq<Item>)
    ensures Print(a + b) == Then(Print(a), Print(b))
  {
    if a == [] {
      assert a + b == b;
    } else {
      hide ItemLine;
      assert (a + b)[0] == a[0] && (a + b)[1..] == a[1..] + b;
      PrintAppend(a[1..], b);
      var line, rest := ItemLine(a[0]), Print(a[1..]);
      assert line + rest.lines + Print(b).lines == line + (rest.lines + Print(b).lines);
    }
  }

  lemma {:induction false} TransmissiblePrints(f: Forest<Media>, at: string)
    requires AllTransmissible(f)
    ensures Print(Preorder(f, at)) == Output(Lines(Preorder(f, at)), true)
    decreases f
  {
    if f.Node? {
      TransmissiblePrints(f.kids, f.path);
      TransmissiblePrints(f.next, at);
      var first, below := [Item(at, f.path, f.data)], Preorder(f.kids, f.path);
      assert first[1..] == [];
      PrintAppend(first + below, Preorder(f.next, at));
      PrintAppend(first, below);
      PrintComplete(Preorder(f, at));
    }
  }

  /** All lines are printed exactly when every type is known. */
  lemma {:induction false} PrintComplete(items: seq<Item>)
    ensures Print(items).complete <==> forall i :: 0 <= i < |items| ==> !items[i].media.kind.UnknownKind?
    ensures Print(items).complete ==> Print(items).lines == Lines(items)
  {
    if items != [] { PrintComplete(items[1..]); }
  }

  // ----- the library's side -----

  predicate IsItem(m: Message) { m.cmd == ITEM && ValidDescription(m.args) }

  /** Places one described device in the result: at the root if its parent is the root path or if it is the
      device that was asked for, else under its parent, which must be there already. */
  function Place(f: Forest<Media>, args: seq<Option<string>>, asked: Option<string>): Option<Forest<Media>>
    requires ValidDescription(args)
  {
    var parent, path, m := args[0].value, args[1].value, Fill(args);
    if parent == ROOT_PATH || Some(path) == asked then Some(InsertSorted(f, path, m))
    else if parent in Paths(f) then Some(InsertUnder(f, parent, path, m))
    else None
  }

  /** The result of a whole block of lines; nothing if one of them is no item or has no parent yet. */
  function Rebuild(f: Forest<Media>, lines: seq<Message>, asked: Option<string>): Option<Forest<Media>>
    decreases |lines|
  {
    if lines == [] then Some(f)
    else if !IsItem(lines[0]) then None
    else match Place(f, lines[0].args, asked)
      case None => None
      case Some(g) => Rebuild(g, lines[1..], asked)
  }

  // ----- the same on items -----

  function Build(f: Forest<Media>, items: seq<Item>, asked: Option<string>): Forest<Media>
    decreases |items|
  {
    if items == [] then f
    else
      var Item(parent, path, m) := items[0];
      Build(if Some(path) == asked then InsertSorted(f, path, m) else Insert(f, parent, path, m), items[1..], asked)
  }

  lemma {:induction false} BuildAppend(f: Forest<Media>, a: seq<Item>, b: seq<Item>, asked: Option<string>)
    ensures Build(f, a + b, asked) == Build(Build(f, a, asked), b, asked)
    decreases |a|
  {
    if a == [] {
      assert a + b == b;
    } else {
      assert (a + b)[0] == a[0] && (a + b)[1..] == a[1..] + b;
      var Item(parent, path, m) := a[0];
      BuildAppend(if Some(path) == asked then InsertSorted(f, path, m) else Insert(f, parent, path, m), a[1..], b,
        asked);
    }
  }

  // ----- rebuilding grafts a forest where its parent is -----

  /** Appends a forest after a list of siblings. */
  function Append(c: Forest<Media>, g: Forest<Media>): Forest<Media> {
    if c.Nil? then g else c.(next := Append(c.next, g))
  }

  /** Appends it to the children of a path, or to the roots. */
  function Graft(a: Forest<Media>, at: string, g: Forest<Media>): Forest<Media> {
    match a
    case Nil => Nil
    case Node(q, _, kids, next) =>
      if q == at then a.(kids := Append(kids, g))
      else if at in Paths(kids) then a.(kids := Graft(kids, at, g))
      else a.(next := Graft(next, at, g))
  }

  function GraftAt(a: Forest<Media>, at: string, g: Forest<Media>): Forest<Media> {
    if at == ROOT_PATH then Append(a, g) else Graft(a, at, g)
  }

  /** No sibling is greater than the path. */
  ghost predicate NoneAbove(c: Forest<Media>, p: string) {
    c.Nil? || (!Less(p, c.path) && NoneAbove(c.next, p))
  }

  /** The children of a path, or the roots. */
  function Children(a: Forest<Media>, at: string): Forest<Media> {
    match a
    case Nil => Nil
    case Node(q, _, kids, next) =>
      if q == at then kids else if at in Paths(kids) then Children(kids, at) else Children(next, at)
  }

  function ChildrenAt(a: Forest<Media>, at: string): Forest<Media> {
    if at == ROOT_PATH then a else Children(a, at)
  }

  lemma {:induction false} AppendPaths(c: Forest<Media>, g: Forest<Media>)
    ensures Paths(Append(c, g)) == Paths(c) + Paths(g)
    ensures Unique(c) && Unique(g) && Paths(c) !! Paths(g) ==> Unique(Append(c, g))
  {
    if c.Node? { AppendPaths(c.next, g); }
  }

  lemma {:induction false} AppendAppend(c: Forest<Media>, g: Forest<Media>, h: Forest<Media>)
    ensures Append(Append(c, g), h) == Append(c, Append(g, h))
  {
    if c.Node? { AppendAppend(c.next, g, h); }
  }

  lemma {:induction false} GraftPaths(a: Forest<Media>, at: string, g: Forest<Media>)
    requires at in Paths(a) && Unique(a) && Unique(g) && Paths(a) !! Paths(g)
    ensures Paths(Graft(a, at, g)) == Paths(a) + Paths(g) && Unique(Graft(a, at, g))
    ensures Children(Graft(a, at, g), at) == Append(Children(a, at), g)
  {
    AppendPaths(a.kids, g);
    if a.path != at {
      if at in Paths(a.kids) { GraftPaths(a.kids, at, g); } else { GraftPaths(a.next, at, g); }
    }
  }

  lemma {:induction false} GraftGraft(a: Forest<Media>, at: string, g: Forest<Media>, h: Forest<Media>)
    requires at in Paths(a) && Unique(a) && Unique(g) && Paths(a) !! Paths(g)
    ensures Graft(Graft(a, at, g), at, h) == Graft(a, at, Append(g, h))
  {
    AppendAppend(a.kids, g, h);
    if a.path != at {
      if at in Paths(a.kids) {
        GraftPaths(a.kids, at, g);
        GraftGraft(a.kids, at, g, h);
      } else {
        GraftGraft(a.next, at, g, h);
      }
    }
  }

  /** Inserting a path no smaller than its siblings appends a leaf. */
  lemma {:induction false} InsertAppends(c: Forest<Media>, p: string, m: Media)
    requires NoneAbove(c, p)
    ensures InsertSorted(c, p, m) == Append(c, Node(p, m, Nil, Nil))
  {
    if c.Node? { InsertAppends(c.next, p, m); }
  }

  lemma {:induction false} InsertGrafts(a: Forest<Media>, at: string, p: string, m: Media)
    requires at in Paths(a) && NoneAbove(Children(a, at), p)
    ensures InsertUnder(a, at, p, m) == Graft(a, at, Node(p, m, Nil, Nil))
  {
    if a.path == at {
      InsertAppends(a.kids, p, m);
    } else if at in Paths(a.kids) {
      InsertGrafts(a.kids, at, p, m);
    } else {
      InsertGrafts(a.next, at, p, m);
    }
  }

  /** A leaf at the end of a list of siblings, found again and filled with children. */
  lemma {:induction false} FillAppended(c: Forest<Media>, p: string, m: Media, k: Forest<Media>)
    requires p !in Paths(c)
    ensures var leaf := Node(p, m, Nil, Nil);
      Graft(Append(c, leaf), p, k) == Append(c, Node(p, m, k, Nil)) && Children(Append(c, leaf), p) == Nil
  {
    if c.Node? {
      FillAppended(c.next, p, m, k);
      AppendPaths(c.next, Node(p, m, Nil, Nil));
    }
  }

  lemma {:induction false} FillGrafted(a: Forest<Media>, at: string, p: string, m: Media, k: Forest<Media>)
    requires at in Paths(a) && p !in Paths(a) && Unique(a)
    ensures var leaf := Node(p, m, Nil, Nil);
      Graft(Graft(a, at, leaf), p, k) == Graft(a, at, Node(p, m, k, Nil)) && Children(Graft(a, at, leaf), p) == Nil
  {
    var leaf := Node(p, m, Nil, Nil);
    if a.path == at {
      FillAppended(a.kids, p, m, k);
      AppendPaths(a.kids, leaf);
    } else if at in Paths(a.kids) {
      GraftPaths(a.kids, at, leaf);
      FillGrafted(a.kids, at, p, m, k);
    } else {
      GraftPaths(a.next, at, leaf);
      FillGrafted(a.next, at, p, m, k);
    }
  }

  /** The children a path already has do not exceed the first sibling to come. */
  ghost predicate Ready(a: Forest<Media>, at: string, g: Forest<Media>) {
    g.Node? ==> NoneAbove(ChildrenAt(a, at), g.path)
  }

  lemma {:induction false} NoneAboveAppend(c: Forest<Media>, p: string, d: Forest<Media>, q: string)
    requires NoneAbove(c, p) && !Less(q, p) && NoneAbove(d, q)
    ensures NoneAbove(Append(c, d), q)
  {
    if c.Node? {
      NotLessTransitive(q, p, c.path);
      NoneAboveAppend(c.next, p, d, q);
    }
  }

  /** Building from the preorder of a forest appends that forest to the children of its parent. */
  lemma {:induction false} BuildGrafts(a: Forest<Media>, at: string, g: Forest<Media>, asked: Option<string>)
    requires Unique(a) && Unique(g) && Sorted(g) && Paths(a) !! Paths(g)
    requires ROOT_PATH !in Paths(a) && ROOT_PATH !in Paths(g) && (at == ROOT_PATH || at in Paths(a))
    requires Ready(a, at, g) && (asked.Some? ==> asked.value !in Paths(g))
    ensures Build(a, Preorder(g, at), asked) == GraftAt(a, at, g)
    decreases g
  {
    if g.Nil? {
      GraftNothing(a, at);
    } else {
      var p, m, k, n := g.path, g.data, g.kids, g.next;
      var leaf, full := Node(p, m, Nil, Nil), Node(p, m, k, Nil);
      var a1, a2 := GraftAt(a, at, leaf), GraftAt(a, at, full);
      assert Insert(a, at, p, m) == a1 by {
        if at == ROOT_PATH { InsertAppends(a, p, m); } else { InsertGrafts(a, at, p, m); }
      }
      PlacedLeaf(a, at, p, m, k);
      BuildGrafts(a1, p, k, asked);
      PlacedFull(a, at, g);
      BuildGrafts(a2, at, n, asked);
      BuildNode(a, at, g, asked);
      BuildOne(a, Item(at, p, m), asked);
    }
  }

  /** Building a first root, its children and its siblings. */
  lemma BuildNode(a: Forest<Media>, at: string, g: Forest<Media>, asked: Option<string>)
    requires g.Node?
    ensures Build(a, Preorder(g, at), asked) ==
      Build(Build(Build(a, [Item(at, g.path, g.data)], asked), Preorder(g.kids, g.path), asked), Preorder(g.next, at),
        asked)
  {
    hide Build;
    var first, kids, rest := [Item(at, g.path, g.data)], Preorder(g.kids, g.path), Preorder(g.next, at);
    BuildAppend(a, first + kids, rest, asked);
    BuildAppend(a, first, kids, asked);
  }

  lemma BuildOne(a: Forest<Media>, i: Item, asked: Option<string>)
    ensures Build(a, [i], asked) == if asked == Some(i.path) then InsertSorted(a, i.path, i.media)
      else Insert(a, i.parent, i.path, i.media)
  {
    assert [i][1..] == [];
  }

  lemma {:induction false} GraftNothing(a: Forest<Media>, at: string)
    ensures GraftAt(a, at, Nil) == a
    ensures Append(a, Nil) == a && Graft(a, at, Nil) == a
  {
    if a.Node? {
      GraftNothing(a.next, at);
      GraftNothing(a.kids, at);
    }
  }

  lemma PlacedLeaf(a: Forest<Media>, at: string, p: string, m: Media, k: Forest<Media>)
    requires Unique(a) && p !in Paths(a) && ROOT_PATH !in Paths(a) && p != ROOT_PATH
    requires at == ROOT_PATH || at in Paths(a)
    ensures var a1 := GraftAt(a, at, Node(p, m, Nil, Nil));
      Unique(a1) && Paths(a1) == Paths(a) + {p} && ChildrenAt(a1, p) == Nil
      && GraftAt(a1, p, k) == GraftAt(a, at, Node(p, m, k, Nil))
  {
    var leaf := Node(p, m, Nil, Nil);
    if at == ROOT_PATH {
      AppendPaths(a, leaf);
      FillAppended(a, p, m, k);
    } else {
      GraftPaths(a, at, leaf);
      FillGrafted(a, at, p, m, k);
    }
  }

  lemma PlacedFull(a: Forest<Media>, at: string, g: Forest<Media>)
    requires g.Node? && Unique(a) && Unique(g) && Sorted(g) && Paths(a) !! Paths(g)
    requires ROOT_PATH !in Paths(a) && ROOT_PATH !in Paths(g) && (at == ROOT_PATH || at in Paths(a)) && Ready(a, at, g)
    ensures var a2 := GraftAt(a, at, Node(g.path, g.data, g.kids, Nil));
      Unique(a2) && Paths(a2) == Paths(a) + {g.path} + Paths(g.kids) && Ready(a2, at, g.next)
      && GraftAt(a2, at, g.next) == GraftAt(a, at, g)
  {
    hide Unique, Sorted, NoneAbove, Append, Graft, Children;
    var full := Node(g.path, g.data, g.kids, Nil);
    SplitHead(g);
    if at == ROOT_PATH {
      AppendPaths(a, full);
      AppendAppend(a, full, g.next);
    } else {
      GraftPaths(a, at, full);
      GraftGraft(a, at, full, g.next);
    }
    if g.next.Node? { NoneAboveAppend(ChildrenAt(a, at), g.path, full, g.next.path); }
  }

  lemma SplitHead(g: Forest<Media>)
    requires g.Node? && Unique(g) && Sorted(g)
    ensures var full := Node(g.path, g.data, g.kids, Nil);
      Append(full, g.next) == g && Unique(full) && Paths(full) == {g.path} + Paths(g.kids)
      && (g.next.Node? ==> NoneAbove(full, g.next.path) && !Less(g.next.path, g.path))
  {}

  // ----- from lines to items -----

  predicate AllTransmissible(f: Forest<Media>) {
    match f
    case Nil => true
    case Node(_, m, kids, next) => Transmissible(m) && AllTransmissible(kids) && AllTransmissible(next)
  }

  /** Every item can be described, and comes after its parent. */
  predicate InOrder(known: set<string>, items: seq<Item>, asked: Option<string>)
    decreases |items|
  {
    items == []
    || (Transmissible(items[0].media)
        && (items[0].parent == ROOT_PATH || Some(items[0].path) == asked || items[0].parent in known)
        && InOrder(known + {items[0].path}, items[1..], asked))
  }

  function ItemPaths(items: seq<Item>): set<string> {
    if items == [] then {} else {items[0].path} + ItemPaths(items[1..])
  }

  lemma {:induction false} InOrderAppend(known: set<string>, a: seq<Item>, b: seq<Item>, asked: Option<string>)
    requires InOrder(known, a, asked) && InOrder(known + ItemPaths(a), b, asked)
    ensures InOrder(known, a + b, asked) && ItemPaths(a + b) == ItemPaths(a) + ItemPaths(b)
    decreases |a|
  {
    if a == [] {
      assert a + b == b && known + ItemPaths(a) == known;
    } else {
      assert (a + b)[0] == a[0] && (a + b)[1..] == a[1..] + b;
      assert known + {a[0].path} + ItemPaths(a[1..]) == known + ItemPaths(a);
      InOrderAppend(known + {a[0].path}, a[1..], b, asked);
    }
  }

  lemma {:induction false} PreorderInOrder(known: set<string>, f: Forest<Media>, at: string, asked: Option<string>)
    requires AllTransmissible(f)
      && (at == ROOT_PATH || at in known || (f.Node? && Some(f.path) == asked && f.next.Nil?))
    ensures InOrder(known, Preorder(f, at), asked) && ItemPaths(Preorder(f, at)) == Paths(f)
    decreases f
  {
    if f.Node? {
      var first, kids, next := [Item(at, f.path, f.data)], Preorder(f.kids, f.path), Preorder(f.next, at);
      assert first[1..] == [];
      assert ItemPaths(first) == {f.path};
      PreorderInOrder(known + {f.path}, f.kids, f.path, asked);
      InOrderAppend(known, first, kids, asked);
      if f.next.Node? {
        PreorderInOrder(known + ItemPaths(first + kids), f.next, at, asked);
      }
      InOrderAppend(known, first + kids, next, asked);
    }
  }

  function ConveyedItems(items: seq<Item>): seq<Item> {
    if items == [] then [] else [items[0].(media := Conveyed(items[0].media))] + ConveyedItems(items[1..])
  }

  lemma {:induction false} ConveyedAppend(a: seq<Item>, b: seq<Item>)
    ensures ConveyedItems(a + b) == ConveyedItems(a) + ConveyedItems(b)
  {
    if a == [] {
      assert a + b == b;
    } else {
      assert (a + b)[1..] == a[1..] + b;
      ConveyedAppend(a[1..], b);
    }
  }

  lemma {:induction false} ConveyedPreorder(f: Forest<Media>, at: string)
    ensures ConveyedItems(Preorder(f, at)) == Preorder(Map(f, Conveyed), at)
    decreases f
  {
    if f.Node? {
      var first, kids, next := [Item(at, f.path, f.data)], Preorder(f.kids, f.path), Preorder(f.next, at);
      assert first[1..] == [];
      ConveyedAppend(first + kids, next);
      ConveyedAppend(first, kids);
      ConveyedPreorder(f.kids, f.path);
      ConveyedPreorder(f.next, at);
    }
  }

  lemma {:induction false} PathsAfterInsert(f: Forest<Media>, parent: string, p: string, m: Media)
    ensures Paths(InsertSorted(f, p, m)) == Paths(f) + {p}
    ensures parent in Paths(f) ==> Paths(InsertUnder(f, parent, p, m)) == Paths(f) + {p}
  {
    if f.Node? {
      PathsAfterInsert(f.next, parent, p, m);
      PathsAfterInsert(f.kids, parent, p, m);
    }
  }

  /** Lines of items in order never fail to find their place. */
  lemma {:induction false} RebuildIsBuild(a: Forest<Media>, items: seq<Item>, known: set<string>, asked: Option<string>)
    requires InOrder(known, items, asked) && known <= Paths(a)
    ensures Rebuild(a, Lines(items), asked) == Some(Build(a, ConveyedItems(items), asked))
    decreases |items|
  {
    hide Conveyed, Transmissible, Fill, ValidDescription;
    if items != [] {
      var Item(parent, path, m) := items[0];
      DescriptionRoundTrip(parent, path, m);
      assert ItemLine(items[0]) == [Message(ITEM, DescribeArgs(parent, path, m))] by { KnownKind(m); }
      assert Lines(items)[0] == ItemLine(items[0])[0] && Lines(items)[1..] == Lines(items[1..]);
      DescriptionNames(parent, path, m);
      PathsAfterInsert(a, parent, path, Conveyed(m));
      var a1 := if Some(path) == asked then InsertSorted(a, path, Conveyed(m))
        else Insert(a, parent, path, Conveyed(m));
      assert ConveyedItems(items)[1..] == ConveyedItems(items[1..]);
      RebuildIsBuild(a1, items[1..], known + {path}, asked);
    }
  }

  lemma KnownKind(m: Media)
    requires Transmissible(m)
    ensures !m.kind.UnknownKind?
  {}

  lemma DescriptionNames(parent: string, path: string, m: Media)
    requires Transmissible(m)
    ensures var args := DescribeArgs(parent, path, m); |args| > 1 && args[0] == Some(parent) && args[1] == Some(path)
  {}

  // ----- the round trips -----

  /** The full listing of a tree rebuilds exactly what its descriptions convey, whatever else was asked for. */
  lemma ListAllRoundTrip(f: Forest<Media>, asked: Option<string>)
    requires Unique(f) && Sorted(f) && AllTransmissible(f) && ROOT_PATH !in Paths(f)
    requires asked.Some? ==> asked.value !in Paths(f)
    ensures Rebuild(Nil, Lines(Preorder(f, ROOT_PATH)), asked) == Some(Map(f, Conveyed))
  {
    PreorderInOrder({}, f, ROOT_PATH, asked);
    RebuildIsBuild(Nil, Preorder(f, ROOT_PATH), {}, asked);
    ConveyedPreorder(f, ROOT_PATH);
    MapPaths(f, Conveyed);
    BuildGrafts(Nil, ROOT_PATH, Map(f, Conveyed), asked);
  }

  /** The listing of one device rebuilds its subtree as a single root. */
  lemma ListOneRoundTrip(f: Forest<Media>, p: string)
    requires Unique(f) && Sorted(f) && AllTransmissible(f) && ROOT_PATH !in Paths(f) && p in Paths(f)
    ensures Rebuild(Nil, Lines(Preorder(Subtree(f, p), ParentOf(f, p, ROOT_PATH))), Some(p))
      == Some(Map(Subtree(f, p), Conveyed))
  {
    var g, at := Subtree(f, p), ParentOf(f, p, ROOT_PATH);
    SubtreeKeeps(f, p);
    PreorderInOrder({}, g, at, Some(p));
    RebuildIsBuild(Nil, Preorder(g, at), {}, Some(p));
    ConveyedPreorder(g, at);
    MapPaths(g, Conveyed);
    var h := Map(g, Conveyed);
    var leaf := Node(p, h.data, Nil, Nil);
    BuildGrafts(leaf, p, h.kids, Some(p));
    var items := Preorder(h, at);
    assert items == [Item(at, p, h.data)] + Preorder(h.kids, p);
    assert items[1..] == Preorder(h.kids, p);
    assert InsertSorted(Nil, p, h.data) == leaf;
    assert Graft(leaf, p, h.kids) == h;
  }

  lemma {:induction false} SubtreeKeeps(f: Forest<Media>, p: string)
    requires Unique(f) && Sorted(f) && AllTransmissible(f) && p in Paths(f)
    ensures var g := Subtree(f, p);
      g.Node? && g.path == p && g.next.Nil? && Unique(g) && Sorted(g) && AllTransmissible(g) && Paths(g) <= Paths(f)
  {
    if f.path != p {
      if p in Paths(f.kids) { SubtreeKeeps(f.kids, p); } else { SubtreeKeeps(f.next, p); }
    }
  }
}
