/** Ordered forests in first-child / next-sibling form: the shape of the daemon's device lists and,
    since sibling sets are ordered by path too, of the clients' replicas of them. */
module Forests {
  import opened Basics

  datatype Forest<T> = Nil | Node(path: string, data: T, kids: Forest<T>, next: Forest<T>)

  function Paths<T>(f: Forest<T>): set<string> {
    match f
    case Nil => {}
    case Node(p, _, kids, next) => {p} + Paths(kids) + Paths(next)
  }

  ghost predicate Unique<T>(f: Forest<T>) {
    match f
    case Nil => true
    case Node(p, _, kids, next) =>
      p !in Paths(kids) && p !in Paths(next) && Paths(kids) !! Paths(next) && Unique(kids) && Unique(next)
  }

  /** Siblings never descend by path. */
  ghost predicate Sorted<T>(f: Forest<T>) {
    match f
    case Nil => true
    case Node(p, _, kids, next) => (next.Node? ==> !Less(next.path, p)) && Sorted(kids) && Sorted(next)
  }

  // ----- queries -----

  /** The data of the first node, in preorder, that carries the path. */
  function Find<T>(f: Forest<T>, p: string): Option<T> {
    match f
    case Nil => None
    case Node(q, d, kids, next) =>
      if q == p then Some(d)
      else if p in Paths(kids) then Find(kids, p)
      else Find(next, p)
  }

  /** The same, for a path that is there. */
  function Get<T>(f: Forest<T>, p: string): (d: T)
    requires p in Paths(f)
    ensures Find(f, p) == Some(d)
  {
    if f.path == p then f.data else if p in Paths(f.kids) then Get(f.kids, p) else Get(f.next, p)
  }

  /** That node itself, with its children and without its siblings. */
  function Subtree<T>(f: Forest<T>, p: string): Forest<T> {
    match f
    case Nil => Nil
    case Node(q, d, kids, next) =>
      if q == p then Node(q, d, kids, Nil)
      else if p in Paths(kids) then Subtree(kids, p)
      else Subtree(next, p)
  }

  /** The path of its parent, or `top` for a root. */
  function ParentOf<T>(f: Forest<T>, p: string, top: string): string
    requires p in Paths(f)
  {
    if f.path == p then top
    else if p in Paths(f.kids) then ParentOf(f.kids, p, f.path)
    else ParentOf(f.next, p, top)
  }

  // ----- updates -----

  /** Puts a leaf before the first sibling with a greater path. */
  function InsertSorted<T>(f: Forest<T>, p: string, d: T): Forest<T> {
    if f.Nil? || Less(p, f.path) then Node(p, d, Nil, f)
    else f.(next := InsertSorted(f.next, p, d))
  }

  /** Puts a leaf among the children of the first node that carries the parent path. */
  function InsertUnder<T>(f: Forest<T>, parent: string, p: string, d: T): Forest<T> {
    match f
    case Nil => Nil
    case Node(q, _, kids, next) =>
      if q == parent then f.(kids := InsertSorted(kids, p, d))
      else if parent in Paths(kids) then f.(kids := InsertUnder(kids, parent, p, d))
      else f.(next := InsertUnder(next, parent, p, d))
  }

  const ROOT_PATH: string := "/"

  /** The root path stands for "no parent"; an unknown parent leaves the forest as it is. */
  function Insert<T>(f: Forest<T>, parent: string, p: string, d: T): Forest<T> {
    if parent == ROOT_PATH then InsertSorted(f, p, d) else InsertUnder(f, parent, p, d)
  }

  /** Drops the first node that carries the path, with everything below it. */
  function Remove<T>(f: Forest<T>, p: string): Forest<T> {
    match f
    case Nil => Nil
    case Node(q, _, kids, next) =>
      if q == p then next
      else if p in Paths(kids) then f.(kids := Remove(kids, p))
      else f.(next := Remove(next, p))
  }

  function Update<T>(f: Forest<T>, p: string, d: T): Forest<T> {
    match f
    case Nil => Nil
    case Node(q, _, kids, next) =>
      if q == p then f.(data := d)
      else if p in Paths(kids) then f.(kids := Update(kids, p, d))
      else f.(next := Update(next, p, d))
  }

  function Map<T, U>(f: Forest<T>, g: T -> U): Forest<U> {
    match f
    case Nil => Nil
    case Node(p, d, kids, next) => Node(p, g(d), Map(kids, g), Map(next, g))
  }

  // ----- where a path is, after each update -----

  lemma FindIffIn<T>(f: Forest<T>, p: string)
    ensures Find(f, p).Some? <==> p in Paths(f)
  {}

  lemma {:induction false} FindUpdate<T>(f: Forest<T>, p: string, d: T, q: string)
    ensures Paths(Update(f, p, d)) == Paths(f)
    ensures Find(Update(f, p, d), q) == if p == q && p in Paths(f) then Some(d) else Find(f, q)
  {
    if f.Node? {
      FindUpdate(f.kids, p, d, q);
      FindUpdate(f.next, p, d, q);
    }
  }

  lemma {:induction false} UpdateKeepsShape<T>(f: Forest<T>, p: string, d: T)
    ensures Paths(Update(f, p, d)) == Paths(f)
    ensures Unique(f) ==> Unique(Update(f, p, d))
    ensures Sorted(f) ==> Sorted(Update(f, p, d))
    ensures Update(f, p, d).Node? == f.Node? && (f.Node? ==> Update(f, p, d).path == f.path)
    ensures forall q, top :: q in Paths(f) ==> ParentOf(Update(f, p, d), q, top) == ParentOf(f, q, top)
  {
    if f.Node? {
      UpdateKeepsShape(f.kids, p, d);
      UpdateKeepsShape(f.next, p, d);
    }
  }

  lemma {:induction false} InsertSortedKeeps<T>(f: Forest<T>, p: string, d: T)
    requires p !in Paths(f)
    ensures Paths(InsertSorted(f, p, d)) == Paths(f) + {p}
    ensures Unique(f) ==> Unique(InsertSorted(f, p, d))
    ensures forall q :: Find(InsertSorted(f, p, d), q) == if q == p then Some(d) else Find(f, q)
    ensures forall top :: ParentOf(InsertSorted(f, p, d), p, top) == top
    ensures forall q, top :: q in Paths(f) ==> ParentOf(InsertSorted(f, p, d), q, top) == ParentOf(f, q, top)
  {
    if f.Node? && !Less(p, f.path) { InsertSortedKeeps(f.next, p, d); }
  }

  lemma {:induction false} InsertUnderKeeps<T>(f: Forest<T>, parent: string, p: string, d: T)
    requires p !in Paths(f)
    ensures Paths(InsertUnder(f, parent, p, d)) == if parent in Paths(f) then Paths(f) + {p} else Paths(f)
    ensures parent !in Paths(f) ==> InsertUnder(f, parent, p, d) == f
    ensures Unique(f) ==> Unique(InsertUnder(f, parent, p, d))
    ensures forall q :: Find(InsertUnder(f, parent, p, d), q) == if q == p
      && parent in Paths(f) then Some(d) else Find(f, q)
    ensures forall top :: parent in Paths(f) ==> ParentOf(InsertUnder(f, parent, p, d), p, top) == parent
    ensures forall q, top :: q in Paths(f) ==> ParentOf(InsertUnder(f, parent, p, d), q, top) == ParentOf(f, q, top)
  {
    if f.Node? {
      if f.path == parent {
        InsertSortedKeeps(f.kids, p, d);
      } else if parent in Paths(f.kids) {
        InsertUnderKeeps(f.kids, parent, p, d);
      } else {
        InsertUnderKeeps(f.next, parent, p, d);
      }
    }
  }

  lemma {:induction false} InsertSortedSorted<T>(f: Forest<T>, p: string, d: T)
    requires Sorted(f)
    ensures Sorted(InsertSorted(f, p, d))
  {
    if f.Node? {
      if Less(p, f.path) {
        if Less(f.path, p) {
          LessTransitive(p, f.path, p);
          LessIrreflexive(p);
        }
      } else {
        InsertSortedSorted(f.next, p, d);
      }
    }
  }

  /** The data of the siblings that carry the path, in order. */
  function RootsAt<T>(f: Forest<T>, p: string): seq<T> {
    match f
    case Nil => []
    case Node(q, d, _, next) => (if q == p then [d] else []) + RootsAt(next, p)
  }

  lemma {:induction false} NoRootsBelow<T>(f: Forest<T>, p: string)
    requires Sorted(f) && (f.Node? ==> Less(p, f.path))
    ensures RootsAt(f, p) == []
  {
    if f.Node? {
      LessIrreflexive(p);
      if f.next.Node? { LessNotLess(p, f.path, f.next.path); }
      NoRootsBelow(f.next, p);
    }
  }

  lemma LessNotLess(a: string, b: string, c: string)
    requires Less(a, b) && !Less(c, b)
    ensures Less(a, c)
  {
    LessTotal(c, b);
    if c != b { LessTransitive(a, b, c); }
  }

  /** Siblings with equal paths stay in the order of their insertion. */
  lemma {:induction false} InsertedLast<T>(f: Forest<T>, p: string, d: T, q: string)
    requires Sorted(f)
    ensures RootsAt(InsertSorted(f, p, d), q) == RootsAt(f, q) + if q == p then [d] else []
  {
    if f.Node? && !Less(p, f.path) {
      InsertedLast(f.next, p, d, q);
    } else if q == p {
      NoRootsBelow(f, p);
    }
  }

  lemma {:induction false} InsertUnderSorted<T>(f: Forest<T>, parent: string, p: string, d: T)
    requires Sorted(f)
    ensures Sorted(InsertUnder(f, parent, p, d))
    ensures InsertUnder(f, parent, p, d).Node? == f.Node?
    ensures f.Node? ==> InsertUnder(f, parent, p, d).path == f.path
  {
    if f.Node? {
      InsertSortedSorted(f.kids, p, d);
      InsertUnderSorted(f.kids, parent, p, d);
      InsertUnderSorted(f.next, parent, p, d);
    }
  }

  lemma {:induction false} RemoveKeeps<T>(f: Forest<T>, p: string)
    requires Unique(f)
    ensures Paths(Remove(f, p)) <= Paths(f) && p !in Paths(Remove(f, p))
    ensures p !in Paths(f) ==> Remove(f, p) == f
    ensures Unique(Remove(f, p))
    ensures forall q :: q in Paths(Remove(f, p)) ==> Find(Remove(f, p), q) == Find(f, q)
    ensures forall q, top :: q in Paths(Remove(f, p)) ==> ParentOf(Remove(f, p), q, top) == ParentOf(f, q, top)
  {
    if f.Node? && f.path != p {
      RemoveKeeps(f.kids, p);
      RemoveKeeps(f.next, p);
    }
  }

  lemma {:induction false} RemoveSorted<T>(f: Forest<T>, p: string)
    requires Sorted(f)
    ensures Sorted(Remove(f, p))
    ensures forall q :: Remove(f, p).Node? && f.Node? && !Less(f.path, q) ==> !Less(Remove(f, p).path, q)
  {
    if f.Node? {
      RemoveSorted(f.kids, p);
      RemoveSorted(f.next, p);
      if f.path == p && f.next.Node? {
        forall q | !Less(f.path, q) ensures !Less(f.next.path, q) {
          NotLessTransitive(f.next.path, f.path, q);
        }
      } else if f.path != p && p !in Paths(f.kids) && f.next.Node? && Remove(f.next, p).Node? {
        assert !Less(Remove(f.next, p).path, f.path);
      }
    }
  }

  lemma NotLessTransitive(a: string, b: string, c: string)
    requires !Less(a, b) && !Less(b, c)
    ensures !Less(a, c)
  {
    LessTotal(a, b);
    LessTotal(b, c);
    if Less(a, c) {
      if b == c {
      } else {
        LessTransitive(a, c, b);
      }
    }
  }

  /** A set of nodes that contains the parent of each of its members, unless that is the root. */
  ghost predicate UpwardClosed<T>(f: Forest<T>, top: string, group: set<string>) {
    forall q :: q in Paths(f) && q in group ==> ParentOf(f, q, top) == top || ParentOf(f, q, top) in group
  }

  /** Removing a path spares every upward-closed group that does not hold it. */
  lemma {:induction false} RemoveSpares<T>(f: Forest<T>, p: string, top: string, group: set<string>)
    requires Unique(f) && top !in Paths(f)
    requires UpwardClosed(f, top, group) && p !in group
    ensures Paths(f) * group <= Paths(Remove(f, p))
  {
    if f.Node? {
      forall q | q in Paths(f.next) && q in group
        ensures ParentOf(f.next, q, top) == top || ParentOf(f.next, q, top) in group
      {
        assert ParentOf(f, q, top) == ParentOf(f.next, q, top);
      }
      if f.path == p {
        OutsideGroup(f.kids, f.path, group, f, top);
      } else if p in Paths(f.kids) {
        forall q | q in Paths(f.kids) && q in group
          ensures ParentOf(f.kids, q, f.path) == f.path || ParentOf(f.kids, q, f.path) in group
        {
          assert ParentOf(f, q, top) == ParentOf(f.kids, q, f.path);
          ParentInside(f.kids, q, f.path);
        }
        RemoveSpares(f.kids, p, f.path, group);
      } else {
        RemoveSpares(f.next, p, top, group);
      }
    }
  }

  /** Nothing below a node outside the group is in the group. */
  lemma {:induction false} OutsideGroup<T>(k: Forest<T>, above: string, group: set<string>, f: Forest<T>, top: string)
    requires Unique(k) && above !in Paths(k)
    requires above !in group && top !in Paths(k) && top != above
    requires UpwardClosed(f, top, group)
    requires Paths(k) <= Paths(f) && forall q :: q in Paths(k) ==> ParentOf(f, q, top) == ParentOf(k, q, above)
    ensures Paths(k) !! group
  {
    if k.Node? {
      assert ParentOf(f, k.path, top) == above;
      assert k.path !in group;
      forall q | q in Paths(k.kids) ensures ParentOf(f, q, top) == ParentOf(k.kids, q, k.path) {
        assert ParentOf(k, q, above) == ParentOf(k.kids, q, k.path);
      }
      OutsideGroup(k.kids, k.path, group, f, top);
      forall q | q in Paths(k.next) ensures ParentOf(f, q, top) == ParentOf(k.next, q, above) {
        assert ParentOf(k, q, above) == ParentOf(k.next, q, above);
      }
      OutsideGroup(k.next, above, group, f, top);
    }
  }

  // ----- mapping the data commutes with every update -----

  lemma {:induction false} MapPaths<T, U>(f: Forest<T>, g: T -> U)
    ensures Paths(Map(f, g)) == Paths(f)
    ensures Unique(f) <==> Unique(Map(f, g))
    ensures Sorted(f) <==> Sorted(Map(f, g))
    ensures forall p :: Find(Map(f, g), p) == (match Find(f, p) case None => None case Some(d) => Some(g(d)))
    ensures forall p, top :: p in Paths(f) ==> ParentOf(Map(f, g), p, top) == ParentOf(f, p, top)
  {
    if f.Node? {
      MapPaths(f.kids, g);
      MapPaths(f.next, g);
    }
  }

  lemma {:induction false} MapInsertSorted<T, U>(f: Forest<T>, p: string, d: T, g: T -> U)
    ensures Map(InsertSorted(f, p, d), g) == InsertSorted(Map(f, g), p, g(d))
  {
    if f.Node? && !Less(p, f.path) { MapInsertSorted(f.next, p, d, g); }
  }

  lemma {:induction false} MapInsert<T, U>(f: Forest<T>, parent: string, p: string, d: T, g: T -> U)
    ensures Map(Insert(f, parent, p, d), g) == Insert(Map(f, g), parent, p, g(d))
    ensures Map(InsertUnder(f, parent, p, d), g) == InsertUnder(Map(f, g), parent, p, g(d))
  {
    MapInsertSorted(f, p, d, g);
    if f.Node? {
      MapPaths(f.kids, g);
      MapInsertSorted(f.kids, p, d, g);
      MapInsert(f.kids, parent, p, d, g);
      MapInsert(f.next, parent, p, d, g);
    }
  }

  lemma {:induction false} MapRemove<T, U>(f: Forest<T>, p: string, g: T -> U)
    ensures Map(Remove(f, p), g) == Remove(Map(f, g), p)
  {
    if f.Node? {
      MapPaths(f.kids, g);
      MapRemove(f.kids, p, g);
      MapRemove(f.next, p, g);
    }
  }

  lemma {:induction false} MapUpdate<T, U>(f: Forest<T>, p: string, d: T, g: T -> U)
    ensures Map(Update(f, p, d), g) == Update(Map(f, g), p, g(d))
  {
    if f.Node? {
      MapPaths(f.kids, g);
      MapUpdate(f.kids, p, d, g);
      MapUpdate(f.next, p, d, g);
    }
  }

  /** Writing back what is already there changes nothing. */
  lemma {:induction false} UpdateSame<T>(f: Forest<T>, p: string, d: T)
    requires Find(f, p) == Some(d) || p !in Paths(f)
    ensures Update(f, p, d) == f
  {
    if f.Node? && f.path != p {
      if p in Paths(f.kids) { UpdateSame(f.kids, p, d); } else { FindIffIn(f.next, p); UpdateSame(f.next, p, d); }
    }
  }

  lemma {:induction false} UpdateTwice<T>(f: Forest<T>, p: string, d: T, e: T)
    ensures Update(Update(f, p, d), p, e) == Update(f, p, e)
  {
    if f.Node? && f.path != p {
      UpdateKeepsShape(f.kids, p, d);
      UpdateTwice(f.kids, p, d, e);
      UpdateTwice(f.next, p, d, e);
    }
  }

  lemma {:induction false} RemoveUpdated<T>(f: Forest<T>, p: string, d: T)
    ensures Remove(Update(f, p, d), p) == Remove(f, p)
  {
    if f.Node? && f.path != p {
      UpdateKeepsShape(f.kids, p, d);
      RemoveUpdated(f.kids, p, d);
      RemoveUpdated(f.next, p, d);
    }
  }

  // ----- removing many paths at once -----

  /** Drops every node whose path is in the set, with everything below it. */
  function Prune<T>(f: Forest<T>, gone: set<string>): Forest<T> {
    match f
    case Nil => Nil
    case Node(p, d, kids, next) =>
      if p in gone then Prune(next, gone) else Node(p, d, Prune(kids, gone), Prune(next, gone))
  }

  lemma {:induction false} PruneNone<T>(f: Forest<T>, gone: set<string>)
    requires Paths(f) !! gone
    ensures Prune(f, gone) == f
  {
    if f.Node? {
      PruneNone(f.kids, gone);
      PruneNone(f.next, gone);
    }
  }

  lemma {:induction false} PruneOne<T>(f: Forest<T>, p: string)
    requires Unique(f)
    ensures Prune(f, {p}) == Remove(f, p)
  {
    if f.Node? {
      PruneOne(f.kids, p);
      PruneOne(f.next, p);
      if f.path == p { PruneNone(f.next, {p}); }
      if p in Paths(f.kids) { PruneNone(f.next, {p}); } else { PruneNone(f.kids, {p}); }
    }
  }

  lemma {:induction false} PruneMore<T>(f: Forest<T>, a: set<string>, b: set<string>)
    ensures Prune(Prune(f, a), b) == Prune(f, a + b)
    ensures Unique(f) ==> Unique(Prune(f, a))
    ensures Paths(Prune(f, a)) <= Paths(f)
  {
    if f.Node? {
      PruneMore(f.kids, a, b);
      PruneMore(f.next, a, b);
    }
  }

  lemma {:induction false} SubtreeAbsent<T>(f: Forest<T>, p: string)
    requires p !in Paths(f)
    ensures Subtree(f, p) == Nil
  {
    if f.Node? { SubtreeAbsent(f.next, p); }
  }

  /** Pruning all the paths of a subtree is removing its top. */
  lemma {:induction false} PruneSubtree<T>(f: Forest<T>, p: string)
    requires Unique(f)
    ensures Prune(f, Paths(Subtree(f, p))) == Remove(f, p)
    ensures Paths(Subtree(f, p)) <= Paths(f) && (p in Paths(f) <==> p in Paths(Subtree(f, p)))
    ensures Unique(Subtree(f, p))
  {
    if f.Node? {
      PruneSubtree(f.kids, p);
      PruneSubtree(f.next, p);
      if p !in Paths(f.next) { SubtreeAbsent(f.next, p); }
      var gone := Paths(Subtree(f, p));
      if f.path == p || p in Paths(f.kids) {
        PruneNone(f.next, gone);
      } else {
        assert Paths(f.kids) !! gone;
        PruneNone(f.kids, gone);
      }
    }
  }

  lemma {:induction false} MapSubtree<T, U>(f: Forest<T>, p: string, g: T -> U)
    ensures Subtree(Map(f, g), p) == Map(Subtree(f, p), g)
  {
    if f.Node? {
      MapPaths(f.kids, g);
      MapSubtree(f.kids, p, g);
      MapSubtree(f.next, p, g);
    }
  }

  // ----- a forest is determined by its flat contents -----

  /** The same paths, each with the same data under the same parent. */
  ghost predicate SameContents<T>(f: Forest<T>, g: Forest<T>, top: string) {
    Paths(f) == Paths(g)
    && forall p :: p in Paths(f) ==> Find(f, p) == Find(g, p) && ParentOf(f, p, top) == ParentOf(g, p, top)
  }

  lemma {:induction false} ParentInside<T>(f: Forest<T>, p: string, top: string)
    requires p in Paths(f)
    ensures ParentOf(f, p, top) == top || ParentOf(f, p, top) in Paths(f)
  {
    if f.path != p {
      if p in Paths(f.kids) { ParentInside(f.kids, p, f.path); } else { ParentInside(f.next, p, top); }
    }
  }

  /** The roots of a sorted forest are no smaller than its first one. */
  lemma {:induction false} FirstRootLeast<T>(f: Forest<T>, p: string, top: string)
    requires Sorted(f) && Unique(f) && top !in Paths(f) && p in Paths(f) && ParentOf(f, p, top) == top
    ensures !Less(p, f.path)
  {
    LessIrreflexive(p);
    if f.path != p {
      if p in Paths(f.kids) {
        ParentInside(f.kids, p, f.path);
      } else {
        FirstRootLeast(f.next, p, top);
        NotLessTransitive(p, f.next.path, f.path);
      }
    }
  }

  /** If membership in `inside` follows from having a parent there, everything below `above` is inside. */
  lemma {:induction false} AllInside<T>(k: Forest<T>, above: string, inside: set<string>)
    requires Unique(k) && above !in Paths(k)
    requires forall q :: q in Paths(k) && (ParentOf(k, q, above) == above || ParentOf(k, q, above) in inside) ==>
      q in inside
    ensures Paths(k) <= inside
  {
    if k.Node? {
      assert ParentOf(k, k.path, above) == above;
      forall q | q in Paths(k.kids) && (ParentOf(k.kids, q, k.path) == k.path || ParentOf(k.kids, q, k.path) in inside)
        ensures q in inside
      {
        assert ParentOf(k, q, above) == ParentOf(k.kids, q, k.path);
      }
      AllInside(k.kids, k.path, inside);
      forall q | q in Paths(k.next) && (ParentOf(k.next, q, above) == above || ParentOf(k.next, q, above) in inside)
        ensures q in inside
      {
        assert ParentOf(k, q, above) == ParentOf(k.next, q, above);
      }
      AllInside(k.next, above, inside);
    }
  }

  /** Half of the step below: what hangs under the first root of `g` hangs under it in `f` too. */
  lemma KidsInside<T>(f: Forest<T>, g: Forest<T>, top: string)
    requires f.Node? && g.Node? && f.path == g.path
    requires Unique(f) && Unique(g) && top !in Paths(f) && SameContents(f, g, top)
    ensures Paths(g.kids) <= Paths(f.kids)
  {
    forall q | q in Paths(g.kids)
      && (ParentOf(g.kids, q, g.path) == g.path || ParentOf(g.kids, q, g.path) in Paths(f.kids))
      ensures q in Paths(f.kids)
    {
      assert ParentOf(g, q, top) == ParentOf(g.kids, q, g.path) == ParentOf(f, q, top);
      if q !in Paths(f.kids) {
        assert ParentOf(f, q, top) == ParentOf(f.next, q, top);
        ParentInside(f.next, q, top);
      }
    }
    AllInside(g.kids, g.path, Paths(f.kids));
  }

  lemma {:induction false} Extensional<T>(f: Forest<T>, g: Forest<T>, top: string)
    requires Unique(f) && Unique(g) && Sorted(f) && Sorted(g)
    requires top !in Paths(f) && SameContents(f, g, top)
    ensures f == g
  {
    if f.Node? && g.Node? {
      assert f.path in Paths(g) && g.path in Paths(f);
      FirstRootLeast(f, g.path, top);
      FirstRootLeast(g, f.path, top);
      LessTotal(f.path, g.path);
      KidsInside(f, g, top);
      KidsInside(g, f, top);
      forall p | p in Paths(f.kids)
        ensures Find(f.kids, p) == Find(g.kids, p) && ParentOf(f.kids, p, f.path) == ParentOf(g.kids, p, f.path)
      {
        assert Find(f, p) == Find(f.kids, p) && ParentOf(f, p, top) == ParentOf(f.kids, p, f.path);
      }
      Extensional(f.kids, g.kids, f.path);
      forall p | p in Paths(f.next)
        ensures p in Paths(g.next) && Find(f.next, p) == Find(g.next, p)
          && ParentOf(f.next, p, top) == ParentOf(g.next, p, top)
      {
        assert Find(f, p) == Find(f.next, p) && ParentOf(f, p, top) == ParentOf(f.next, p, top);
        assert p in Paths(g) && p != g.path && p !in Paths(g.kids);
      }
      assert Paths(g.next) <= Paths(f.next);
      Extensional(f.next, g.next, top);
      assert Find(f, f.path) == Find(g, f.path);
    }
  }
}
