/** What linked lists of siblings and sets of siblings have in common: which node is whose child and sibling, and what
    forest the data of the nodes spell, seen through a snapshot of the heap. */
module Shapes {
  import opened Forests

  /** The nodes of some siblings with their descendants. */
  datatype Shape<N> = Bare | Link(node: N, kids: Shape<N>, next: Shape<N>)

  /** What a snapshot says about one node. */
  datatype Cell<D> = Cell(path: string, data: D)

  ghost function Nodes<N>(s: Shape<N>): set<N> {
    match s
    case Bare => {}
    case Link(n, kids, next) => {n} + Nodes(kids) + Nodes(next)
  }

  ghost function Size<N>(s: Shape<N>): nat {
    match s
    case Bare => 0
    case Link(_, kids, next) => 1 + Size(kids) + Size(next)
  }

  ghost predicate Distinct<N>(s: Shape<N>) {
    match s
    case Bare => true
    case Link(n, kids, next) =>
      n !in Nodes(kids) && n !in Nodes(next) && Nodes(kids) !! Nodes(next) && Distinct(kids) && Distinct(next)
  }

  /** The forest that the nodes' data spell. */
  ghost function Contents<N, D>(c: map<N, Cell<D>>, s: Shape<N>): Forest<D>
    requires Nodes(s) <= c.Keys
  {
    match s
    case Bare => Nil
    case Link(n, kids, next) => Node(c[n].path, c[n].data, Contents(c, kids), Contents(c, next))
  }

  lemma {:induction false} ContentsSame<N, D>(c: map<N, Cell<D>>, c': map<N, Cell<D>>, s: Shape<N>)
    requires Nodes(s) <= c.Keys && forall n :: n in Nodes(s) ==> n in c' && c'[n] == c[n]
    ensures Contents(c', s) == Contents(c, s)
  {
    if s.Link? {
      ContentsSame(c, c', s.kids);
      ContentsSame(c, c', s.next);
    }
  }

  /** The siblings below a node. */
  ghost function KidsOf<N>(s: Shape<N>, x: N): Shape<N> {
    match s
    case Bare => Bare
    case Link(n, kids, next) =>
      if n == x then kids else if x in Nodes(kids) then KidsOf(kids, x) else KidsOf(next, x)
  }

  /** The shape without a node and what is below it. */
  ghost function Cut<N>(s: Shape<N>, x: N): Shape<N> {
    match s
    case Bare => Bare
    case Link(n, kids, next) =>
      if n == x then next
      else if x in Nodes(kids) then Link(n, Cut(kids, x), next)
      else Link(n, kids, Cut(next, x))
  }
}
