/** The linked queue of one monitor: records are appended behind `last` and taken from `first`. */
module MonitorQueue {
  import opened Basics

  class Cell {
    const item: nat
    var next: Cell?

    constructor (item: nat)
      ensures this.item == item && next == null
    {
      this.item := item;
      next := null;
    }
  }

  class Queue {
    var first: Cell?
    var last: Cell?
    ghost var cells: seq<Cell>

    ghost predicate Valid()
      reads this, cells
    {
      (forall i, j :: 0 <= i < j < |cells| ==> cells[i] != cells[j])
      && (forall i :: 0 <= i < |cells| - 1 ==> cells[i].next == cells[i + 1])
      && (cells == [] ==> first == null && last == null)
      && (cells != [] ==> first == cells[0] && last == cells[|cells| - 1] && last.next == null)
    }

    ghost function Items(): seq<nat>
      reads this, cells
    {
      seq(|cells|, i requires 0 <= i < |cells| reads this, cells => cells[i].item)
    }

    constructor ()
      ensures Valid() && Items() == []
    {
      first, last, cells := null, null, [];
    }

    method Add(item: nat)
      requires Valid()
      modifies this, set c | c in cells
      ensures Valid() && Items() == old(Items()) + [item] && |cells| == old(|cells|) + 1 && fresh(cells[old(|cells|)])
      ensures cells[..old(|cells|)] == old(cells)
    {
      var cell := new Cell(item);
      if last != null {
        last.next := cell;
        last := last.next;
      } else {
        first := cell;
        last := first;
      }
      cells := cells + [cell];
    }

    /** The oldest record, if there is one. */
    method Take() returns (item: Option<nat>)
      requires Valid()
      modifies this
      ensures Valid()
      ensures if old(Items()) == [] then item == None && Items() == []
              else item == Some(old(Items())[0]) && Items() == old(Items())[1..]
    {
      if first == null { return None; }
      item := Some(first.item);
      if first != last {
        first := first.next;
      } else {
        first, last := null, null;
      }
      cells := cells[1..];
    }
  }
}
