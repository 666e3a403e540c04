/** The singly linked queue of the worker pool; the retry queue of the control plane is built the same way. */
module LinkedQueues {
  import opened Options

  class Node<T> {
    const value: T
    var next: Node?<T>

    constructor (value: T)
      ensures this.value == value && next == null
    {
      this.value, this.next := value, null;
    }
  }

  class LinkedQueue<T> {
    var head: Node?<T>
    var tail: Node?<T>
    var size: int
    /** The nodes from head to tail. */
    ghost var spine: seq<Node<T>>

    constructor ()
      ensures Valid() && Contents() == [] && Nodes() == {}
    {
      head, tail, size, spine := null, null, 0, [];
    }

    ghost function Nodes(): set<Node<T>>
      reads this
    {
      set n | n in spine
    }

    ghost predicate Valid()
      reads this, spine
    {
      && size == |spine|
      && (spine == [] ==> head == null && tail == null)
      && (spine != [] ==> head == spine[0] && tail == spine[|spine| - 1] && tail.next == null)
      && (forall i | 0 <= i < |spine| - 1 :: spine[i].next == spine[i + 1])
      && (forall i, j | 0 <= i < j < |spine| :: spine[i] != spine[j])
    }

    ghost function Contents(): seq<T>
      reads this
    {
      seq(|spine|, i requires 0 <= i < |spine| reads this => spine[i].value)
    }

    /** Appends a value. */
    method Queue(value: T)
      requires Valid()
      modifies this, Nodes()
      ensures Valid() && Contents() == old(Contents()) + [value] && size == old(size) + 1
      ensures fresh(Nodes() - old(Nodes()))
    {
      var item := new Node(value);
      if head == null {
        head := item;
        tail := item;
      } else {
        tail.next := item;
        tail := item;
      }
      spine := spine + [item];
      size := size + 1;
    }

    /** Removes the oldest value. */
    method Dequeue() returns (r: Option<T>)
      requires Valid()
      modifies this, Nodes()
      ensures Valid() && Nodes() <= old(Nodes())
      ensures r.None? <==> old(Contents()) == []
      ensures r.None? ==> Contents() == [] && size == old(size)
      ensures r.Some? ==> old(Contents()) == [r.value] + Contents() && size == old(size) - 1
    {
      if head == null {
        return None;
      }
      var first := head;
      head := head.next;
      if head == null {
        tail := null;
      }
      first.next := null;
      size := size - 1;
      spine := spine[1..];
      return Some(first.value);
    }
  }
}
