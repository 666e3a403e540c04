/** The scheduler's queue of ready jobs: a window into a growing array, of which popped batches keep a share. */
module ReadyQueues {
  import opened EngineModel

  /** A Go slice: a window of an array that other slices may share. */
  datatype Slice = Slice(arr: array<Job>, off: nat, len: nat) {
    ghost predicate Valid() {
      off + len <= arr.Length
    }

    ghost function Contents(): seq<Job>
      requires Valid()
      reads arr
    {
      arr[off..off + len]
    }
  }

  class ReadyQueue {
    var items: Slice

    constructor ()
      ensures Valid() && Contents() == [] && fresh(items.arr)
    {
      var arr := new Job[0];
      items := Slice(arr, 0, 0);
    }

    ghost predicate Valid()
      reads this
    {
      items.Valid()
    }

    ghost function Contents(): seq<Job>
      requires Valid()
      reads this, items.arr
    {
      items.Contents()
    }

    /** The batch lies before the queue's window, or in an array the queue has left. */
    ghost predicate Behind(batch: Slice)
      reads this
    {
      batch.Valid() && (batch.arr != items.arr || batch.off + batch.len <= items.off)
    }

    /** Appends in place while the array has room; otherwise moves to a bigger one with `spare` further places.
        No batch popped earlier is overwritten. */
    method Push(job: Job, spare: nat, ghost batch: Slice)
      requires Valid() && Behind(batch)
      modifies this, items.arr
      ensures Valid() && Contents() == old(Contents()) + [job]
      ensures Behind(batch) && batch.Contents() == old(batch.Contents())
      ensures items.arr == old(items.arr) || fresh(items.arr)
    {
      if items.off + items.len == items.arr.Length {
        Grow(spare, batch);
      }
      var end := items.off + items.len;
      ghost var was := Contents();
      items.arr[end] := job;
      items := items.(len := items.len + 1);
      assert Contents() == was + [job];
    }

    /** Moves to a bigger array. */
    method Grow(spare: nat, ghost batch: Slice)
      requires Valid() && Behind(batch)
      modifies this
      ensures Valid() && Contents() == old(Contents()) && Behind(batch)
      ensures fresh(items.arr) && items.arr.Length == items.len + 1 + spare && items.off == 0
    {
      var bigger := new Job[items.len + 1 + spare];
      ghost var was := Contents();
      for i := 0 to items.len
        invariant items == old(items) && bigger[..i] == was[..i]
      {
        bigger[i] := items.arr[items.off + i];
        assert bigger[i] == was[i];
      }
      items := Slice(bigger, 0, items.len);
      assert Contents() == was;
    }

    /** Cuts off the first `n` jobs, or all if there are fewer; the batch shares the queue's array. */
    method PopBatch(n: nat) returns (batch: Slice)
      requires Valid()
      modifies this
      ensures Valid() && Behind(batch) && batch.arr == items.arr == old(items.arr)
      ensures var k := if n > |old(Contents())| then |old(Contents())| else n;
              batch.Contents() == old(Contents())[..k] && Contents() == old(Contents())[k..]
    {
      var k := if n > items.len then items.len else n;
      batch := items.(len := k);
      items := Slice(items.arr, items.off + k, items.len - k);
      assert old(Contents()) == batch.Contents() + Contents();
    }
  }
}
