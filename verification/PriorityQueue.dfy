/** The heap of jobs waiting for a retry, ordered by due time, with every item knowing its own position. */
module PriorityQueues {
  import opened Options

  class Item<T> {
    const value: T
    const waitToTime: int
    var index: int

    constructor (value: T, waitToTime: int)
      ensures this.value == value && this.waitToTime == waitToTime
    {
      this.value, this.waitToTime, this.index := value, waitToTime, 0;
    }
  }

  // ---------------------------------------------------------------- heaps over values

  function Parent(i: nat): nat
    requires i > 0
  {
    (i - 1) / 2
  }

  predicate Below<T>(s: seq<Item<T>>, i: nat)
    requires 0 < i < |s|
  {
    s[Parent(i)].waitToTime <= s[i].waitToTime
  }

  /** Nobody among the first `n` is due before its parent. */
  ghost predicate Heap<T>(s: seq<Item<T>>, n: nat)
    requires n <= |s|
  {
    forall i {:trigger Below(s, i)} | 0 < i < n :: Below(s, i)
  }

  /** A heap but for the entry at `j`, which may be due before its parent. */
  ghost predicate HeapAbove<T>(s: seq<Item<T>>, n: nat, j: nat)
    requires n <= |s|
  {
    && (forall i {:trigger Below(s, i)} | 0 < i < n && i != j :: Below(s, i))
    && (forall i {:trigger Below(s, i)} | 0 < i < n && j > 0
        && Parent(i) == j :: s[Parent(j)].waitToTime <= s[i].waitToTime)
  }

  /** A heap but for the entry at `j`, which may be due after its children. */
  ghost predicate HeapBelow<T>(s: seq<Item<T>>, n: nat, j: nat)
    requires n <= |s|
  {
    && (forall i {:trigger Below(s, i)} | 0 < i < n && Parent(i) != j :: Below(s, i))
    && (forall i {:trigger Below(s, i)} | 0 < i < n && 0 < j < n
        && Parent(i) == j :: s[Parent(j)].waitToTime <= s[i].waitToTime)
  }

  function Swapped<T>(s: seq<T>, i: nat, j: nat): seq<T>
    requires i < |s| && j < |s|
  {
    s[i := s[j]][j := s[i]]
  }

  lemma SwapKeeps<T>(s: seq<T>, i: nat, j: nat)
    requires i < |s| && j < |s|
    ensures multiset(Swapped(s, i, j)) == multiset(s)
    ensures (set x | x in Swapped(s, i, j)) == (set x | x in s)
  {
    var s' := Swapped(s, i, j);
    assert forall x | x in s' :: x in multiset(s);
    assert forall x | x in s :: x in multiset(s');
  }

  /** One step up: the entry at `j` changes places with its parent. */
  lemma UpStep<T>(s: seq<Item<T>>, n: nat, j: nat)
    requires 0 < j < n <= |s| && HeapAbove(s, n, j) && !Below(s, j)
    ensures HeapAbove(Swapped(s, Parent(j), j), n, Parent(j))
  {
    var p, s' := Parent(j), Swapped(s, Parent(j), j);
    forall i | 0 < i < n && i != p
      ensures Below(s', i)
      ensures p > 0 && Parent(i) == p ==> s'[Parent(p)].waitToTime <= s'[i].waitToTime
    {
      assert i != j ==> Below(s, i);
      assert p > 0 ==> Below(s, p);
    }
  }

  lemma UpDone<T>(s: seq<Item<T>>, n: nat, j: nat)
    requires j < n <= |s| && HeapAbove(s, n, j) && (j == 0 || Below(s, j))
    ensures Heap(s, n)
  {
  }

  /** The child to compare with: the one due first, where there are two. */
  function FirstChild<T>(s: seq<Item<T>>, n: nat, j: nat): (c: nat)
    requires n <= |s| && 2 * j + 1 < n
    ensures 0 < c < n && Parent(c) == j
    ensures forall i | 0 < i < n && Parent(i) == j :: s[c].waitToTime <= s[i].waitToTime
  {
    if 2 * j + 2 < n && s[2 * j + 2].waitToTime < s[2 * j + 1].waitToTime then 2 * j + 2 else 2 * j + 1
  }

  /** One step down: the entry at `j` changes places with its first child. */
  lemma DownStep<T>(s: seq<Item<T>>, n: nat, j: nat)
    requires n <= |s| && 2 * j + 1 < n && HeapBelow(s, n, j)
    requires s[FirstChild(s, n, j)].waitToTime < s[j].waitToTime
    ensures HeapBelow(Swapped(s, j, FirstChild(s, n, j)), n, FirstChild(s, n, j))
  {
    var c := FirstChild(s, n, j);
    var s' := Swapped(s, j, c);
    assert j > 0 ==> Below(s, c) || s[Parent(j)].waitToTime <= s[c].waitToTime;
    forall i | 0 < i < n
      ensures Parent(i) != c ==> Below(s', i)
      ensures Parent(i) == c ==> s'[Parent(c)].waitToTime <= s'[i].waitToTime
    {
      assert Parent(i) != j ==> Below(s, i);
      if Parent(i) == c {
        assert Below(s, i);
      }
    }
  }

  lemma DownDone<T>(s: seq<Item<T>>, n: nat, j: nat)
    requires n <= |s| && HeapBelow(s, n, j)
    requires 2 * j + 1 < n ==> s[j].waitToTime <= s[FirstChild(s, n, j)].waitToTime
    ensures Heap(s, n)
  {
    forall i | 0 < i < n
      ensures Below(s, i)
    {
      if Parent(i) == j {
        assert 2 * j + 1 < n;
      }
    }
  }

  /** The top of a heap is due first. */
  lemma {:induction false} TopIsFirst<T>(s: seq<Item<T>>, n: nat, i: nat)
    requires i < n <= |s| && Heap(s, n)
    ensures s[0].waitToTime <= s[i].waitToTime
  {
    if i > 0 {
      TopIsFirst(s, n, Parent(i));
      assert Below(s, i);
    }
  }

  lemma LastToTop<T>(s: seq<Item<T>>)
    requires |s| > 0 && Heap(s, |s|)
    ensures HeapBelow(Swapped(s, 0, |s| - 1), |s| - 1, 0)
  {
    var s' := Swapped(s, 0, |s| - 1);
    forall i | 0 < i < |s| - 1 && Parent(i) != 0
      ensures Below(s', i)
    {
      assert Below(s, i);
    }
  }

  lemma AppendedAbove<T>(s: seq<Item<T>>, item: Item<T>)
    requires Heap(s, |s|)
    ensures HeapAbove(s + [item], |s| + 1, |s|)
  {
    forall i | 0 < i < |s| + 1
      ensures i != |s| ==> Below(s + [item], i)
      ensures Parent(i) != |s|
    {
      if i < |s| {
        assert Below(s, i);
      }
    }
  }

  // ---------------------------------------------------------------- the queue

  class PriorityQueue<T(0)> {
    var items: seq<Item<T>>

    constructor ()
      ensures Valid() && items == []
    {
      items := [];
    }

    /** Every item knows where it is; so no item is there twice. */
    ghost predicate Placed()
      reads this, items
    {
      forall i | 0 <= i < |items| :: items[i].index == i
    }

    ghost function Items(): set<Item<T>>
      reads this
    {
      set x | x in items
    }

    ghost predicate Valid()
      reads this, items
    {
      Placed() && Heap(items, |items|)
    }

    method Less(i: nat, j: nat) returns (r: bool)
      requires i < |items| && j < |items|
      ensures r <==> items[i].waitToTime < items[j].waitToTime
    {
      return items[i].waitToTime < items[j].waitToTime;
    }

    method Swap(i: nat, j: nat)
      requires Placed() && i < |items| && j < |items|
      modifies this, Items()
      ensures Placed() && items == Swapped(old(items), i, j)
      ensures multiset(items) == multiset(old(items)) && Items() == old(Items())
    {
      SwapKeeps(items, i, j);
      items := items[i := items[j]][j := items[i]];
      items[i].index := i;
      items[j].index := j;
    }

    method Push(item: Item<T>)
      requires Placed() && item !in items
      modifies this, item
      ensures Placed() && items == old(items) + [item]
    {
      item.index := |items|;
      items := items + [item];
    }

    method Pop() returns (item: Item<T>)
      requires Placed() && |items| > 0
      modifies this, Items()
      ensures Placed() && old(items) == items + [item] && item.index == -1
    {
      var n := |items|;
      item := items[n - 1];
      item.index := -1;
      items := items[0..n - 1];
    }

    /** Sifts the last item up. */
    method Up(last: nat)
      requires Placed() && last + 1 == |items| && HeapAbove(items, |items|, last)
      modifies this, Items()
      ensures Valid() && multiset(items) == multiset(old(items)) && Items() == old(Items())
    {
      var j: nat := last;
      while true
        invariant j < |items| == last + 1 && Placed() && HeapAbove(items, |items|, j)
        invariant multiset(items) == multiset(old(items)) && Items() == old(Items())
        decreases j
      {
        var i: nat := if j == 0 then 0 else (j - 1) / 2;
        if i == j {
          break;
        }
        var less := Less(j, i);
        if !less {
          break;
        }
        UpStep(items, |items|, j);
        Swap(i, j);
        j := i;
      }
      UpDone(items, |items|, j);
    }

    /** Sifts the first item down among the first `n`. */
    method Down(n: nat)
      requires Placed() && n <= |items| && HeapBelow(items, n, 0)
      modifies this, Items()
      ensures Placed() && |items| == |old(items)| && Heap(items, n) && items[n..] == old(items)[n..]
      ensures multiset(items) == multiset(old(items)) && Items() == old(Items())
    {
      var i: nat := 0;
      while true
        invariant |items| == |old(items)| && Placed() && HeapBelow(items, n, i) && items[n..] == old(items)[n..]
        invariant multiset(items) == multiset(old(items)) && Items() == old(Items())
        decreases n - i
      {
        var j1 := 2 * i + 1;
        if j1 >= n {
          break;
        }
        var j := j1;
        if j1 + 1 < n {
          var less := Less(j1 + 1, j1);
          if less {
            j := j1 + 1;
          }
        }
        assert j == FirstChild(items, n, i);
        var less := Less(j, i);
        if !less {
          break;
        }
        DownStep(items, n, i);
        Swap(i, j);
        i := j;
      }
      DownDone(items, n, i);
    }

    /** Adds a new item. */
    method Enqueue(item: Item<T>)
      requires Valid() && item !in items
      modifies this, Items(), item
      ensures Valid() && multiset(items) == multiset(old(items)) + multiset{item}
    {
      ghost var before := items;
      Push(item);
      AppendedAbove(before, item);
      Up(|items| - 1);
    }

    /** Takes out an item that is due first. */
    method Dequeue() returns (r: Option<T>, ghost item: Option<Item<T>>)
      requires Valid()
      modifies this, Items()
      ensures Valid() && (r.None? <==> old(items) == [])
      ensures r.None? ==> item.None? && items == []
      ensures r.Some? ==>
                && item.Some? && r.value == item.value.value && item.value.index == -1
                && multiset(old(items)) == multiset(items) + multiset{item.value}
                && forall x | x in old(items) :: item.value.waitToTime <= x.waitToTime
    {
      if |items| == 0 {
        return None, None;
      }
      var n := |items| - 1;
      ghost var was := items;
      LastToTop(items);
      Swap(0, n);
      ghost var swapped := items;
      Down(n);
      assert items[n] == items[n..][0] == swapped[n..][0] == was[0];
      ghost var whole := items;
      var first := Pop();
      Remainder(whole, items, first);
      FirstOfAll(was);
      return Some(first.value), Some(first);
    }

    /** The item due first, left in place. */
    method Top() returns (r: Option<Item<T>>)
      requires Valid()
      ensures r.None? <==> items == []
      ensures r.Some? ==> r.value in items && forall x | x in items :: r.value.waitToTime <= x.waitToTime
    {
      if |items| == 0 {
        return None;
      }
      FirstOfAll(items);
      return Some(items[0]);
    }
  }

  lemma Remainder<T>(whole: seq<Item<T>>, rest: seq<Item<T>>, last: Item<T>)
    requires whole == rest + [last] && Heap(whole, |rest|)
    ensures multiset(whole) == multiset(rest) + multiset{last} && Heap(rest, |rest|)
  {
    forall i | 0 < i < |rest|
      ensures Below(rest, i)
    {
      assert Below(whole, i);
    }
  }

  lemma FirstOfAll<T>(s: seq<Item<T>>)
    requires s != [] && Heap(s, |s|)
    ensures forall x | x in s :: s[0].waitToTime <= x.waitToTime
  {
    forall i | 0 <= i < |s|
      ensures s[0].waitToTime <= s[i].waitToTime
    {
      TopIsFirst(s, |s|, i);
    }
  }
}
