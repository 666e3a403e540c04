/** How the scheduler picks a worker: the least loaded capable one, the larger of two equally loaded ones. */
module Selection {
  import opened Options
  import opened Sequences

  /** A worker in the scheduler's snapshot of those alive. */
  datatype Worker = Worker(id: string, capabilities: seq<string>, capacity: int, running: int)

  /** A floating-point ratio; a division by zero gives an infinity, or no number at all. */
  datatype Load = Ratio(value: real) | PosInf | NegInf | NaN

  function LoadOf(w: Worker): Load {
    if w.capacity != 0 then Ratio(w.running as real / w.capacity as real)
    else if w.running > 0 then PosInf
    else if w.running < 0 then NegInf
    else NaN
  }

  predicate SameLoad(x: Load, y: Load) {
    x == y && !x.NaN?
  }

  predicate LessLoad(x: Load, y: Load) {
    match (x, y)
    case (Ratio(a), Ratio(b)) => a < b
    case (NegInf, Ratio(_)) => true
    case (NegInf, PosInf) => true
    case (Ratio(_), PosInf) => true
    case _ => false
  }

  /** The comparison the candidates are sorted by. */
  predicate Better(w1: Worker, w2: Worker) {
    if !SameLoad(LoadOf(w1), LoadOf(w2)) then LessLoad(LoadOf(w1), LoadOf(w2))
    else w1.capacity > w2.capacity
  }

  /** The worker has capacity and load zero, so that its load is no number. */
  predicate Unrated(w: Worker) {
    LoadOf(w).NaN?
  }

  /** A worker without capacity comes after every other if it has tasks; otherwise it neither beats nor is beaten. */
  lemma NoCapacity(w: Worker, v: Worker)
    requires w.capacity == 0 && w.running >= 0 && v.capacity != 0
    ensures !Better(w, v) && (Better(v, w) <==> w.running > 0)
  {
  }

  /** For positive capacities the comparison is the exact one of cross-multiplied ratios. */
  lemma BetterByCrossProducts(w1: Worker, w2: Worker)
    requires w1.capacity > 0 && w2.capacity > 0
    ensures Better(w1, w2) <==>
            || w1.running * w2.capacity < w2.running * w1.capacity
            || (w1.running * w2.capacity == w2.running * w1.capacity && w1.capacity > w2.capacity)
  {
    var a, b := w1.running as real / w1.capacity as real, w2.running as real / w2.capacity as real;
    CrossProducts(w1.running, w1.capacity, w2.running, w2.capacity);
  }

  lemma CrossProducts(r1: int, c1: int, r2: int, c2: int)
    requires c1 > 0 && c2 > 0
    ensures r1 as real / c1 as real < r2 as real / c2 as real <==> r1 * c2 < r2 * c1
    ensures r1 as real / c1 as real == r2 as real / c2 as real <==> r1 * c2 == r2 * c1
  {
    var k := c1 as real * c2 as real;
    Scaled(r1 as real / c1 as real, r2 as real / c2 as real, k);
    TimesProduct(r1, c1, c2);
    TimesProduct(r2, c2, c1);
    assert c2 as real * c1 as real == k;
  }

  lemma TimesProduct(r: int, c: int, d: int)
    requires c > 0
    ensures (r as real / c as real) * (c as real * d as real) == (r * d) as real
  {
    var a, x, y := r as real / c as real, c as real, d as real;
    assert a * x == r as real;
    assert a * (x * y) == (a * x) * y;
  }

  lemma Scaled(a: real, b: real, k: real)
    requires k > 0.0
    ensures a < b <==> a * k < b * k
    ensures a == b <==> a * k == b * k
  {
    assert b * k - a * k == (b - a) * k;
  }

  // ---------------------------------------------------------------- a strict weak order

  /** What sorting asks of a comparison. */
  ghost predicate StrictWeakOrder(ws: set<Worker>) {
    && (forall a | a in ws :: !Better(a, a))
    && (forall a, b, c | a in ws && b in ws && c in ws && Better(a, b) && Better(b, c) :: Better(a, c))
    && (forall a, b, c | a in ws && b in ws && c in ws && Better(a, c) :: Better(a, b) || Better(b, c))
  }

  ghost predicate SomeBetter(ws: set<Worker>) {
    exists a, b :: a in ws && b in ws && Better(a, b)
  }

  /** The comparison is a strict weak order exactly on workers that all have a load, or none of which beats another. */
  lemma {:induction false} OrderedIffRated(ws: set<Worker>)
    ensures StrictWeakOrder(ws) <==> (forall w | w in ws :: !Unrated(w)) || !SomeBetter(ws)
  {
    if w :| w in ws && Unrated(w) {
      forall v
        ensures !Better(w, v) && !Better(v, w)
      {
      }
      if a, b :| a in ws && b in ws && Better(a, b) {
        assert !Better(a, w) && !Better(w, b);
      }
    }
  }

  // ---------------------------------------------------------------- sorting

  /** Moves `w` to the left past all it beats. */
  function Insert(sorted: seq<Worker>, w: Worker): seq<Worker> {
    if sorted == [] || !Better(w, sorted[|sorted| - 1]) then sorted + [w]
    else Insert(sorted[..|sorted| - 1], w) + [sorted[|sorted| - 1]]
  }

  function Sort(ws: seq<Worker>): seq<Worker> {
    if ws == [] then [] else Insert(Sort(ws[..|ws| - 1]), ws[|ws| - 1])
  }

  lemma {:induction false} InsertKeeps(sorted: seq<Worker>, w: Worker)
    ensures multiset(Insert(sorted, w)) == multiset(sorted) + multiset{w}
  {
    if !(sorted == [] || !Better(w, sorted[|sorted| - 1])) {
      InsertKeeps(sorted[..|sorted| - 1], w);
      assert sorted == sorted[..|sorted| - 1] + [sorted[|sorted| - 1]];
    }
  }

  lemma LastAndRest(ws: seq<Worker>)
    requires ws != []
    ensures multiset(ws) == multiset(ws[..|ws| - 1]) + multiset{ws[|ws| - 1]}
  {
    assert ws == ws[..|ws| - 1] + [ws[|ws| - 1]];
  }

  lemma {:induction false} SortKeeps(ws: seq<Worker>)
    ensures multiset(Sort(ws)) == multiset(ws)
  {
    if ws != [] {
      var rest, last := ws[..|ws| - 1], ws[|ws| - 1];
      SortKeeps(rest);
      InsertKeeps(Sort(rest), last);
      LastAndRest(ws);
    }
  }

  /** Nobody in `ws` beats the first of them. */
  ghost predicate FirstIsBest(ws: seq<Worker>) {
    ws != [] ==> forall w | w in ws :: !Better(w, ws[0])
  }

  ghost predicate Ascending(ws: seq<Worker>) {
    forall i, j | 0 <= i < j < |ws| :: !Better(ws[j], ws[i])
  }

  lemma InsertMember(sorted: seq<Worker>, w: Worker, x: Worker)
    ensures x in Insert(sorted, w) <==> x in sorted || x == w
  {
    InsertKeeps(sorted, w);
    assert x in Insert(sorted, w) <==> x in multiset(Insert(sorted, w));
    assert x in sorted <==> x in multiset(sorted);
  }

  lemma {:induction false} InsertKeepsAscending(sorted: seq<Worker>, w: Worker, all: set<Worker>)
    requires StrictWeakOrder(all) && w in all && (forall x | x in sorted :: x in all)
    requires Ascending(sorted)
    ensures Ascending(Insert(sorted, w))
  {
    var r := Insert(sorted, w);
    if sorted == [] || !Better(w, sorted[|sorted| - 1]) {
      forall i, j | 0 <= i < j < |r|
        ensures !Better(r[j], r[i])
      {
        if j == |sorted| && i < |sorted| - 1 {
          assert !Better(sorted[|sorted| - 1], sorted[i]);
        }
      }
    } else {
      var rest, last := sorted[..|sorted| - 1], sorted[|sorted| - 1];
      InsertKeepsAscending(rest, w, all);
      forall i | 0 <= i < |r| - 1
        ensures !Better(last, r[i])
      {
        InsertMember(rest, w, r[i]);
      }
    }
  }

  lemma {:induction false} SortIsAscending(ws: seq<Worker>, all: set<Worker>)
    requires StrictWeakOrder(all) && (forall x | x in ws :: x in all)
    ensures Ascending(Sort(ws))
  {
    if ws != [] {
      var rest, last := ws[..|ws| - 1], ws[|ws| - 1];
      SortIsAscending(rest, all);
      SortKeeps(rest);
      forall x | x in Sort(rest)
        ensures x in all
      {
        assert x in multiset(Sort(rest));
      }
      InsertKeepsAscending(Sort(rest), last, all);
    }
  }

  /** Sorted in any order in which the snapshot may list them, the first worker is beaten by none. */
  ghost predicate RightInEveryOrder(ws: seq<Worker>) {
    forall vs | multiset(vs) == multiset(ws) :: FirstIsBest(Sort(vs))
  }

  /** What any sort promises: neighbours are in order. */
  ghost predicate NeighboursInOrder(ws: seq<Worker>) {
    forall i {:trigger InOrderAt(ws, i)} | 0 <= i < |ws| - 1 :: InOrderAt(ws, i)
  }

  predicate InOrderAt(ws: seq<Worker>, i: nat)
    requires i < |ws| - 1
  {
    !Better(ws[i + 1], ws[i])
  }

  /** Neighbours in order by a strict weak order put the whole sequence in order. */
  lemma {:induction false} NeighboursAscend(ws: seq<Worker>, all: set<Worker>, i: nat, j: nat)
    requires StrictWeakOrder(all) && (forall w | w in ws :: w in all) && NeighboursInOrder(ws)
    requires i < j < |ws|
    ensures !Better(ws[j], ws[i])
    decreases j
  {
    assert InOrderAt(ws, j - 1);
    if i < j - 1 {
      NeighboursAscend(ws, all, i, j - 1);
      assert ws[i] in all && ws[j - 1] in all && ws[j] in all;
    }
  }

  /** However they are sorted, as long as neighbours end up in order: if all workers have a load, or none beats another,
      the first is beaten by none. */
  lemma {:induction false} AnySortIsRight(ws: seq<Worker>, sorted: seq<Worker>)
    requires (forall w | w in ws :: !Unrated(w)) || !SomeBetter(set w | w in ws)
    requires multiset(sorted) == multiset(ws) && NeighboursInOrder(sorted)
    ensures FirstIsBest(sorted)
  {
    var all := set w | w in ws;
    OrderedIffRated(all);
    forall w | w in sorted
      ensures w in all
    {
      SameMembers(sorted, ws, w);
    }
    forall j | 0 <= j < |sorted|
      ensures !Better(sorted[j], sorted[0])
    {
      if j == 0 {
        assert sorted[0] in all;
      } else {
        NeighboursAscend(sorted, all, 0, j);
      }
    }
  }

  lemma {:induction false} RatedAreSorted(ws: seq<Worker>)
    requires (forall w | w in ws :: !Unrated(w)) || !SomeBetter(set w | w in ws)
    ensures FirstIsBest(Sort(ws))
  {
    OrderedIffRated(set w | w in ws);
    SortIsAscending(ws, set w | w in ws);
    SortKeeps(ws);
    assert NeighboursInOrder(Sort(ws));
    AnySortIsRight(ws, Sort(ws));
  }

  /** Insertion never passes an unrated worker. */
  lemma {:induction false} InsertStopsAtUnrated(sorted: seq<Worker>, w: Worker, k: nat)
    requires k < |sorted| && Unrated(sorted[k])
    ensures |Insert(sorted, w)| == |sorted| + 1 && Insert(sorted, w)[..k + 1] == sorted[..k + 1]
  {
    var rest, last := sorted[..|sorted| - 1], sorted[|sorted| - 1];
    if Better(w, last) {
      assert k < |rest| && rest[..k + 1] == sorted[..k + 1];
      InsertStopsAtUnrated(rest, w, k);
      assert (Insert(rest, w) + [last])[..k + 1] == Insert(rest, w)[..k + 1];
    }
  }

  lemma {:induction false} UnratedBlocks(first: Worker, unrated: Worker, rest: seq<Worker>)
    requires Unrated(unrated)
    ensures |Sort([first, unrated] + rest)| >= 2 && Sort([first, unrated] + rest)[..2] == [first, unrated]
  {
    var ws := [first, unrated] + rest;
    if rest == [] {
      assert ws == [first, unrated];
      SortTwo(first, unrated);
    } else {
      var front := [first, unrated] + rest[..|rest| - 1];
      assert ws[..|ws| - 1] == front;
      UnratedBlocks(first, unrated, rest[..|rest| - 1]);
      InsertStopsAtUnrated(Sort(front), ws[|ws| - 1], 1);
    }
  }

  lemma SortTwo(first: Worker, unrated: Worker)
    requires Unrated(unrated)
    ensures Sort([first, unrated]) == [first, unrated]
  {
    assert [first][..0] == [] && Sort([first]) == [first];
    assert [first, unrated][..1] == [first];
  }

  /** If some worker is unrated and some worker beats another, then listing the beaten one first and the unrated
      one second hides everybody else behind it. */
  lemma {:induction false} UnratedMisleads(ws: seq<Worker>, unrated: Worker, a: Worker, b: Worker)
    requires unrated in ws && a in ws && b in ws && Unrated(unrated) && Better(a, b)
    ensures !RightInEveryOrder(ws)
  {
    var i :| 0 <= i < |ws| && ws[i] == b;
    var one := Without(ws, i);
    WithoutOne(ws, i);
    assert unrated != b && unrated in multiset(ws);
    assert unrated in multiset(one);
    var j :| 0 <= j < |one| && one[j] == unrated;
    var two := Without(one, j);
    WithoutOne(one, j);
    TwoInFront(b, unrated, two);
    NotBest([b, unrated] + two, ws, a);
  }

  lemma TwoInFront(b: Worker, unrated: Worker, two: seq<Worker>)
    requires Unrated(unrated)
    ensures multiset([b, unrated] + two) == multiset(two) + multiset{unrated} + multiset{b}
    ensures Sort([b, unrated] + two) != [] && Sort([b, unrated] + two)[0] == b
  {
    UnratedBlocks(b, unrated, two);
    assert Sort([b, unrated] + two)[0] == Sort([b, unrated] + two)[..2][0];
  }

  lemma NotBest(vs: seq<Worker>, ws: seq<Worker>, a: Worker)
    requires multiset(vs) == multiset(ws) && a in ws && Sort(vs) != [] && Better(a, Sort(vs)[0])
    ensures !RightInEveryOrder(ws)
  {
    SortKeeps(vs);
    SameMembers(Sort(vs), ws, a);
    assert !FirstIsBest(Sort(vs));
  }

  /** The choice is right in whatever order the workers are listed exactly when every candidate has a load, or
      none beats another. A candidate without capacity and without tasks is enough to break it. That the condition is
      enough holds for every sort (`AnySortIsRight`); that it is necessary is shown for insertion sort, which Go's
      `sort.Slice` uses up to twelve entries. */
  lemma {:induction false} ChoiceIsRightIff(ws: seq<Worker>)
    ensures RightInEveryOrder(ws) <==> (forall w | w in ws :: !Unrated(w)) || !SomeBetter(set w | w in ws)
  {
    if (forall w | w in ws :: !Unrated(w)) || !SomeBetter(set w | w in ws) {
      forall vs | multiset(vs) == multiset(ws)
        ensures FirstIsBest(Sort(vs))
      {
        forall w
          ensures w in vs <==> w in ws
        {
          SameMembers(vs, ws, w);
        }
        assert (set w | w in vs) == (set w | w in ws);
        RatedAreSorted(vs);
      }
    } else {
      var unrated :| unrated in ws && Unrated(unrated);
      var all := set w | w in ws;
      var a, b :| a in all && b in all && Better(a, b);
      UnratedMisleads(ws, unrated, a, b);
    }
  }

  /** A busy worker is chosen over an idle one because a worker without capacity stands between them. */
  lemma BusyWorkerChosen(busy: Worker, broken: Worker, idle: Worker)
    requires busy.capacity == 10 && busy.running == 9
    requires broken.capacity == 0 && broken.running == 0
    requires idle.capacity == 10 && idle.running == 0
    ensures Better(idle, busy) && Sort([busy, broken, idle])[..1] == [busy]
  {
    UnratedBlocks(busy, broken, [idle]);
    assert [busy, broken, idle] == [busy, broken] + [idle];
    assert Sort([busy, broken, idle])[..1] == Sort([busy, broken, idle])[..2][..1];
  }

  // ---------------------------------------------------------------- the program's own steps

  function Candidates(ws: seq<Worker>, taskType: string): seq<Worker> {
    if ws == [] then []
    else Candidates(ws[..|ws| - 1], taskType) + if taskType in ws[|ws| - 1].capabilities then [ws[|ws| - 1]] else []
  }

  lemma {:induction false} CandidatesAreCapable(ws: seq<Worker>, taskType: string, w: Worker)
    ensures w in Candidates(ws, taskType) <==> w in ws && taskType in w.capabilities
  {
    if ws != [] {
      assert ws == ws[..|ws| - 1] + [ws[|ws| - 1]];
      CandidatesAreCapable(ws[..|ws| - 1], taskType, w);
    }
  }

  /** Moves entry `i` of the array to the left past all it beats. */
  method InsertInPlace(a: array<Worker>, i: nat)
    requires i < a.Length
    modifies a
    ensures a[..i + 1] == Insert(old(a[..i]), old(a[i])) && a[i + 1..] == old(a[i + 1..])
  {
    ghost var w, before := a[i], a[..i];
    var j := i;
    assert a[j + 1..i + 1] == [];
    while j > 0 && Better(a[j], a[j - 1])
      invariant 0 <= j <= i && a[j] == w && a[i + 1..] == old(a[i + 1..])
      invariant Insert(before, w) == Insert(a[..j], w) + a[j + 1..i + 1]
    {
      ghost var left, right := a[..j], a[j + 1..i + 1];
      assert left[..j - 1] == a[..j - 1];
      a[j], a[j - 1] := a[j - 1], a[j];
      InsertedOneFurther(before, w, left, right, a[..j - 1], a[j..i + 1]);
      j := j - 1;
    }
    assert a[..i + 1] == a[..j] + [w] + a[j + 1..i + 1];
    assert j > 0 ==> a[..j][j - 1] == a[j - 1];
  }

  lemma InsertedOneFurther(before: seq<Worker>, w: Worker, left: seq<Worker>, right: seq<Worker>, left': seq<Worker>,
                           right': seq<Worker>)
    requires left != [] && Better(w, left[|left| - 1])
    requires Insert(before, w) == Insert(left, w) + right
    requires left' == left[..|left| - 1] && right' == [left[|left| - 1]] + right
    ensures Insert(before, w) == Insert(left', w) + right'
  {
  }

  /** Sorts the candidates in place. */
  method SortInPlace(a: array<Worker>)
    modifies a
    ensures a[..] == Sort(old(a[..]))
  {
    ghost var was := a[..];
    for i := 0 to a.Length
      invariant a[..i] == Sort(was[..i]) && a[i..] == was[i..]
    {
      assert was[..i + 1][..i] == was[..i] && was[..i + 1][i] == was[i] == was[i..][0] == a[i..][0] == a[i];
      assert a[i..][1..] == a[i + 1..] && was[i..][1..] == was[i + 1..];
      InsertInPlace(a, i);
    }
    assert was[..a.Length] == was && a[..a.Length] == a[..];
  }

  /** What the choice of a worker for a kind of task must be. */
  ghost predicate RightChoice(ws: seq<Worker>, taskType: string, choice: Option<string>) {
    match choice
    case None => forall w | w in ws :: taskType !in w.capabilities
    case Some(id) => exists w :: w in ws && w.id == id && taskType in w.capabilities && Unbeaten(ws, taskType, w)
  }

  /** No capable worker beats `w`, as long as all capable workers have a load. */
  ghost predicate Unbeaten(ws: seq<Worker>, taskType: string, w: Worker) {
    (forall v | v in ws && taskType in v.capabilities :: !Unrated(v)) ==> forall v | v in ws
        && taskType in v.capabilities :: !Better(v, w)
  }

  /** Picks a worker for a kind of task, if one can do it. */
  method SelectWorker(ws: seq<Worker>, taskType: string) returns (choice: Option<string>)
    ensures RightChoice(ws, taskType, choice)
    ensures choice.None? <==> forall w | w in ws :: taskType !in w.capabilities
    ensures choice.Some? ==>
              exists w ::
                && w in ws && w.id == choice.value && taskType in w.capabilities
                && ((exists v :: v in ws && taskType in v.capabilities && v.capacity == 0 == v.running)
                    || forall v | v in ws && taskType in v.capabilities :: !Better(v, w))
  {
    if |ws| == 0 {
      return None;
    }
    var candidates := [];
    for i := 0 to |ws|
      invariant candidates == Candidates(ws[..i], taskType)
    {
      assert ws[..i + 1][..i] == ws[..i];
      if taskType in ws[i].capabilities {
        candidates := candidates + [ws[i]];
      }
    }
    assert ws[..|ws|] == ws;
    ghost var found := candidates;
    if |candidates| == 0 {
      NobodyCapable(ws, taskType);
      return None;
    }
    var a := new Worker[|candidates|](i requires 0 <= i < |candidates| => candidates[i]);
    assert a[..] == candidates;
    SortInPlace(a);
    FirstIsRight(ws, taskType);
    assert a[0] == Sort(candidates)[0];
    return Some(a[0].id);
  }

  lemma NobodyCapable(ws: seq<Worker>, taskType: string)
    requires Candidates(ws, taskType) == []
    ensures RightChoice(ws, taskType, None)
  {
    forall w | w in ws
      ensures taskType !in w.capabilities
    {
      CandidatesAreCapable(ws, taskType, w);
    }
  }

  lemma FirstIsRight(ws: seq<Worker>, taskType: string)
    requires Candidates(ws, taskType) != []
    ensures Sort(Candidates(ws, taskType)) != [] && RightChoice(ws, taskType,
                                                                Some(Sort(Candidates(ws, taskType))[0].id))
  {
    var cs := Candidates(ws, taskType);
    SortKeeps(cs);
    assert |Sort(cs)| == |multiset(Sort(cs))| == |multiset(cs)| == |cs|;
    var first := Sort(cs)[0];
    SameMembers(Sort(cs), cs, first);
    CandidatesAreCapable(ws, taskType, first);
    if forall v | v in ws && taskType in v.capabilities :: !Unrated(v) {
      forall v | v in cs
        ensures !Unrated(v)
      {
        CandidatesAreCapable(ws, taskType, v);
      }
      RatedAreSorted(cs);
      forall v | v in ws && taskType in v.capabilities
        ensures !Better(v, first)
      {
        CandidatesAreCapable(ws, taskType, v);
        SameMembers(Sort(cs), cs, v);
      }
    }
    assert Unbeaten(ws, taskType, first);
  }
}
