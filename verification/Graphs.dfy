/** Dependency graphs: a node maps to the nodes it depends on. */
module Graphs {

  type Graph = map<string, seq<string>>

  /** Every edge ends in a node of the graph. */
  ghost predicate Closed(g: Graph) {
    forall n, d | n in g && d in g[n] :: d in g
  }

  ghost predicate IsWalk(g: Graph, w: seq<string>) {
    && |w| >= 1
    && (forall i | 0 <= i < |w| :: w[i] in g)
    && (forall i | 0 <= i < |w| - 1 :: w[i + 1] in g[w[i]])
  }

  ghost predicate IsCycle(g: Graph, w: seq<string>) {
    |w| >= 2 && IsWalk(g, w) && w[0] == w[|w| - 1]
  }

  ghost predicate Acyclic(g: Graph) {
    forall w :: !IsCycle(g, w)
  }

  /** `to` can be reached from `from` along dependency edges (zero or more). */
  ghost predicate Reaches(g: Graph, from: string, to: string) {
    exists w :: IsWalk(g, w) && w[0] == from && w[|w| - 1] == to
  }

  /** A cycle that a search from `from` can run into. */
  ghost predicate CycleReachableFrom(g: Graph, from: string) {
    exists w :: IsCycle(g, w) && Reaches(g, from, w[0])
  }

  lemma WalkStep(g: Graph, w: seq<string>, d: string)
    requires IsWalk(g, w) && d in g && d in g[w[|w| - 1]]
    ensures IsWalk(g, w + [d])
  {
  }

  lemma ReachSelf(g: Graph, a: string)
    requires a in g
    ensures Reaches(g, a, a)
  {
    assert IsWalk(g, [a]) && [a][0] == a && [a][|[a]| - 1] == a;
  }

  ghost predicate DependsInto(g: Graph, n: string, s: set<string>) {
    n in g && exists d :: d in g[n] && d in s
  }

  /** If every node of `s` has a dependency in `s`, there are walks of every length inside `s`. */
  lemma {:induction false} LongWalk(g: Graph, s: set<string>, start: string, n: nat) returns (w: seq<string>)
    requires start in s && s <= g.Keys
    requires forall m {:trigger DependsInto(g, m, s)} | m in s :: DependsInto(g, m, s)
    ensures IsWalk(g, w) && |w| == n + 1
    ensures forall i | 0 <= i < |w| :: w[i] in s
  {
    if n == 0 {
      w := [start];
    } else {
      var v := LongWalk(g, s, start, n - 1);
      assert DependsInto(g, v[n - 1], s);
      var d :| d in g[v[n - 1]] && d in s;
      WalkStep(g, v, d);
      w := v + [d];
    }
  }

  /** More entries than values: some value repeats. */
  lemma {:induction false} Pigeonhole(w: seq<string>, s: set<string>) returns (i: nat, j: nat)
    requires |w| > |s|
    requires forall k | 0 <= k < |w| :: w[k] in s
    ensures i < j < |w| && w[i] == w[j]
    decreases |s|
  {
    var last := w[|w| - 1];
    if k :| 0 <= k < |w| - 1 && w[k] == last {
      i, j := k, |w| - 1;
    } else {
      i, j := Pigeonhole(w[..|w| - 1], s - {last});
    }
  }

  lemma {:induction false} CycleInSet(g: Graph, s: set<string>)
    requires s != {} && s <= g.Keys
    requires forall m {:trigger DependsInto(g, m, s)} | m in s :: DependsInto(g, m, s)
    ensures exists w :: IsCycle(g, w)
  {
    var start :| start in s;
    var w := LongWalk(g, s, start, |s|);
    var i, j := Pigeonhole(w, s);
    assert IsCycle(g, w[i..j + 1]);
  }

  /** In an acyclic graph every non-empty set of nodes has a member none of whose dependencies is in the set. */
  lemma {:induction false} MinimalElement(g: Graph, s: set<string>)
    requires Acyclic(g) && s != {} && s <= g.Keys
    ensures exists m {:trigger DependsInto(g, m, s)} :: m in s && !DependsInto(g, m, s)
  {
    if forall m {:trigger DependsInto(g, m, s)} | m in s :: DependsInto(g, m, s) {
      CycleInSet(g, s);
    }
  }

  /** `f` renames the nodes of `g` to nodes of `h` and keeps the edges. */
  ghost predicate Renames(g: Graph, h: Graph, f: map<string, string>) {
    && (forall n | n in g :: n in f && f[n] in h)
    && (forall n, d | n in g && d in g[n] && d in g :: f[d] in h[f[n]])
  }

  /** Renaming the nodes of a graph carries cycles over. */
  lemma {:induction false} RenamedCycle(g: Graph, h: Graph, f: map<string, string>, w: seq<string>)
    requires IsCycle(g, w) && Renames(g, h, f)
    ensures !Acyclic(h)
  {
    var v := seq(|w|, i requires 0 <= i < |w| => f[w[i]]);
    forall i | 0 <= i < |v| - 1
      ensures v[i + 1] in h[v[i]]
    {
      assert w[i + 1] in g[w[i]];
    }
    assert IsCycle(h, v);
  }
}
