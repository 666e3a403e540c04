/** The worklist behind a cascading cancellation, over values. */
module Cascade {
  import opened Status
  import opened WorkflowModel

  /** The unfinished tasks that depend directly on `id`. */
  function Dependents(tasks: Tasks, id: string): set<string> {
    set k | k in tasks && !IsFinished(tasks[k].status) && id in tasks[k].dependsOn
  }

  /** `s` holds the members of `xs`, each once. */
  ghost predicate Lists(s: seq<string>, xs: set<string>) {
    && (forall x :: x in s <==> x in xs)
    && (forall i, j | 0 <= i < j < |s| :: s[i] != s[j])
  }

  /** Where the search stands: `found` has been cancelled, `visited` has been popped, `pending` is still queued. */
  ghost predicate Searching(tasks: Tasks, root: string, found: set<string>, visited: set<string>,
                            pending: seq<string>) {
    && (forall k | k in found :: k in tasks && InDownstream(tasks, root, k))
    && (forall k | k in pending :: k == root || k in found)
    && (forall k | k == root || k in found :: k in visited || k in pending)
    && (forall p, k | p in visited && k in tasks && !IsFinished(tasks[k].status)
        && p in tasks[k].dependsOn :: k in found)
  }

  lemma DependentsLeft(tasks: Tasks, found: set<string>, id: string)
    requires NoRetrying(tasks)
    ensures forall k :: k in Dependents(SetStatus(tasks, found, TaskCancelled), id) <==>
                        k in tasks && !IsFinished(tasks[k].status) && k !in found && id in tasks[k].dependsOn
  {
  }

  lemma SetTwice(tasks: Tasks, found: set<string>, more: set<string>)
    requires NoRetrying(tasks) && found !! more
    ensures SetStatus(SetStatus(tasks, found, TaskCancelled), more, TaskCancelled) ==
            SetStatus(tasks, found + more, TaskCancelled)
  {
  }

  lemma {:induction false} SearchStep(tasks: Tasks, root: string, found: set<string>, visited: set<string>,
                                      pending: seq<string>, added: seq<string>)
    requires NoRetrying(tasks) && Searching(tasks, root, found, visited, pending) && pending != []
    requires Lists(added, Dependents(SetStatus(tasks, found, TaskCancelled), pending[0]))
    ensures Searching(tasks, root, found + Dependents(SetStatus(tasks, found, TaskCancelled), pending[0]),
                      visited + {pending[0]}, pending[1..] + added)
  {
    var id := pending[0];
    var more := Dependents(SetStatus(tasks, found, TaskCancelled), id);
    DependentsLeft(tasks, found, id);
    forall k | k in more
      ensures k in tasks && InDownstream(tasks, root, k)
    {
      DownstreamStep(tasks, root, id, k);
    }
    forall k | k == root || k in found + more
      ensures k in visited + {id} || k in pending[1..] + added
    {
      if k in more {
        assert k in added;
      } else if k !in visited {
        assert pending == [id] + pending[1..];
      }
    }
  }

  /** When nothing is pending the search has found everything downstream. */
  lemma {:induction false} SearchDone(tasks: Tasks, root: string, found: set<string>, visited: set<string>)
    requires Searching(tasks, root, found, visited, [])
    ensures found == Downstream(tasks, root)
  {
    forall id | id in Downstream(tasks, root)
      ensures id in found
    {
      var p :| DownPath(tasks, p) && p[0] == root && p[|p| - 1] == id;
      PathIsFound(tasks, root, found, visited, p, |p| - 1);
    }
  }

  lemma {:induction false} PathIsFound(tasks: Tasks, root: string, found: set<string>, visited: set<string>,
                                       p: seq<string>, i: nat)
    requires Searching(tasks, root, found, visited, [])
    requires DownPath(tasks, p) && p[0] == root && 0 < i < |p|
    ensures p[i] in found
  {
    if i > 1 {
      PathIsFound(tasks, root, found, visited, p, i - 1);
    }
    assert p[i - 1] in visited;
  }

  lemma {:induction false} ListsLength(s: seq<string>, xs: set<string>)
    requires Lists(s, xs)
    ensures |s| == |xs|
  {
    if s == [] {
      assert xs == {};
    } else {
      var t := s[..|s| - 1];
      assert s == t + [s[|s| - 1]];
      ListsLength(t, xs - {s[|s| - 1]});
    }
  }

  /** Unfinished tasks plus queue length falls by one with every pop. */
  lemma {:induction false} SearchShrinks(tasks: Tasks, found: set<string>, pending: seq<string>, added: seq<string>)
    requires NoRetrying(tasks) && pending != [] && Lists(added,
                                                         Dependents(SetStatus(tasks, found, TaskCancelled), pending[0]))
    ensures var more := Dependents(SetStatus(tasks, found, TaskCancelled), pending[0]);
            |UnfinishedSet(tasks) - (found + more)| + |pending[1..] + added| ==
                |UnfinishedSet(tasks) - found| + |pending| - 1
  {
    var more := Dependents(SetStatus(tasks, found, TaskCancelled), pending[0]);
    DependentsLeft(tasks, found, pending[0]);
    ListsLength(added, more);
    assert more <= UnfinishedSet(tasks) - found;
    assert UnfinishedSet(tasks) - (found + more) == (UnfinishedSet(tasks) - found) - more;
  }
}
