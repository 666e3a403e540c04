/** What a subscriber of the bus may conclude from the workflow statuses it sees, although it may miss some. */
module Subscribers {
  import opened Status
  import opened EngineModel
  import opened Guarantees
  import Orchestration
  import BusModel

  /** The bus was given the first events the engine published, in that order. */
  ghost predicate Feeds(log: seq<Event>, bus: BusModel.Bus) {
    bus.next <= |log|
  }

  ghost predicate SeesStatus(log: seq<Event>, sub: BusModel.Sub, k: nat, wid: string) {
    k < |sub.handled| && sub.handled[k] < |log| && log[sub.handled[k]].WorkflowStatusChanged?
        && log[sub.handled[k]].workflowId == wid
  }

  /** A subscriber sees the statuses of a workflow in strictly rising rank, and none after a final one. */
  lemma {:induction false} SeenStatusesRise(
      ss: seq<Orchestration.Sys>, acts: seq<Orchestration.Action>, i: nat,
      bs: seq<BusModel.Bus>, bacts: seq<BusModel.Action>, j: nat, sub: BusModel.Sub, wid: string, k: nat, l: nat)
    requires Orchestration.IsRun(ss, acts) && i < |ss|
    requires BusModel.IsRun(bs, bacts) && j < |bs| && Feeds(ss[i].engine.published, bs[j])
    requires sub in bs[j].listed || sub in bs[j].gone
    requires k < l && SeesStatus(ss[i].engine.published, sub, k, wid) && SeesStatus(ss[i].engine.published, sub, l, wid)
    ensures var log := ss[i].engine.published;
            && WorkflowRank(log[sub.handled[k]].status) < WorkflowRank(log[sub.handled[l]].status)
            && !IsWorkflowFinished(log[sub.handled[k]].status)
  {
    BusModel.HandledInOrder(bs, bacts, j, sub);
    Orchestration.EveryReachableStateIsGood(ss, acts, i);
    RisingAt(ss[i].engine.published, sub.handled[k], sub.handled[l]);
  }

  lemma RisingAt(log: seq<Event>, x: nat, y: nat)
    requires Orchestration.LogRises(log) && x < y < |log|
    requires log[x].WorkflowStatusChanged? && log[y].WorkflowStatusChanged? && log[x].workflowId == log[y].workflowId
    ensures WorkflowRank(log[x].status) < WorkflowRank(log[y].status) && !IsWorkflowFinished(log[x].status)
  {
  }

  /** A final status that a subscriber has seen is the workflow's status then and for the rest of the run. */
  lemma {:induction false} SeenVerdictIsFinal(
      ss: seq<Orchestration.Sys>, acts: seq<Orchestration.Action>, i: nat, m: nat,
      bs: seq<BusModel.Bus>, bacts: seq<BusModel.Action>, j: nat, sub: BusModel.Sub, wid: string, k: nat)
    requires Orchestration.IsRun(ss, acts) && i <= m < |ss|
    requires BusModel.IsRun(bs, bacts) && j < |bs| && Feeds(ss[i].engine.published, bs[j])
    requires sub in bs[j].listed || sub in bs[j].gone
    requires SeesStatus(ss[i].engine.published, sub, k, wid)
             && IsWorkflowFinished(ss[i].engine.published[sub.handled[k]].status)
    ensures wid in ss[m].engine.workflows && ss[m].engine.workflows[wid].status ==
            ss[i].engine.published[sub.handled[k]].status
  {
    Orchestration.EveryReachableStateIsGood(ss, acts, i);
    VerdictIsCurrent(ss[i].engine.workflows, ss[i].engine.published, sub.handled[k]);
    FinishedStaysFinished(ss, acts, i, m, wid);
  }

  lemma VerdictIsCurrent(ws: Workflows, log: seq<Event>, x: nat)
    requires Orchestration.LogBehind(ws, log) && x < |log| && log[x].WorkflowStatusChanged?
             && IsWorkflowFinished(log[x].status)
    ensures log[x].workflowId in ws && ws[log[x].workflowId].status == log[x].status
  {
  }
}
