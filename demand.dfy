/** The demand of a task: where it can be done, how much work, its profit and its window. */
module Demands {
  import opened Wrappers
  import opened Locations
  import opened TimeWindows

  /**
   * `possibleLocations` and `timeWindow` are final in the source; `workload`
   * and `profit` may be reassigned, which here is a datatype update
   * `d.(workload := w)`. No engine of the core reassigns them.
   */
  datatype Demand = Demand(possibleLocations: seq<Location>, workload: real, profit: real, timeWindow: TimeWindow)

  datatype DemandError = NoLocations | NegativeWorkload(workload: real) | NegativeProfit(profit: real)

  /** The message the constructor prints: the first of its checks that fails. */
  function Diagnose(possibleLocations: seq<Location>, workload: real, profit: real): (r: Option<DemandError>)
    ensures r.None? <==> |possibleLocations| > 0 && workload >= 0.0 && profit >= 0.0
    ensures r == Some(NoLocations) <==> |possibleLocations| == 0
    ensures r == Some(NegativeWorkload(workload)) <==> |possibleLocations| > 0 && workload < 0.0
    ensures r == Some(NegativeProfit(profit)) <==> |possibleLocations| > 0 && workload >= 0.0 && profit < 0.0
  {
    if |possibleLocations| == 0 then Some(NoLocations)
    else if workload < 0.0 then Some(NegativeWorkload(workload))
    else if profit < 0.0 then Some(NegativeProfit(profit))
    else None
  }

  /** The constructor stores its four arguments unchanged, even after printing an error. */
  function Construct(possibleLocations: seq<Location>, workload: real, profit: real, timeWindow: TimeWindow)
    : (r: Built<Demand, DemandError>)
    ensures r.obj.possibleLocations == possibleLocations && r.obj.timeWindow == timeWindow
    ensures r.obj.workload == workload && r.obj.profit == profit
    ensures r.printed.None? <==> |possibleLocations| > 0 && workload >= 0.0 && profit >= 0.0
  {
    Built(Demand(possibleLocations, workload, profit, timeWindow), Diagnose(possibleLocations, workload, profit))
  }
}
