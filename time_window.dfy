/** The time window of a task: earliest start, soft deadline and hard deadline. */
module TimeWindows {
  import opened Wrappers

  /** The three bounds are final in the source; a datatype value never changes. */
  datatype TimeWindow = TimeWindow(earliestTime: int, softLatestTime: int, hardLatestTime: int)

  /** One message per check of the constructor, in the order they are made. */
  datatype WindowError =
    | NegativeEarliest(earliest: int)
    | NegativeSoftLatest(softLatest: int)
    | NegativeHardLatest(hardLatest: int)
    | EarliestAfterSoftLatest(earliest: int, softLatest: int)
    | SoftLatestAfterHardLatest(softLatest: int, hardLatest: int)

  /** The condition under which the constructor prints no message. */
  predicate Valid(tw: TimeWindow) {
    0 <= tw.earliestTime <= tw.softLatestTime <= tw.hardLatestTime
  }

  /** The message the constructor prints: the first of its checks that fails. */
  function Diagnose(earliest: int, softLatest: int, hardLatest: int): (r: Option<WindowError>)
    ensures r.None? <==> Valid(TimeWindow(earliest, softLatest, hardLatest))
    ensures r == Some(NegativeEarliest(earliest)) <==> earliest < 0
    ensures r == Some(NegativeSoftLatest(softLatest)) <==> 0 <= earliest && softLatest < 0
    ensures r == Some(NegativeHardLatest(hardLatest)) <==> 0 <= earliest && 0 <= softLatest && hardLatest < 0
    ensures r == Some(EarliestAfterSoftLatest(earliest, softLatest)) <==>
      0 <= earliest && 0 <= softLatest && 0 <= hardLatest && earliest > softLatest
    ensures r == Some(SoftLatestAfterHardLatest(softLatest, hardLatest)) <==>
      0 <= earliest && 0 <= softLatest && 0 <= hardLatest && earliest <= softLatest && softLatest > hardLatest
  {
    if earliest < 0 then Some(NegativeEarliest(earliest))
    else if softLatest < 0 then Some(NegativeSoftLatest(softLatest))
    else if hardLatest < 0 then Some(NegativeHardLatest(hardLatest))
    else if earliest > softLatest then Some(EarliestAfterSoftLatest(earliest, softLatest))
    else if softLatest > hardLatest then Some(SoftLatestAfterHardLatest(softLatest, hardLatest))
    else None
  }

  /** The constructor: the message is only printed, the window keeps the given bounds. */
  function Construct(earliest: int, softLatest: int, hardLatest: int): (r: Built<TimeWindow, WindowError>)
    ensures r.obj.earliestTime == earliest && r.obj.softLatestTime == softLatest
    ensures r.obj.hardLatestTime == hardLatest
    ensures r.printed.None? <==> 0 <= earliest <= softLatest <= hardLatest
  {
    Built(TimeWindow(earliest, softLatest, hardLatest), Diagnose(earliest, softLatest, hardLatest))
  }
}
