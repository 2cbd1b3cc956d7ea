/**
 * The NDCS and congested-NDCS value functions: a table keyed by coalition
 * size 1..n (n agents). Entry i is |N(i, i^0.25)|; when perturbed, a roll
 * of `nextInt(n / j)` (j = i - 1, or 1 for i = 1) coming up 0 lowers it by
 * a draw from U(value / 10, value).
 */
module CongestedNdcs {
  import opened Locations
  import opened Tasks
  import opened Agents
  import opened ValueTables

  /** The draws for one entry: the normal sample, the roll (made only when perturbed) and the reduction sample. */
  datatype CongestionDraw = CongestionDraw(sample: real, roll: int, cut: real)

  datatype CongestedNdcsProblem = CongestedNdcsProblem(perturbed: bool, intValueMap: map<int, real>)

  /** The bound of the roll for size i among n agents: an int quotient, which the ceiling leaves unchanged. */
  function RollBound(n: nat, i: nat): (b: int)
    requires 1 <= i
  {
    var j := if i - 1 > 0 then i - 1 else i;
    n / j
  }

  /** The roll's bound is at least 1 for every size the constructor visits, so the roll is always defined. */
  lemma RollBoundPositive(n: nat, i: nat)
    requires 1 <= i <= n
    ensures 1 <= RollBound(n, i) <= n
  {
    var j := if i - 1 > 0 then i - 1 else i;
    assert 1 <= j <= n;
    assert n == j * (n / j) + n % j && n % j < j;
  }

  /** The constructor's entry for one size from its draws. */
  function Entry(perturbed: bool, d: CongestionDraw): real {
    var value := RealAbs(d.sample);
    if perturbed && d.roll == 0 then value - RealAbs(d.cut) else value
  }

  /** The table the constructor fills: one entry for each size from 1 to the number of draws. */
  function Table(perturbed: bool, draws: seq<CongestionDraw>): map<int, real> {
    map i | 1 <= i <= |draws| :: SizeEntry(perturbed, draws, i)
  }

  /** The entry for size i, drawn at position i - 1. */
  function SizeEntry(perturbed: bool, draws: seq<CongestionDraw>, i: int): real
    requires 1 <= i <= |draws|
  {
    Entry(perturbed, draws[i - 1])
  }

  /** The constructor: draws for each size 1..n in order. */
  method New(agents: seq<Agent>, perturbed: bool, draws: seq<CongestionDraw>) returns (p: CongestedNdcsProblem)
    requires |draws| == |agents|
    ensures p == CongestedNdcsProblem(perturbed, Table(perturbed, draws))
  {
    var m: map<int, real> := map[];
    for i := 1 to |agents| + 1
      invariant forall k :: k in m <==> 1 <= k < i
      invariant forall k :: k in m ==> m[k] == Entry(perturbed, draws[k - 1])
    {
      var d := draws[i - 1];
      var value := RealAbs(d.sample);
      if perturbed {
        var prob := RollBound(|agents|, i);
        RollBoundPositive(|agents|, i);
        if d.roll == 0 {
          value := value - RealAbs(d.cut);
        }
      }
      m := m[i := value];
    }
    assert m == Table(perturbed, draws);
    p := CongestedNdcsProblem(perturbed, m);
  }

  /** getValue: the entry for the coalition's size, whatever the task and location. */
  function GetValue(p: CongestedNdcsProblem, task: Task, location: Location, coalition: seq<Agent>): (r: real)
    requires |coalition| in p.intValueMap
  {
    p.intValueMap[|coalition|]
  }

  /** The table's keys are exactly the sizes 1..n, each holding the entry drawn for it. */
  lemma TableShape(perturbed: bool, draws: seq<CongestionDraw>)
    ensures forall i :: i in Table(perturbed, draws) <==> 1 <= i <= |draws|
    ensures forall i :: 1 <= i <= |draws| ==> Table(perturbed, draws)[i] == Entry(perturbed, draws[i - 1])
  {
  }

  /** The reduction sample lies in the range of U(value / 10, value). */
  predicate InSupport(d: CongestionDraw) {
    RealAbs(d.sample) / 10.0 <= d.cut <= RealAbs(d.sample)
  }

  /**
   * An unperturbed entry, or one whose roll did not come up, is the sample's
   * absolute value; a reduced one, with its reduction in range, lies between
   * 0 and nine tenths of it. No entry is ever negative then.
   */
  lemma EntryBounds(perturbed: bool, d: CongestionDraw)
    ensures !(perturbed && d.roll == 0) ==> Entry(perturbed, d) == RealAbs(d.sample) >= 0.0
    ensures perturbed && d.roll == 0 && InSupport(d) ==>
      0.0 <= Entry(perturbed, d) <= 0.9 * RealAbs(d.sample)
  {
  }

  /**
   * For an instance built from the draws, a coalition of k agents
   * (1 <= k <= n) is worth the entry drawn for size k, whatever the task,
   * location or members; a size outside 1..n has no entry.
   */
  lemma ValueIsEntry(p: CongestedNdcsProblem, draws: seq<CongestionDraw>, task: Task, location: Location, coalition: seq<Agent>)
    requires p.intValueMap == Table(p.perturbed, draws)
    ensures |coalition| in p.intValueMap <==> 1 <= |coalition| <= |draws|
    ensures 1 <= |coalition| <= |draws| ==>
      GetValue(p, task, location, coalition) == Entry(p.perturbed, draws[|coalition| - 1])
  {
    TableShape(p.perturbed, draws);
  }
}
