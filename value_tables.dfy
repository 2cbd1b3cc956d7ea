/**
 * What the table-based value functions share: the absolute value of a draw
 * and the table position for a coalition size.
 */
module ValueTables {

  /**
   * The key of a memoised value. The source formats the task id followed by
   * the list of the agents' names into a string; that string is determined
   * by, and determines, the id and the list of agent ids.
   */
  datatype CacheKey = CacheKey(taskId: int, coalition: seq<int>)

  /** `Math.abs` on reals. */
  function RealAbs(x: real): (r: real)
    ensures r >= 0.0 && (r == x || r == -x)
  {
    if x < 0.0 then -x else x
  }

  /** The table position for a coalition of the given size: size - 1, and 0 for an empty coalition. */
  function SizeIndex(size: nat): (i: nat)
    ensures i <= size && (size > 0 ==> i + 1 == size)
  {
    if size == 0 then 0 else size - 1
  }
}
