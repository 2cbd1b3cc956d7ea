/**
 * The array utilities of the toolkit: sub-arrays of agents, range arrays,
 * intersections of coalitions, copies, and packing a list of optional
 * numbers into an array.
 */
module Toolkit {
  import opened Wrappers
  import opened Agents

  /* ---------- getSubArray ---------- */

  /** The number of true flags. */
  function CountTrue(which: seq<bool>): nat {
    if |which| == 0 then 0 else CountTrue(which[..|which| - 1]) + (if which[|which| - 1] then 1 else 0)
  }

  /** The agents whose flag is true, in index order. */
  function Selected(agents: seq<Agent>, which: seq<bool>): (r: seq<Agent>)
    requires |agents| <= |which|
    ensures |r| == CountTrue(which[..|agents|])
  {
    if |agents| == 0 then []
    else
      var n := |agents| - 1;
      assert which[..|agents|][..n] == which[..n];
      Selected(agents[..n], which) + (if which[n] then [agents[n]] else [])
  }

  /** The selected agents are exactly the agents whose flag is true. */
  lemma {:induction false} SelectedMembers(agents: seq<Agent>, which: seq<bool>, x: Agent)
    requires |agents| <= |which|
    ensures x in Selected(agents, which) <==> exists i :: 0 <= i < |agents| && which[i] && agents[i] == x
  {
    if |agents| > 0 {
      var n := |agents| - 1;
      SelectedMembers(agents[..n], which, x);
      if x in Selected(agents, which) && x !in Selected(agents[..n], which) {
        assert which[n] && agents[n] == x;
      }
      if exists i :: 0 <= i < |agents| && which[i] && agents[i] == x {
        var i :| 0 <= i < |agents| && which[i] && agents[i] == x;
        if i < n {
          assert agents[..n][i] == x;
        }
      }
    }
  }

  /** When every flag is true the selection is the whole array, so returning the input itself agrees with copying. */
  lemma {:induction false} SelectedAll(agents: seq<Agent>, which: seq<bool>)
    requires |agents| <= |which|
    requires CountTrue(which[..|agents|]) == |agents|
    ensures Selected(agents, which) == agents
  {
    CountTrueBound(which[..|agents|]);
    if |agents| > 0 {
      var n := |agents| - 1;
      assert which[..|agents|][..n] == which[..n];
      CountTrueBound(which[..n]);
      assert which[n];
      SelectedAll(agents[..n], which);
    }
  }

  lemma {:induction false} CountTrueBound(which: seq<bool>)
    ensures CountTrue(which) <= |which|
  {
    if |which| > 0 {
      CountTrueBound(which[..|which| - 1]);
    }
  }

  /**
   * The first `size` agents whose flag is true, or the input array itself
   * when `size` is its length. The source only prints an error for a length
   * mismatch or a size below 1. This model requires `size` to be at most the
   * number of true flags, and a size of 0 to come with a false first flag,
   * which is where the source's first write would be out of bounds.
   */
  method GetSubArray(agents: array<Agent>, which: array<bool>, size: int) returns (s: array<Agent>)
    requires agents.Length <= which.Length
    requires 0 <= size <= CountTrue(which[..agents.Length])
    requires size == 0 ==> agents.Length == 0 || !which[0]
    ensures size == agents.Length ==> s == agents
    ensures size != agents.Length ==> fresh(s)
    ensures s[..] == Selected(agents[..], which[..])[..size]
  {
    if size == agents.Length {
      CountTrueBound(which[..agents.Length]);
      assert which[..][..agents.Length] == which[..agents.Length];
      SelectedAll(agents[..], which[..]);
      return agents;
    }
    s := CopySelected(agents, which, size);
  }

  /** The copying loop of getSubArray: the first `size` flagged agents, into a fresh array. */
  method CopySelected(agents: array<Agent>, which: array<bool>, size: int) returns (s: array<Agent>)
    requires 0 < agents.Length <= which.Length
    requires 0 <= size <= CountTrue(which[..agents.Length])
    ensures fresh(s)
    ensures s[..] == Selected(agents[..], which[..])[..size]
  {
    ghost var ag, w := agents[..], which[..];
    assert w[..agents.Length] == which[..agents.Length];
    var filler := agents[0];
    s := new Agent[size](_ => filler);
    var j := 0;
    var i := 0;
    while i < agents.Length && j < size
      invariant 0 <= i <= agents.Length
      invariant j == |Selected(ag[..i], w)| <= size
      invariant s[..j] == Selected(ag[..i], w)
    {
      SelectedStep(ag, w, i);
      if which[i] {
        s[j] := agents[i];
        j := j + 1;
      }
      i := i + 1;
    }
    PrefixSelected(ag, w, i);
    assert i == agents.Length ==> ag[..i] == ag;
    assert j == size;
    assert s[..] == s[..j];
  }

  lemma SelectedStep(agents: seq<Agent>, which: seq<bool>, i: nat)
    requires |agents| <= |which| && i < |agents|
    ensures Selected(agents[..i + 1], which) == Selected(agents[..i], which) + (if which[i] then [agents[i]] else [])
  {
    assert agents[..i + 1][..i] == agents[..i];
  }

  /** A selection over a prefix of the agents is a prefix of the whole selection. */
  lemma {:induction false} PrefixSelected(agents: seq<Agent>, which: seq<bool>, i: nat)
    requires |agents| <= |which| && i <= |agents|
    ensures Selected(agents[..i], which) <= Selected(agents, which)
    decreases |agents| - i
  {
    if i < |agents| {
      PrefixSelected(agents, which, i + 1);
      assert agents[..i + 1][..i] == agents[..i];
      var a, b, c := Selected(agents[..i], which), Selected(agents[..i + 1], which), Selected(agents, which);
      assert b == a + (if which[i] then [agents[i]] else []);
      assert a <= c by {
        assert forall k :: 0 <= k < |a| ==> a[k] == b[k] == c[k];
      }
    } else {
      assert agents[..i] == agents;
    }
  }

  /* ---------- getRangeArray ---------- */

  /** None (the source's null) for a negative n, otherwise a fresh array holding 0, 1, ..., n - 1. */
  method GetRangeArray(n: int) returns (r: Option<array<int>>)
    ensures r.None? <==> n < 0
    ensures r.Some? ==> fresh(r.value) && r.value.Length == n && forall i :: 0 <= i < n ==> r.value[i] == i
  {
    if n < 0 {
      return None;
    }
    if n == 0 {
      var empty := new int[0];
      return Some(empty);
    }
    var arr := new int[n];
    var i := 0;
    while i < n
      invariant 0 <= i <= n
      invariant forall k :: 0 <= k < i ==> arr[k] == k
    {
      arr[i] := i;
      i := i + 1;
    }
    return Some(arr);
  }

  /* ---------- intersection ---------- */

  /**
   * The common agents of two coalitions (as ids), taken from the smaller
   * set first; None (the source's null) when either is empty or they share
   * no agent.
   */
  function Intersection(c1: seq<Agent>, c2: seq<Agent>): (r: Option<set<int>>)
    requires DistinctIds(c1) && DistinctIds(c2)
  {
    if |c1| == 0 || |c2| == 0 then None
    else
      var s1, s2 := IdSet(c1), IdSet(c2);
      var s := if |s2| < |s1| then s2 * s1 else s1 * s2;
      if |s| > 0 then Some(s) else None
  }

  /** The intersection does not depend on the argument order, and is empty exactly when nothing is shared. */
  lemma IntersectionMeaning(c1: seq<Agent>, c2: seq<Agent>)
    requires DistinctIds(c1) && DistinctIds(c2)
    ensures Intersection(c1, c2) == Intersection(c2, c1)
    ensures Intersection(c1, c2).None? <==> |c1| == 0 || |c2| == 0 || IdSet(c1) * IdSet(c2) == {}
    ensures Intersection(c1, c2).Some? ==>
      forall x :: x in Intersection(c1, c2).value <==> x in IdSet(c1) && x in IdSet(c2)
  {
    var s1, s2 := IdSet(c1), IdSet(c2);
    assert s1 * s2 == s2 * s1;
    if s1 * s2 != {} {
      var x :| x in s1 * s2;
      assert |s1 * s2| > 0;
    }
  }

  /* ---------- deepClone ---------- */

  /** A fresh array with the same entries. */
  method DeepCloneInts(a: array<int>) returns (b: array<int>)
    ensures fresh(b) && b[..] == a[..]
  {
    b := new int[a.Length];
    var i := 0;
    while i < a.Length
      invariant 0 <= i <= a.Length
      invariant b[..i] == a[..i]
    {
      b[i] := a[i];
      i := i + 1;
    }
    assert b[..] == b[..a.Length];
    assert a[..] == a[..a.Length];
  }

  /** New agents built from each agent's id, initial location and speed only. */
  function Clones(a: seq<Agent>): (r: seq<Agent>)
    ensures |r| == |a|
  {
    seq(|a|, i requires 0 <= i < |a| => Agents.New(a[i].id, a[i].initialLocation, a[i].speed))
  }

  /** A clone keeps the identity and speed but sits idle at its initial location, with no arrival and no work. */
  lemma ClonesAreReset(a: seq<Agent>)
    ensures var r := Clones(a);
      forall i :: 0 <= i < |a| ==>
        && r[i].id == a[i].id && r[i].speed == a[i].speed && r[i].initialLocation == a[i].initialLocation
        && r[i].location == a[i].initialLocation && r[i].status == IDLE
        && r[i].arrivalTime == 0 && r[i].endTime == 0 && r[i].target.None? && r[i].targetLocation.None?
    ensures Ids(Clones(a)) == Ids(a)
  {
  }

  /** An array of new agents copied from each agent's id, initial location and speed. */
  method DeepCloneAgents(a: array<Agent>) returns (b: array<Agent>)
    ensures fresh(b) && b[..] == Clones(a[..])
  {
    b := new Agent[a.Length](i requires 0 <= i < a.Length reads a => Agents.New(a[i].id, a[i].initialLocation, a[i].speed));
  }

  /* ---------- toPrimitiveArray ---------- */

  /** The present entries of a list, in order. */
  function Present(r: seq<Option<real>>): (p: seq<real>)
    ensures |p| <= |r|
  {
    if |r| == 0 then []
    else Present(r[..|r| - 1]) + (if r[|r| - 1].Some? then [r[|r| - 1].value] else [])
  }

  /**
   * None for a missing list, otherwise an array of the list's length with its
   * present entries packed at the front in order and zeros after them.
   */
  method ToPrimitiveArray(r: Option<seq<Option<real>>>) returns (arr: Option<array<real>>)
    ensures r.None? <==> arr.None?
    ensures r.Some? ==>
      && fresh(arr.value) && arr.value.Length == |r.value|
      && arr.value[..|Present(r.value)|] == Present(r.value)
      && forall k :: |Present(r.value)| <= k < arr.value.Length ==> arr.value[k] == 0.0
  {
    if r.None? {
      return None;
    }
    var xs := r.value;
    var a := new real[|xs|](_ => 0.0);
    var i := 0;
    var j := 0;
    while j < |xs|
      invariant 0 <= j <= |xs|
      invariant i == |Present(xs[..j])|
      invariant a[..i] == Present(xs[..j])
      invariant forall k :: i <= k < a.Length ==> a[k] == 0.0
    {
      assert xs[..j + 1][..j] == xs[..j];
      if xs[j].Some? {
        a[i] := xs[j].value;
        i := i + 1;
      }
      j := j + 1;
    }
    assert xs[..j] == xs;
    return Some(a);
  }
}
