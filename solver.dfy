/**
 * What every engine shares: the precedence-then-deadline task comparator,
 * the sorted sets the engines build with a comparator, the marginal score,
 * and the conditions the engines rely on.
 */
module SolverCore {
  import opened Wrappers
  import opened Locations
  import opened TimeWindows
  import opened Tasks
  import opened Agents
  import opened Scores
  import opened Marsc

  /* ---------- the task comparator ---------- */

  /** `order` maps a task id to its predecessor's id. */
  predicate Precedes(order: Option<map<int, int>>, pred: Task, succ: Task) {
    order.Some? && succ.id in order.value && order.value[succ.id] == pred.id
  }

  /**
   * Positive when v1 must come after v2 (v2 is its predecessor), negative
   * when v1 is v2's predecessor, otherwise by earliest time and then by hard
   * deadline.
   */
  function Compare(order: Option<map<int, int>>, v1: Task, v2: Task): int {
    if Precedes(order, v2, v1) then 1
    else if Precedes(order, v1, v2) then -1
    else if v1.demand.timeWindow.earliestTime != v2.demand.timeWindow.earliestTime then
      v1.demand.timeWindow.earliestTime - v2.demand.timeWindow.earliestTime
    else v1.demand.timeWindow.hardLatestTime - v2.demand.timeWindow.hardLatestTime
  }

  /** A predecessor always sorts first, whatever the time windows. */
  lemma PredecessorComesFirst(order: Option<map<int, int>>, v1: Task, v2: Task)
    ensures Precedes(order, v2, v1) ==> Compare(order, v1, v2) > 0
    ensures Precedes(order, v1, v2) && !Precedes(order, v2, v1) ==> Compare(order, v1, v2) < 0
  {
  }

  /** Without a precedence between them, tasks compare by earliest time, then by hard deadline. */
  lemma CompareByWindows(order: Option<map<int, int>>, v1: Task, v2: Task)
    requires !Precedes(order, v2, v1) && !Precedes(order, v1, v2)
    ensures Compare(order, v1, v2) < 0 <==>
      KeyLess(TaskKey(v1), TaskKey(v2))
    ensures Compare(order, v1, v2) == 0 <==> TaskKey(v1) == TaskKey(v2)
  {
  }

  /** Two tasks compare equal exactly when neither is the other's predecessor and their windows agree on earliest and hard times. */
  lemma CompareZeroIff(order: Option<map<int, int>>, v1: Task, v2: Task)
    ensures Compare(order, v1, v2) == 0 <==>
      !Precedes(order, v2, v1) && !Precedes(order, v1, v2) &&
      v1.demand.timeWindow.earliestTime == v2.demand.timeWindow.earliestTime &&
      v1.demand.timeWindow.hardLatestTime == v2.demand.timeWindow.hardLatestTime
  {
  }

  /** Unless two tasks are each other's predecessor, swapping them flips the sign. */
  lemma CompareAntisymmetric(order: Option<map<int, int>>, v1: Task, v2: Task)
    requires !(Precedes(order, v2, v1) && Precedes(order, v1, v2))
    ensures Compare(order, v1, v2) > 0 <==> Compare(order, v2, v1) < 0
    ensures Compare(order, v1, v2) == 0 <==> Compare(order, v2, v1) == 0
  {
  }

  /* ---------- sorted sets ---------- */

  /** A sort key compared lexicographically. */
  datatype Key = Key(major: int, minor: int)

  predicate KeyLess(a: Key, b: Key) {
    a.major < b.major || (a.major == b.major && a.minor < b.minor)
  }

  function TaskKey(v: Task): Key {
    Key(v.demand.timeWindow.earliestTime, v.demand.timeWindow.hardLatestTime)
  }

  /**
   * The sorted-list view of `TreeSet.add` with a comparator: walking the set
   * in order, an element comparing 0 to the new one means it is not added;
   * the first element the new one compares below is where it goes. When the
   * comparator is a key order this is exactly what the red-black tree below
   * gives (TreeSetOfKeyed); for any other comparator the tree is the model.
   */
  function TreeAdd<T>(s: seq<T>, x: T, cmp: (T, T) -> int): seq<T>
    decreases |s|
  {
    if |s| == 0 then [x]
    else
      var c := cmp(x, s[0]);
      if c == 0 then s
      else if c < 0 then [x] + s
      else [s[0]] + TreeAdd(s[1..], x, cmp)
  }

  /** `Collections.addAll` into an empty TreeSet: the elements added in order. */
  function TreeOf<T>(xs: seq<T>, cmp: (T, T) -> int): seq<T>
    decreases |xs|
  {
    if |xs| == 0 then [] else TreeAdd(TreeOf(xs[..|xs| - 1], cmp), xs[|xs| - 1], cmp)
  }

  /** Adding keeps what was there and adds at most the new element. */
  lemma {:induction false} TreeAddElements<T>(s: seq<T>, x: T, cmp: (T, T) -> int)
    ensures multiset(TreeAdd(s, x, cmp)) == multiset(s) || multiset(TreeAdd(s, x, cmp)) == multiset(s) + multiset{x}
    decreases |s|
  {
    if |s| > 0 && cmp(x, s[0]) > 0 {
      TreeAddElements(s[1..], x, cmp);
      assert s == [s[0]] + s[1..];
    }
  }

  /** The elements of a sequence are those before its last one, and the last one. */
  lemma LastSplit<T>(xs: seq<T>)
    requires |xs| > 0
    ensures multiset(xs) == multiset(xs[..|xs| - 1]) + multiset{xs[|xs| - 1]}
  {
    assert xs == xs[..|xs| - 1] + [xs[|xs| - 1]];
  }

  /** A tree set holds only elements that were added, each at most as often as it was added. */
  lemma {:induction false} TreeOfSubMultiset<T>(xs: seq<T>, cmp: (T, T) -> int)
    ensures multiset(TreeOf(xs, cmp)) <= multiset(xs)
    decreases |xs|
  {
    if |xs| > 0 {
      var init, x := xs[..|xs| - 1], xs[|xs| - 1];
      LastSplit(xs);
      TreeOfSubMultiset(init, cmp);
      TreeAddElements(TreeOf(init, cmp), x, cmp);
    }
  }

  /** The comparator is the key order. */
  ghost predicate KeyedBy<T(!new)>(cmp: (T, T) -> int, key: T -> Key) {
    forall a, b {:trigger cmp(a, b)} ::
      (cmp(a, b) < 0 <==> KeyLess(key(a), key(b))) && (cmp(a, b) == 0 <==> key(a) == key(b))
  }

  /** Distinct keys are ordered one way or the other. */
  lemma KeyTotal(a: Key, b: Key)
    ensures a == b || KeyLess(a, b) || KeyLess(b, a)
    ensures !(KeyLess(a, b) && KeyLess(b, a))
  {
  }

  predicate StrictlySorted<T>(s: seq<T>, key: T -> Key) {
    forall i, j :: 0 <= i < j < |s| ==> KeyLess(key(s[i]), key(s[j]))
  }

  /** Some element of `s` has key `k`. */
  predicate HasKey<T>(s: seq<T>, key: T -> Key, k: Key) {
    exists j :: 0 <= j < |s| && key(s[j]) == k
  }

  /** Adding keeps every element and brings in nothing but the new one. */
  lemma {:induction false} TreeAddMembers<T>(s: seq<T>, x: T, cmp: (T, T) -> int)
    ensures forall y :: y in TreeAdd(s, x, cmp) ==> y in s || y == x
    ensures forall y :: y in s ==> y in TreeAdd(s, x, cmp)
    decreases |s|
  {
    if |s| > 0 && cmp(x, s[0]) > 0 {
      TreeAddMembers(s[1..], x, cmp);
      assert s == [s[0]] + s[1..];
    }
  }

  /** Adding to a set sorted by key keeps it sorted, and adds the element exactly when its key is new. */
  lemma {:induction false} TreeAddKeyed<T(!new)>(s: seq<T>, x: T, cmp: (T, T) -> int, key: T -> Key)
    requires KeyedBy(cmp, key) && StrictlySorted(s, key)
    ensures StrictlySorted(TreeAdd(s, x, cmp), key)
    ensures HasKey(s, key, key(x)) ==> TreeAdd(s, x, cmp) == s
    ensures !HasKey(s, key, key(x)) ==> x in TreeAdd(s, x, cmp)
    decreases |s|, 1
  {
    if |s| > 0 {
      var c := cmp(x, s[0]);
      KeyTotal(key(x), key(s[0]));
      if c > 0 {
        AddAbove(s, x, cmp, key);
      } else if c < 0 {
        assert KeyLess(key(x), key(s[0]));
        BelowFirst(s, x, key);
      } else {
        assert key(s[0]) == key(x);
      }
    }
  }

  /** The step of TreeAddKeyed where the new element goes after the first one. */
  lemma {:induction false} AddAbove<T(!new)>(s: seq<T>, x: T, cmp: (T, T) -> int, key: T -> Key)
    requires KeyedBy(cmp, key) && StrictlySorted(s, key)
    requires |s| > 0 && cmp(x, s[0]) > 0 && KeyLess(key(s[0]), key(x))
    ensures StrictlySorted(TreeAdd(s, x, cmp), key)
    ensures HasKey(s, key, key(x)) ==> TreeAdd(s, x, cmp) == s
    ensures !HasKey(s, key, key(x)) ==> x in TreeAdd(s, x, cmp)
    decreases |s|, 0
  {
    var t := s[1..];
    var r := TreeAdd(t, x, cmp);
    assert TreeAdd(s, x, cmp) == [s[0]] + r;
    TailSorted(s, key);
    TreeAddKeyed(t, x, cmp, key);
    TreeAddMembers(t, x, cmp);
    AboveFirst(s, x, key, r);
    HasKeyTail(s, key, key(x));
    PrependSorted(s[0], r, key);
    assert s == [s[0]] + t;
  }

  lemma TailSorted<T>(s: seq<T>, key: T -> Key)
    requires |s| > 0 && StrictlySorted(s, key)
    ensures StrictlySorted(s[1..], key)
  {
    var t := s[1..];
    forall i, j | 0 <= i < j < |t|
      ensures KeyLess(key(t[i]), key(t[j]))
    {
      assert t[i] == s[i + 1] && t[j] == s[j + 1];
    }
  }

  /** A key other than the first one's occurs in the tail when it occurs at all. */
  lemma HasKeyTail<T>(s: seq<T>, key: T -> Key, k: Key)
    requires |s| > 0 && key(s[0]) != k
    ensures HasKey(s, key, k) <==> HasKey(s[1..], key, k)
  {
    if HasKey(s, key, k) {
      var j :| 0 <= j < |s| && key(s[j]) == k;
      assert key(s[1..][j - 1]) == k;
    }
    if HasKey(s[1..], key, k) {
      var j :| 0 <= j < |s[1..]| && key(s[1..][j]) == k;
      assert key(s[j + 1]) == k;
    }
  }

  /** The elements of `r`, which come from the tail of `s` or are `x`, all sort after `s[0]`. */
  lemma AboveFirst<T>(s: seq<T>, x: T, key: T -> Key, r: seq<T>)
    requires |s| > 0 && StrictlySorted(s, key) && KeyLess(key(s[0]), key(x))
    requires forall y :: y in r ==> y in s[1..] || y == x
    ensures forall y :: y in r ==> KeyLess(key(s[0]), key(y))
  {
    forall y | y in r
      ensures KeyLess(key(s[0]), key(y))
    {
      if y != x {
        var k :| 0 <= k < |s[1..]| && s[1..][k] == y;
        assert s[k + 1] == y;
      }
    }
  }

  lemma PrependSorted<T>(h: T, r: seq<T>, key: T -> Key)
    requires StrictlySorted(r, key)
    requires forall y :: y in r ==> KeyLess(key(h), key(y))
    ensures StrictlySorted([h] + r, key)
  {
    var u := [h] + r;
    forall i, j | 0 <= i < j < |u|
      ensures KeyLess(key(u[i]), key(u[j]))
    {
      assert u[j] == r[j - 1];
      if i > 0 {
        assert u[i] == r[i - 1];
      } else {
        assert r[j - 1] in r;
      }
    }
  }

  /** An element below the first of a sorted set is below all of it and has a new key. */
  lemma BelowFirst<T>(s: seq<T>, x: T, key: T -> Key)
    requires |s| > 0 && StrictlySorted(s, key) && KeyLess(key(x), key(s[0]))
    ensures StrictlySorted([x] + s, key)
    ensures !HasKey(s, key, key(x))
  {
    forall y | y in s
      ensures KeyLess(key(x), key(y))
    {
      var k :| 0 <= k < |s| && s[k] == y;
      if k > 0 {
        assert KeyLess(key(s[0]), key(s[k]));
      }
    }
    PrependSorted(x, s, key);
    forall k | 0 <= k < |s|
      ensures key(s[k]) != key(x)
    {
      assert s[k] in s;
    }
  }

  /** The position of the first element with the same key as `xs[k]`. */
  predicate FirstOfKey<T>(xs: seq<T>, k: int, key: T -> Key) {
    0 <= k < |xs| && forall m :: 0 <= m < k ==> key(xs[m]) != key(xs[k])
  }

  /** The tree set holds an element of every key added, and each element is the first added of its key. */
  ghost predicate FirstOfEachKey<T>(xs: seq<T>, r: seq<T>, key: T -> Key) {
    && (forall k :: 0 <= k < |xs| ==> HasKey(r, key, key(xs[k])))
    && (forall y :: y in r ==> exists k :: FirstOfKey(xs, k, key) && xs[k] == y)
  }

  /**
   * A tree set built with a key comparator is sorted strictly by key, has an
   * element of every key that was added, and of each key keeps the first
   * element added: later elements with a tied key are dropped.
   */
  lemma {:induction false} TreeOfKeyed<T(!new)>(xs: seq<T>, cmp: (T, T) -> int, key: T -> Key)
    requires KeyedBy(cmp, key)
    ensures StrictlySorted(TreeOf(xs, cmp), key)
    ensures FirstOfEachKey(xs, TreeOf(xs, cmp), key)
    decreases |xs|
  {
    if |xs| > 0 {
      var init := xs[..|xs| - 1];
      var x := xs[|xs| - 1];
      var s := TreeOf(init, cmp);
      TreeOfKeyed(init, cmp, key);
      TreeAddKeyed(s, x, cmp, key);
      TreeAddMembers(s, x, cmp);
      var r := TreeOf(xs, cmp);
      assert r == TreeAdd(s, x, cmp);
      if HasKey(s, key, key(x)) {
        ExtendKeepsFirsts(init, x, s, key);
        assert xs == init + [x];
      } else {
        ExtendAddsFirst(init, x, s, r, key);
        assert xs == init + [x];
      }
    }
  }

  /** A tied element is dropped: the set of firsts of `init` are the firsts of `init + [x]`. */
  lemma ExtendKeepsFirsts<T>(init: seq<T>, x: T, s: seq<T>, key: T -> Key)
    requires FirstOfEachKey(init, s, key) && HasKey(s, key, key(x))
    ensures FirstOfEachKey(init + [x], s, key)
  {
    var xs := init + [x];
    forall k | 0 <= k < |xs|
      ensures HasKey(s, key, key(xs[k]))
    {
      if k < |init| {
        assert xs[k] == init[k];
      }
    }
    forall y | y in s
      ensures exists k :: FirstOfKey(xs, k, key) && xs[k] == y
    {
      var k :| FirstOfKey(init, k, key) && init[k] == y;
      assert xs[k] == init[k];
      assert forall m :: 0 <= m < k ==> xs[m] == init[m];
      assert FirstOfKey(xs, k, key);
    }
  }

  /** An element with a new key is kept, and it is the first of its key. */
  lemma ExtendAddsFirst<T>(init: seq<T>, x: T, s: seq<T>, r: seq<T>, key: T -> Key)
    requires FirstOfEachKey(init, s, key) && !HasKey(s, key, key(x))
    requires x in r && forall y :: y in r ==> y in s || y == x
    requires forall y :: y in s ==> y in r
    ensures FirstOfEachKey(init + [x], r, key)
  {
    var xs := init + [x];
    forall k | 0 <= k < |xs|
      ensures HasKey(r, key, key(xs[k]))
    {
      if k < |init| {
        assert xs[k] == init[k];
        var j :| 0 <= j < |s| && key(s[j]) == key(init[k]);
        assert s[j] in r;
        var j' :| 0 <= j' < |r| && r[j'] == s[j];
      } else {
        var j' :| 0 <= j' < |r| && r[j'] == x;
      }
    }
    forall y | y in r
      ensures exists k :: FirstOfKey(xs, k, key) && xs[k] == y
    {
      if y in s {
        var k :| FirstOfKey(init, k, key) && init[k] == y;
        assert xs[k] == init[k];
        assert forall m :: 0 <= m < k ==> xs[m] == init[m];
        assert FirstOfKey(xs, k, key);
      } else {
        assert y == x;
        forall m | 0 <= m < |init|
          ensures key(xs[m]) != key(x)
        {
          assert xs[m] == init[m];
          var j1 :| 0 <= j1 < |s| && key(s[j1]) == key(init[m]);
        }
        assert FirstOfKey(xs, |init|, key);
      }
    }
  }

  /* ---------- the red-black tree behind a TreeSet ---------- */

  datatype Color = Red | Black

  /** An entry of `java.util.TreeMap`, which backs a TreeSet: its color, children and key. */
  datatype Tree<T> = Leaf | Node(color: Color, left: Tree<T>, key: T, right: Tree<T>)

  /** The iteration order of the set: the keys from left to right. */
  function Inorder<T>(t: Tree<T>): seq<T> {
    if t.Leaf? then [] else Inorder(t.left) + [t.key] + Inorder(t.right)
  }

  /** A missing child counts as black. */
  predicate IsRed<T>(t: Tree<T>) {
    t.Node? && t.color == Red
  }

  /**
   * One step of `fixAfterInsertion` at a grandparent (color c, key k, right
   * child r) whose left child p received the new key x. It acts when p is
   * red and so is p's child on x's side: with a red uncle r, p and r turn
   * black and the grandparent red; otherwise a right rotation (after a left
   * rotation at p when x's side is the right one) brings the middle key up
   * in black above two red nodes.
   */
  function FixLeft<T>(c: Color, p: Tree<T>, k: T, r: Tree<T>, x: T, cmp: (T, T) -> int): Tree<T> {
    if p.Node? && p.color == Red && IsRed(if cmp(x, p.key) > 0 then p.right else p.left) then
      if IsRed(r) then Node(Red, p.(color := Black), k, r.(color := Black))
      else if cmp(x, p.key) > 0 then
        var q := p.right;
        Node(Black, Node(Red, p.left, p.key, q.left), q.key, Node(Red, q.right, k, r))
      else Node(Black, p.left, p.key, Node(Red, p.right, k, r))
    else Node(c, p, k, r)
  }

  /** The mirror image of FixLeft, for a grandparent whose right child p received x. */
  function FixRight<T>(c: Color, l: Tree<T>, k: T, p: Tree<T>, x: T, cmp: (T, T) -> int): Tree<T> {
    if p.Node? && p.color == Red && IsRed(if cmp(x, p.key) < 0 then p.left else p.right) then
      if IsRed(l) then Node(Red, l.(color := Black), k, p.(color := Black))
      else if cmp(x, p.key) < 0 then
        var q := p.left;
        Node(Black, Node(Red, l, k, q.left), q.key, Node(Red, q.right, p.key, p.right))
      else Node(Black, Node(Red, l, k, p.left), p.key, p.right)
    else Node(c, l, k, p)
  }

  /**
   * The descent of `TreeMap.put`: compare the new key with the entry's key,
   * go left below 0 and right above 0, stop at 0 without a change, and hang
   * a red entry where the descent runs out; the fix-up steps are applied on
   * the way back up.
   */
  function Ins<T>(t: Tree<T>, x: T, cmp: (T, T) -> int): Tree<T> {
    if t.Leaf? then Node(Red, Leaf, x, Leaf)
    else
      var d := cmp(x, t.key);
      if d < 0 then FixLeft(t.color, Ins(t.left, x, cmp), t.key, t.right, x, cmp)
      else if d > 0 then FixRight(t.color, t.left, t.key, Ins(t.right, x, cmp), x, cmp)
      else t
  }

  /** `TreeSet.add`: the insertion, then the root is colored black. */
  function Put<T>(t: Tree<T>, x: T, cmp: (T, T) -> int): Tree<T> {
    var u := Ins(t, x, cmp);
    if u.Leaf? then u else u.(color := Black)
  }

  /** Coloring the root black leaves the iteration order alone. */
  lemma PutInorder<T>(t: Tree<T>, x: T, cmp: (T, T) -> int)
    ensures Inorder(Put(t, x, cmp)) == Inorder(Ins(t, x, cmp))
  {
    var u := Ins(t, x, cmp);
    if u.Node? {
      assert Inorder(u.(color := Black)) == Inorder(u.left) + [u.key] + Inorder(u.right);
    }
  }

  /** `Collections.addAll` into an empty TreeSet: the elements put in order. */
  function TreeSetOf<T>(xs: seq<T>, cmp: (T, T) -> int): Tree<T>
    decreases |xs|
  {
    if |xs| == 0 then Leaf else Put(TreeSetOf(xs[..|xs| - 1], cmp), xs[|xs| - 1], cmp)
  }

  /** The rotations and recolorings of a fix-up step keep the iteration order. */
  lemma FixLeftInorder<T>(c: Color, p: Tree<T>, k: T, r: Tree<T>, x: T, cmp: (T, T) -> int)
    ensures Inorder(FixLeft(c, p, k, r, x, cmp)) == Inorder(p) + [k] + Inorder(r)
  {
    if p.Node? && p.color == Red && IsRed(if cmp(x, p.key) > 0 then p.right else p.left) {
      var pl, pk, pr, rr := Inorder(p.left), p.key, Inorder(p.right), Inorder(r);
      assert Inorder(p) == pl + [pk] + pr;
      if IsRed(r) {
        assert Inorder(p.(color := Black)) == Inorder(p);
        assert Inorder(r.(color := Black)) == rr;
      } else if cmp(x, p.key) > 0 {
        var q := p.right;
        var ql, qk, qr := Inorder(q.left), q.key, Inorder(q.right);
        assert pr == ql + [qk] + qr;
        assert Inorder(Node(Red, p.left, pk, q.left)) == pl + [pk] + ql;
        assert Inorder(Node(Red, q.right, k, r)) == qr + [k] + rr;
        assert (pl + [pk] + ql) + [qk] + (qr + [k] + rr) == (pl + [pk] + (ql + [qk] + qr)) + [k] + rr;
      } else {
        assert Inorder(Node(Red, p.right, k, r)) == pr + [k] + rr;
        assert pl + [pk] + (pr + [k] + rr) == (pl + [pk] + pr) + [k] + rr;
      }
    }
  }

  lemma FixRightInorder<T>(c: Color, l: Tree<T>, k: T, p: Tree<T>, x: T, cmp: (T, T) -> int)
    ensures Inorder(FixRight(c, l, k, p, x, cmp)) == Inorder(l) + [k] + Inorder(p)
  {
    if p.Node? && p.color == Red && IsRed(if cmp(x, p.key) < 0 then p.left else p.right) {
      var ll, pl, pk, pr := Inorder(l), Inorder(p.left), p.key, Inorder(p.right);
      assert Inorder(p) == pl + [pk] + pr;
      if IsRed(l) {
        assert Inorder(p.(color := Black)) == Inorder(p);
        assert Inorder(l.(color := Black)) == ll;
      } else if cmp(x, p.key) < 0 {
        var q := p.left;
        var ql, qk, qr := Inorder(q.left), q.key, Inorder(q.right);
        assert pl == ql + [qk] + qr;
        assert Inorder(Node(Red, l, k, q.left)) == ll + [k] + ql;
        assert Inorder(Node(Red, q.right, pk, p.right)) == qr + [pk] + pr;
        assert (ll + [k] + ql) + [qk] + (qr + [pk] + pr) == ll + [k] + ((ql + [qk] + qr) + [pk] + pr);
      } else {
        assert Inorder(Node(Red, l, k, p.left)) == ll + [k] + pl;
        assert (ll + [k] + pl) + [pk] + pr == ll + [k] + (pl + [pk] + pr);
      }
    }
  }

  /** Whatever the comparator, a put keeps every element and adds at most the new one. */
  lemma {:induction false} InsElements<T>(t: Tree<T>, x: T, cmp: (T, T) -> int)
    ensures var s, u := multiset(Inorder(t)), multiset(Inorder(Ins(t, x, cmp)));
      u == s || u == s + multiset{x}
  {
    if t.Node? {
      var d := cmp(x, t.key);
      if d < 0 {
        InsElements(t.left, x, cmp);
        FixLeftInorder(t.color, Ins(t.left, x, cmp), t.key, t.right, x, cmp);
      } else if d > 0 {
        InsElements(t.right, x, cmp);
        FixRightInorder(t.color, t.left, t.key, Ins(t.right, x, cmp), x, cmp);
      }
    }
  }

  /** A tree set holds only elements that were added, each at most as often as it was added. */
  lemma {:induction false} TreeSetOfElements<T>(xs: seq<T>, cmp: (T, T) -> int)
    ensures multiset(Inorder(TreeSetOf(xs, cmp))) <= multiset(xs)
    decreases |xs|
  {
    if |xs| > 0 {
      var init, x := xs[..|xs| - 1], xs[|xs| - 1];
      LastSplit(xs);
      var t := TreeSetOf(init, cmp);
      TreeSetOfElements(init, cmp);
      InsElements(t, x, cmp);
      PutInorder(t, x, cmp);
      var a, b := multiset(Inorder(t)), multiset(Inorder(Ins(t, x, cmp)));
      assert b <= a + multiset{x};
    }
  }

  /** The walk goes into b only past all of a, and stops at once before b's first element. */
  lemma {:induction false} TreeAddBefore<T>(a: seq<T>, b: seq<T>, x: T, cmp: (T, T) -> int)
    requires |b| > 0 && cmp(x, b[0]) < 0
    ensures TreeAdd(a + b, x, cmp) == TreeAdd(a, x, cmp) + b
    decreases |a|
  {
    if |a| > 0 {
      assert (a + b)[0] == a[0] && (a + b)[1..] == a[1..] + b;
      TreeAddBefore(a[1..], b, x, cmp);
    } else {
      assert a + b == b;
    }
  }

  /** An element above every element of a is added within b. */
  lemma {:induction false} TreeAddPast<T>(a: seq<T>, b: seq<T>, x: T, cmp: (T, T) -> int)
    requires forall i :: 0 <= i < |a| ==> cmp(x, a[i]) > 0
    ensures TreeAdd(a + b, x, cmp) == a + TreeAdd(b, x, cmp)
    decreases |a|
  {
    if |a| > 0 {
      assert (a + b)[0] == a[0] && (a + b)[1..] == a[1..] + b;
      TreeAddPast(a[1..], b, x, cmp);
      assert a == [a[0]] + a[1..];
    } else {
      assert a + b == b;
    }
  }

  /** The parts of a sorted sequence around one of its elements are sorted and lie on its sides. */
  lemma SortedParts<T>(a: seq<T>, k: T, b: seq<T>, key: T -> Key)
    requires StrictlySorted(a + [k] + b, key)
    ensures StrictlySorted(a, key) && StrictlySorted(b, key)
    ensures forall i :: 0 <= i < |a| ==> KeyLess(key(a[i]), key(k))
  {
    var s := a + [k] + b;
    forall i, j | 0 <= i < j < |b|
      ensures KeyLess(key(b[i]), key(b[j]))
    {
      assert s[|a| + 1 + i] == b[i] && s[|a| + 1 + j] == b[j];
    }
    forall i | 0 <= i < |a|
      ensures KeyLess(key(a[i]), key(k))
    {
      assert s[i] == a[i] && s[|a|] == k;
    }
    forall i, j | 0 <= i < j < |a|
      ensures KeyLess(key(a[i]), key(a[j]))
    {
      assert s[i] == a[i] && s[j] == a[j];
    }
  }

  /** Under a key order, an element whose key is not below k's sorts above everything below k. */
  lemma AboveAll<T(!new)>(a: seq<T>, k: T, x: T, cmp: (T, T) -> int, key: T -> Key)
    requires KeyedBy(cmp, key) && cmp(x, k) >= 0
    requires forall i :: 0 <= i < |a| ==> KeyLess(key(a[i]), key(k))
    ensures forall i :: 0 <= i < |a| ==> cmp(x, a[i]) > 0
  {
    forall i | 0 <= i < |a|
      ensures cmp(x, a[i]) > 0
    {
      var y := a[i];
      assert !KeyLess(key(x), key(k));
      KeyTotal(key(x), key(y));
      KeyTotal(key(x), key(k));
      assert cmp(x, y) != 0 && !(cmp(x, y) < 0);
    }
  }

  /** A put that descends left changes only the left part of the iteration order. */
  lemma InsLeft<T>(t: Tree<T>, x: T, cmp: (T, T) -> int)
    requires t.Node? && cmp(x, t.key) < 0
    ensures Inorder(Ins(t, x, cmp)) == Inorder(Ins(t.left, x, cmp)) + ([t.key] + Inorder(t.right))
  {
    FixLeftInorder(t.color, Ins(t.left, x, cmp), t.key, t.right, x, cmp);
  }

  /** A put that descends right changes only the right part of the iteration order. */
  lemma InsRight<T>(t: Tree<T>, x: T, cmp: (T, T) -> int)
    requires t.Node? && cmp(x, t.key) > 0
    ensures Inorder(Ins(t, x, cmp)) == Inorder(t.left) + ([t.key] + Inorder(Ins(t.right, x, cmp)))
  {
    FixRightInorder(t.color, t.left, t.key, Ins(t.right, x, cmp), x, cmp);
  }

  /**
   * Under a comparator that is a key order, putting into a tree whose keys
   * iterate in strictly increasing order changes the iteration order as the
   * sorted-list walk does.
   */
  lemma {:induction false} InsKeyed<T(!new)>(t: Tree<T>, x: T, cmp: (T, T) -> int, key: T -> Key)
    requires KeyedBy(cmp, key) && StrictlySorted(Inorder(t), key)
    ensures Inorder(Ins(t, x, cmp)) == TreeAdd(Inorder(t), x, cmp)
  {
    if t.Node? {
      var l, k, r := Inorder(t.left), t.key, Inorder(t.right);
      var d := cmp(x, k);
      SortedParts(l, k, r, key);
      assert Inorder(t) == l + ([k] + r);
      assert ([k] + r)[0] == k && ([k] + r)[1..] == r;
      if d < 0 {
        InsKeyed(t.left, x, cmp, key);
        InsLeft(t, x, cmp);
        TreeAddBefore(l, [k] + r, x, cmp);
      } else {
        AboveAll(l, k, x, cmp, key);
        TreeAddPast(l, [k] + r, x, cmp);
        if d > 0 {
          InsKeyed(t.right, x, cmp, key);
          InsRight(t, x, cmp);
        }
      }
    }
  }

  /** Under a key order the red-black tree iterates exactly as the sorted-list walk builds. */
  lemma {:induction false} TreeSetOfKeyed<T(!new)>(xs: seq<T>, cmp: (T, T) -> int, key: T -> Key)
    requires KeyedBy(cmp, key)
    ensures Inorder(TreeSetOf(xs, cmp)) == TreeOf(xs, cmp)
    decreases |xs|
  {
    if |xs| > 0 {
      var init := xs[..|xs| - 1];
      TreeSetOfKeyed(init, cmp, key);
      TreeOfKeyed(init, cmp, key);
      InsKeyed(TreeSetOf(init, cmp), xs[|xs| - 1], cmp, key);
    }
  }

  /* ---------- the task set ---------- */

  /** Lexicographic difference of two keys: its sign is the key order. */
  function KeyCompare(a: Key, b: Key): (r: int)
    ensures r < 0 <==> KeyLess(a, b)
    ensures r == 0 <==> a == b
  {
    if a.major != b.major then a.major - b.major else a.minor - b.minor
  }

  /** The window key of the task at a position; positions outside the array never occur. */
  function IndexKey(tasks: seq<Task>, i: int): Key {
    if 0 <= i < |tasks| then TaskKey(tasks[i]) else Key(0, 0)
  }

  /** The task comparator on positions in the task array. */
  function IndexCompare(tasks: seq<Task>, order: Option<map<int, int>>): (int, int) -> int {
    (i: int, j: int) =>
      if 0 <= i < |tasks| && 0 <= j < |tasks| then Compare(order, tasks[i], tasks[j])
      else KeyCompare(IndexKey(tasks, i), IndexKey(tasks, j))
  }

  function Positions(n: nat): (r: seq<int>)
    ensures |r| == n && forall k :: 0 <= k < n ==> r[k] == k
  {
    seq(n, k requires 0 <= k < n => k)
  }

  /** The positions 0..n-1 as a set. */
  function Below(n: nat): (r: set<int>)
    ensures forall k :: k in r <==> 0 <= k < n
    ensures |r| == n
  {
    if n == 0 then {} else Below(n - 1) + {n - 1}
  }

  /** A subset is no larger. */
  lemma SubsetCard(a: set<int>, b: set<int>)
    requires a <= b
    ensures |a| <= |b|
  {
    assert b == a + (b - a);
  }

  /**
   * `new TreeSet<>(comparator)` filled with the problem's tasks in array
   * order, as positions in the task array, in the order the set iterates.
   */
  function TaskOrder(tasks: seq<Task>, order: Option<map<int, int>>): seq<int> {
    Inorder(TreeSetOf(Positions(|tasks|), IndexCompare(tasks, order)))
  }

  /** A value occurring at two positions of a sequence occurs at least twice in its multiset. */
  lemma TwoOccurrences(s: seq<int>, i: int, j: int)
    requires 0 <= i < j < |s| && s[i] == s[j]
    ensures multiset(s)[s[i]] >= 2
  {
    var a, b := s[..j], s[j..];
    assert s == a + b;
    assert a[i] == s[i] && b[0] == s[j];
    assert multiset(s) == multiset(a) + multiset(b);
  }

  lemma {:induction false} PositionsOnce(n: nat, x: int)
    ensures multiset(Positions(n))[x] == if 0 <= x < n then 1 else 0
  {
    if n > 0 {
      PositionsOnce(n - 1, x);
      assert Positions(n) == Positions(n - 1) + [n - 1];
    }
  }

  /** The task set holds positions of the task array, each at most once. */
  lemma TaskOrderPositions(tasks: seq<Task>, order: Option<map<int, int>>)
    ensures var r := TaskOrder(tasks, order);
      && (forall j :: 0 <= j < |r| ==> 0 <= r[j] < |tasks|)
      && (forall i, j :: 0 <= i < j < |r| ==> r[i] != r[j])
  {
    var r := TaskOrder(tasks, order);
    TreeSetOfElements(Positions(|tasks|), IndexCompare(tasks, order));
    forall j | 0 <= j < |r|
      ensures 0 <= r[j] < |tasks|
    {
      assert r[j] in multiset(r);
      PositionsOnce(|tasks|, r[j]);
    }
    forall i, j | 0 <= i < j < |r|
      ensures r[i] != r[j]
    {
      if r[i] == r[j] {
        TwoOccurrences(r, i, j);
        PositionsOnce(|tasks|, r[i]);
        assert false;
      }
    }
  }

  /** Without an order the comparator on positions is the window-key order. */
  lemma UnorderedKeyed(tasks: seq<Task>)
    ensures KeyedBy(IndexCompare(tasks, None), (k: int) => IndexKey(tasks, k))
  {
    var cmp := IndexCompare(tasks, None);
    var key := (k: int) => IndexKey(tasks, k);
    forall a, b
      ensures (cmp(a, b) < 0 <==> KeyLess(key(a), key(b))) && (cmp(a, b) == 0 <==> key(a) == key(b))
    {
      if 0 <= a < |tasks| && 0 <= b < |tasks| {
        CompareByWindows(None, tasks[a], tasks[b]);
      }
    }
  }

  /**
   * Without an order the task set is sorted strictly by earliest time, then
   * hard deadline, and every task's pair of times is represented.
   */
  lemma TaskOrderUnordered(tasks: seq<Task>)
    ensures var r := TaskOrder(tasks, None);
      && (forall i, j :: 0 <= i < j < |r| ==> KeyLess(IndexKey(tasks, r[i]), IndexKey(tasks, r[j])))
      && (forall k :: 0 <= k < |tasks| ==> exists j :: 0 <= j < |r| && IndexKey(tasks, r[j]) == IndexKey(tasks, k))
  {
    var r := TaskOrder(tasks, None);
    var key := (k: int) => IndexKey(tasks, k);
    var xs := Positions(|tasks|);
    UnorderedKeyed(tasks);
    TreeSetOfKeyed(xs, IndexCompare(tasks, None), key);
    TreeOfKeyed(xs, IndexCompare(tasks, None), key);
    forall i, j | 0 <= i < j < |r|
      ensures KeyLess(IndexKey(tasks, r[i]), IndexKey(tasks, r[j]))
    {
      assert KeyLess(key(r[i]), key(r[j]));
    }
    forall k | 0 <= k < |tasks|
      ensures exists j :: 0 <= j < |r| && IndexKey(tasks, r[j]) == IndexKey(tasks, k)
    {
      assert HasKey(r, key, key(xs[k]));
      var j :| 0 <= j < |r| && key(r[j]) == key(xs[k]);
    }
  }

  /** Without an order, of tasks tied on both times only the first in the array is kept. */
  lemma TaskOrderKeepsFirst(tasks: seq<Task>)
    ensures var r := TaskOrder(tasks, None);
      forall j, m :: 0 <= j < |r| && 0 <= m < r[j] ==> IndexKey(tasks, m) != IndexKey(tasks, r[j])
  {
    var r := TaskOrder(tasks, None);
    var key := (k: int) => IndexKey(tasks, k);
    var xs := Positions(|tasks|);
    UnorderedKeyed(tasks);
    TreeSetOfKeyed(xs, IndexCompare(tasks, None), key);
    TreeOfKeyed(xs, IndexCompare(tasks, None), key);
    forall j, m | 0 <= j < |r| && 0 <= m < r[j]
      ensures IndexKey(tasks, m) != IndexKey(tasks, r[j])
    {
      assert r[j] in r;
      var k :| FirstOfKey(xs, k, key) && xs[k] == r[j];
      assert key(xs[m]) != key(xs[k]);
    }
  }

  /**
   * Under a precedence order the comparator is not transitive, and the tree
   * and the sorted-list walk part ways: with earliest times 1, 3, 2, 5 and
   * task 3 the predecessor of task 0, the tree iterates 0, 2, 1, 3, while
   * the walk puts task 3 first (PrecedenceWalkOrder).
   */
  lemma PrecedenceTreeOrder(tasks: seq<Task>)
    requires |tasks| == 4 && forall i :: 0 <= i < 4 ==> tasks[i].id == i
    requires tasks[0].demand.timeWindow.earliestTime == 1 && tasks[1].demand.timeWindow.earliestTime == 3
    requires tasks[2].demand.timeWindow.earliestTime == 2 && tasks[3].demand.timeWindow.earliestTime == 5
    ensures TaskOrder(tasks, Some(map[0 := 3])) == [0, 2, 1, 3]
  {
    var cmp := IndexCompare(tasks, Some(map[0 := 3]));
    var xs := Positions(4);
    assert cmp(1, 0) > 0 && cmp(2, 0) > 0 && cmp(2, 1) < 0 && cmp(3, 2) > 0 && cmp(3, 1) > 0;
    assert xs[..1] == [0] && xs[..2] == [0, 1] && xs[..3] == [0, 1, 2] && xs[..4] == xs;
    var t1 := Node(Black, Leaf, 0, Leaf);
    var t2 := Node(Black, Leaf, 0, Node(Red, Leaf, 1, Leaf));
    var t3 := Node(Black, Node(Red, Leaf, 0, Leaf), 2, Node(Red, Leaf, 1, Leaf));
    var t4 := Node(Black, Node(Black, Leaf, 0, Leaf), 2, Node(Black, Leaf, 1, Node(Red, Leaf, 3, Leaf)));
    assert TreeSetOf(xs[..1], cmp) == t1 by {
      assert xs[..1][..0] == [];
    }
    assert TreeSetOf(xs[..2], cmp) == t2 by {
      assert xs[..2][..1] == xs[..1];
      assert Put(t1, 1, cmp) == t2;
    }
    assert TreeSetOf(xs[..3], cmp) == t3 by {
      assert xs[..3][..2] == xs[..2];
      assert Ins(t2.right, 2, cmp) == Node(Red, Node(Red, Leaf, 2, Leaf), 1, Leaf);
      assert Put(t2, 2, cmp) == t3;
    }
    assert TreeSetOf(xs, cmp) == t4 by {
      assert xs[..3] == xs[..|xs| - 1];
      assert Ins(t3.right, 3, cmp) == Node(Red, Leaf, 1, Node(Red, Leaf, 3, Leaf));
      assert Put(t3, 3, cmp) == t4;
    }
    assert Inorder(t4) == [0, 2, 1, 3];
  }

  /** The sorted-list walk on the same tasks and order puts task 3, the predecessor of task 0, first. */
  lemma PrecedenceWalkOrder(tasks: seq<Task>)
    requires |tasks| == 4 && forall i :: 0 <= i < 4 ==> tasks[i].id == i
    requires tasks[0].demand.timeWindow.earliestTime == 1 && tasks[1].demand.timeWindow.earliestTime == 3
    requires tasks[2].demand.timeWindow.earliestTime == 2 && tasks[3].demand.timeWindow.earliestTime == 5
    ensures TreeOf(Positions(4), IndexCompare(tasks, Some(map[0 := 3]))) == [3, 0, 2, 1]
  {
    var cmp := IndexCompare(tasks, Some(map[0 := 3]));
    var xs := Positions(4);
    assert cmp(1, 0) > 0 && cmp(2, 0) > 0 && cmp(2, 1) < 0 && cmp(3, 0) < 0;
    assert xs[..1] == [0] && xs[..2] == [0, 1] && xs[..3] == [0, 1, 2] && xs[..4] == xs;
    assert TreeOf(xs[..1], cmp) == [0] by {
      assert xs[..1][..0] == [];
    }
    assert TreeOf(xs[..2], cmp) == [0, 1] by {
      assert xs[..2][..1] == xs[..1];
      assert TreeAdd([0], 1, cmp) == [0] + TreeAdd([], 1, cmp);
    }
    assert TreeOf(xs[..3], cmp) == [0, 2, 1] by {
      assert xs[..3][..2] == xs[..2];
      assert [0, 1][1..] == [1];
      assert TreeAdd([0, 1], 2, cmp) == [0] + TreeAdd([1], 2, cmp);
    }
    assert xs[..3] == xs[..|xs| - 1];
  }

  /* ---------- the marginal score ---------- */

  /** `getMarginalScore(task, s, e)`: the score of the task's units in [s, e]. */
  method MarginalScore(task: Task, startTime: int, endTime: int) returns (r: real)
    requires endTime < startTime || Scorable(task.demand.timeWindow, endTime)
    ensures r == IntervalScore(task.demand.timeWindow, task.demand.profit, startTime, endTime)
  {
    r := AccumulateInterval(task.demand.timeWindow, task.demand.profit, startTime, endTime, 0.0);
  }

  /* ---------- what the engines rely on ---------- */

  predicate DistinctTaskIds(tasks: seq<Task>) {
    forall i, j :: 0 <= i < |tasks| && 0 <= j < |tasks| && i != j ==> tasks[i].id != tasks[j].id
  }

  /** Every non-empty coalition has a positive value (the engines divide by it). */
  ghost predicate PositiveValues(value: ValueFunction) {
    forall t, l, c :: |c| > 0 ==> value(t, l, c) > 0.0
  }

  /**
   * The conditions under which the engines are modelled: tasks and agents
   * are told apart by id, values are positive, and no task's decay divides
   * by zero.
   */
  ghost predicate EngineReady(p: Problem) {
    && DistinctTaskIds(p.tasks)
    && DistinctIds(p.agents)
    && PositiveValues(p.value)
    && forall k :: 0 <= k < |p.tasks| ==> DecayDefined(p.tasks[k].demand.timeWindow)
  }
}
