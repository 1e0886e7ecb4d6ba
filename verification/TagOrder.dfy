/** CmpOrderGroup: putting one group of the boot-driver list into tag order, in place. */
module TagOrder {
  import opened Lists
  import opened DriverLinks

  /** A boot-driver node.  `hasGroup` says whether Group.Buffer is non-null. */
  datatype Driver = Driver(group: string, hasGroup: bool, tag: nat)

  // ----- Ordering one group by tag -------------------------------------------

  function Tags(drivers: nat -> Driver, s: seq<nat>): (t: seq<nat>)
    ensures |t| == |s| && forall i :: 0 <= i < |s| ==> t[i] == drivers(s[i]).tag
  {
    seq(|s|, i requires 0 <= i < |s| => drivers(s[i]).tag)
  }

  ghost predicate Sorted(t: seq<nat>, lo: nat, hi: nat)
    requires hi <= |t|
  {
    forall i, j :: lo <= i < j < hi ==> t[i] <= t[j]
  }

  /** `s` after its element at `from` has been put back in front of position `to`. */
  function Moved<T>(s: seq<T>, from: nat, to: nat): (r: seq<T>)
    requires to <= from < |s|
    ensures |r| == |s|
  {
    seq(|s|, i requires 0 <= i < |s| => if i < to || i > from then s[i] else if i == to then s[from] else s[i - 1])
  }

  function Swapped(t: seq<nat>, k: nat): seq<nat>
    requires k + 1 < |t|
  {
    t[k := t[k + 1]][k + 1 := t[k]]
  }

  /** The pair at k, k+1 is the wrong way round and nothing else is: what a move that
      landed one slot too early leaves behind. */
  ghost predicate Inverted(t: seq<nat>, lo: nat, hi: nat, k: nat)
    requires hi <= |t|
  {
    lo <= k < k + 1 < hi && t[k] > t[k + 1] && Sorted(Swapped(t, k), lo, hi)
  }

  /** `t` is `s` with only the segment lo..hi permuted. */
  ghost predicate PermutedInside(s: seq<nat>, t: seq<nat>, lo: nat, hi: nat) {
    && lo <= hi <= |s| == |t|
    && t[..lo] == s[..lo]
    && t[hi..] == s[hi..]
    && multiset(t[lo..hi]) == multiset(s[lo..hi])
  }

  lemma MovedIsReinserted(s: seq<nat>, from: nat, to: nat)
    requires to <= from < |s|
    ensures Moved(s, from, to) == With(Cut(s, from), to, s[from])
  {
    var w := Cut(s, from);
    assert w[..to] == s[..to] && w[to..] == s[to..from] + s[from + 1..];
  }

  /** A move inside lo..hi permutes that segment and touches nothing outside it. */
  lemma MovedPermutes(s: seq<nat>, from: nat, to: nat, lo: nat, hi: nat)
    requires lo <= to <= from < hi <= |s|
    ensures PermutedInside(s, Moved(s, from, to), lo, hi)
  {
    var t := Moved(s, from, to);
    assert s[lo..hi] == s[lo..to] + s[to..from] + [s[from]] + s[from + 1..hi];
    var parts := s[lo..to] + [s[from]] + s[to..from] + s[from + 1..hi];
    assert forall i :: 0 <= i < |parts| ==> parts[i] == t[lo + i];
    assert t[lo..hi] == parts;
  }

  /** A re-insertion from the sorted frontier `m`; the backward scan stopped at `j`. */
  lemma MoveFromFrontier(t: seq<nat>, lo: nat, m: nat, j: nat)
    requires lo <= j <= m < m + 1 < |t|
    requires Sorted(t, lo, m + 1) && t[m] > t[m + 1]
    requires forall i :: j < i <= m ==> t[i] > t[m + 1]
    requires t[j] <= t[m + 1] || j == lo
    ensures Sorted(Moved(t, m + 1, j), lo, m + 2) || Inverted(Moved(t, m + 1, j), lo, m + 2, j)
  {
    var r := Moved(t, m + 1, j);
    if t[j] < t[m + 1] {
      var u := Swapped(r, j);
      forall a, b | lo <= a < b < m + 2 ensures u[a] <= u[b] {
        assert u[a] == if a <= j then t[a] else if a == j + 1 then t[m + 1] else t[a - 1];
        assert u[b] == if b <= j then t[b] else if b == j + 1 then t[m + 1] else t[b - 1];
      }
    } else {
      forall a, b | lo <= a < b < m + 2 ensures r[a] <= r[b] {
        assert r[a] == if a < j then t[a] else if a == j then t[m + 1] else t[a - 1];
        assert r[b] == if b < j then t[b] else if b == j then t[m + 1] else t[b - 1];
      }
    }
  }

  /** A re-insertion out of the one inverted pair k, k+1: it moves the pair one place
      towards the start or repairs it. */
  lemma MoveFromInversion(t: seq<nat>, lo: nat, hi: nat, k: nat, j: nat)
    requires lo <= j <= k && hi <= |t| && Inverted(t, lo, hi, k)
    requires forall i :: j < i <= k ==> t[i] > t[k + 1]
    requires t[j] <= t[k + 1] || j == lo
    ensures Sorted(Moved(t, k + 1, j), lo, hi) || (j < k && Inverted(Moved(t, k + 1, j), lo, hi, j))
  {
    var r, u := Moved(t, k + 1, j), Swapped(t, k);
    if j == k {
      assert r == u;
    } else {
      assert u[k - 1] <= u[k];
      assert j == k - 1;
      assert Swapped(r, j) == u;
      if t[j] == t[k + 1] {
        assert r == u;
      }
    }
  }

  /** Where the walk stands: everything up to the frontier `m` is in tag order, except
      perhaps the pair at the current position `k`. */
  ghost predicate Progress(t: seq<nat>, lo: nat, m: nat, k: nat)
    requires m < |t|
  {
    lo <= k <= m && (Sorted(t, lo, m + 1) || Inverted(t, lo, m + 1, k))
  }

  lemma PermutedTwice(r: seq<nat>, s: seq<nat>, t: seq<nat>, lo: nat, hi: nat)
    requires PermutedInside(r, s, lo, hi) && PermutedInside(s, t, lo, hi)
    ensures PermutedInside(r, t, lo, hi)
  {
  }

  lemma Unmoved(drivers: nat -> Driver, s: seq<nat>, lo: nat, hi: nat)
    requires lo < hi <= |s|
    ensures PermutedInside(s, s, lo, hi)
    ensures Sorted(Tags(drivers, s), lo, lo + 1) && Progress(Tags(drivers, s), lo, lo, lo)
  {
  }

  lemma StepForward(t: seq<nat>, lo: nat, m: nat, k: nat)
    requires m < |t| && k + 1 < |t| && Progress(t, lo, m, k) && t[k] <= t[k + 1]
    ensures Sorted(t, lo, m + 1) && Progress(t, lo, if m < k + 1 then k + 1 else m, k + 1)
  {
  }

  lemma WalkEnds(t: seq<nat>, lo: nat, m: nat, k: nat)
    requires m < |t| && Progress(t, lo, m, k) && k == m
    ensures Sorted(t, lo, m + 1)
  {
  }

  /** Every re-insertion advances the frontier, repairs the pair, or moves it back. */
  lemma Reinserted(t: seq<nat>, lo: nat, m: nat, k: nat, j: nat) returns (m': nat)
    requires lo <= j <= k < k + 1 < |t| && m < |t| && Progress(t, lo, m, k)
    requires t[k] > t[k + 1]
    requires forall i :: j < i <= k ==> t[i] > t[k + 1]
    requires t[j] <= t[k + 1] || j == lo
    ensures m' == (if k == m then m + 1 else m) && Progress(Moved(t, k + 1, j), lo, m', j)
    ensures k < m ==> !Sorted(t, lo, m + 1) && (Sorted(Moved(t, k + 1, j), lo, m + 1) || j < k)
  {
    if k == m {
      MoveFromFrontier(t, lo, m, j);
      m' := m + 1;
    } else {
      MoveFromInversion(t, lo, m + 1, k, j);
      m' := m;
    }
  }

  /** The backward scan of CmpOrderGroup for the place in front of which the removed
      node goes; `j` is that place's position. */
  method FindSlot(list: DriverList, drivers: nat -> Driver, previous: nat, current: nat, start: nat, ghost lo: nat, ghost k: nat)
    returns (slot: nat, ghost j: nat)
    requires list.Valid() && lo <= k < |list.order| && list.order[k] == previous && list.order[lo] == start
    ensures lo <= j <= k && list.order[j] == slot
    ensures forall i :: j < i <= k ==> drivers(list.order[i]).tag > drivers(current).tag
    ensures drivers(slot).tag <= drivers(current).tag || j == lo
  {
    slot, j := previous, k;
    while drivers(slot).tag > drivers(current).tag && slot != start
      invariant lo <= j <= k && list.order[j] == slot
      invariant forall i :: j < i <= k ==> drivers(list.order[i]).tag > drivers(current).tag
      decreases j
    {
      assert At(list.order, j) == slot && At(list.order, j - 1) == list.order[j - 1];
      slot := list.Blink(slot, j);
      j := j - 1;
    }
  }

  /** The loop state of CmpOrderGroup. */
  ghost predicate Walking(drivers: nat -> Driver, s: seq<nat>, start: nat, end: nat, current: nat,
                          lo: nat, hi: nat, m: nat, k: nat)
  {
    && lo <= k <= m < hi <= |s|
    && s[lo] == start && s[hi - 1] == end && s[k] == current
    && Progress(Tags(drivers, s), lo, m, k)
  }

  /** How far the walk still has to go: the frontier, then the phase, then the position. */
  ghost predicate Closer(t: seq<nat>, m: nat, k: nat, t': seq<nat>, m': nat, k': nat, lo: nat)
    requires m < |t| && m' < |t'|
  {
    || m < m'
    || (m == m' && Sorted(t', lo, m + 1) && (Sorted(t, lo, m + 1) ==> k < k' <= m))
    || (m == m' && !Sorted(t, lo, m + 1) && k' < k)
  }

  lemma TagsMoved(drivers: nat -> Driver, s: seq<nat>, from: nat, to: nat)
    requires to <= from < |s|
    ensures Tags(drivers, Moved(s, from, to)) == Moved(Tags(drivers, s), from, to)
  {
  }

  /** What moving the node at k+1 back to `j` does to the loop state. */
  lemma MovedBack(drivers: nat -> Driver, s: seq<nat>, start: nat, end: nat, lo: nat, hi: nat, m: nat, k: nat, j: nat)
    returns (m': nat)
    requires k < hi - 1 && k < |s| && Walking(drivers, s, start, end, s[k], lo, hi, m, k)
    requires lo <= j <= k && drivers(s[k]).tag > drivers(s[k + 1]).tag
    requires (s[j] == start ==> j == lo) && (s[k + 1] == end ==> k + 1 == hi - 1)
    requires forall i :: j < i <= k ==> drivers(s[i]).tag > drivers(s[k + 1]).tag
    requires drivers(s[j]).tag <= drivers(s[k + 1]).tag || j == lo
    ensures var s' := Moved(s, k + 1, j);
            && Walking(drivers, s', if s[j] == start then s[k + 1] else start, if s[k + 1] == end then s[k] else end,
                       s[k + 1], lo, hi, m', j)
            && Closer(Tags(drivers, s), m, k, Tags(drivers, s'), m', j, lo)
  {
    hide Sorted, Inverted, Progress;
    TagsMoved(drivers, s, k + 1, j);
    m' := Reinserted(Tags(drivers, s), lo, m, k, j);
  }

  /** The branch of the loop of CmpOrderGroup that moves a node back. */
  method MoveNodeBack(list: DriverList, drivers: nat -> Driver, start0: nat, end0: nat, previous0: nat, current: nat,
                      ghost lo: nat, ghost hi: nat, ghost m: nat, ghost k: nat)
    returns (start: nat, end: nat, ghost m': nat, ghost k': nat)
    requires list.Valid()
    requires Walking(drivers, list.order, start0, end0, previous0, lo, hi, m, k) && k < hi - 1
    requires list.order[k + 1] == current && drivers(previous0).tag > drivers(current).tag
    modifies list
    ensures list.Valid()
    ensures Walking(drivers, list.order, start, end, current, lo, hi, m', k') && k' < hi - 1
    ensures PermutedInside(old(list.order), list.order, lo, hi)
    ensures Closer(Tags(drivers, old(list.order)), m, k, Tags(drivers, list.order), m', k', lo)
  {
    hide Sorted, Inverted, Progress, PermutedInside, Closer, Forward, Backward, Moved;
    ghost var s := list.order;
    start, end := start0, end0;
    assert At(s, k + 1) == current && At(s, k) == s[k];
    if current == end {
      end := list.Blink(current, k + 1);
    }
    list.RemoveEntryList(current, k + 1);
    var previous;
    previous, k' := FindSlot(list, drivers, previous0, current, start, lo, k);
    assert forall i :: 0 <= i <= k ==> list.order[i] == s[i];
    list.InsertTailList(previous, current, k');
    if previous == start {
      start := current;
    }
    MovedIsReinserted(s, k + 1, k');
    MovedPermutes(s, k + 1, k', lo, hi);
    m' := MovedBack(drivers, s, start0, end0, lo, hi, m, k, k');
  }

  /** One turn of the loop of CmpOrderGroup. */
  method WalkStep(list: DriverList, drivers: nat -> Driver, start0: nat, end0: nat, current0: nat,
                  ghost lo: nat, ghost hi: nat, ghost m: nat, ghost k: nat)
    returns (start: nat, end: nat, current: nat, ghost m': nat, ghost k': nat)
    requires list.Valid()
    requires Walking(drivers, list.order, start0, end0, current0, lo, hi, m, k) && k < hi - 1
    modifies list
    ensures list.Valid()
    ensures Walking(drivers, list.order, start, end, current, lo, hi, m', k') && (current == end <==> k' == hi - 1)
    ensures PermutedInside(old(list.order), list.order, lo, hi)
    ensures Closer(Tags(drivers, old(list.order)), m, k, Tags(drivers, list.order), m', k', lo)
  {
    hide Sorted, Inverted, Progress, PermutedInside, Forward, Backward;
    assert At(list.order, k) == current0 && At(list.order, k + 1) == list.order[k + 1];
    start, end := start0, end0;
    current := list.Flink(current0, k);
    if drivers(current0).tag > drivers(current).tag {
      start, end, m', k' := MoveNodeBack(list, drivers, start, end, current0, current, lo, hi, m, k);
    } else {
      StepForward(Tags(drivers, list.order), lo, m, k);
      Unmoved(drivers, list.order, lo, hi);
      k' := k + 1;
      m' := if m < k' then k' else m;
    }
  }

  /** CmpOrderGroup on the segment lo..hi of the list.  A move may land one slot too
      early; the walk then goes on from the moved node and repairs it. */
  method OrderGroup(list: DriverList, drivers: nat -> Driver, startNode: nat, endNode: nat, ghost lo: nat, ghost hi: nat)
    requires list.Valid()
    requires lo < hi <= |list.order| && list.order[lo] == startNode && list.order[hi - 1] == endNode
    modifies list
    ensures list.Valid()
    ensures PermutedInside(old(list.order), list.order, lo, hi)
    ensures Sorted(Tags(drivers, list.order), lo, hi)
  {
    hide Sorted, Inverted, Progress, PermutedInside, Forward, Backward;
    Unmoved(drivers, list.order, lo, hi);
    if startNode == endNode { return; }
    var start, end, current := startNode, endNode, startNode;
    ghost var k: nat, m: nat := lo, lo;
    var more := true;
    while more
      invariant list.Valid() && PermutedInside(old(list.order), list.order, lo, hi)
      invariant Walking(drivers, list.order, start, end, current, lo, hi, m, k)
      invariant more == (k < hi - 1)
      decreases more, hi - m, !Sorted(Tags(drivers, list.order), lo, m + 1),
                if Sorted(Tags(drivers, list.order), lo, m + 1) then m - k else k
    {
      ghost var s := list.order;
      start, end, current, m, k := WalkStep(list, drivers, start, end, current, lo, hi, m, k);
      PermutedTwice(old(list.order), s, list.order, lo, hi);
      more := current != end;
    }
    WalkEnds(Tags(drivers, list.order), lo, m, k);
  }
}
