/** KCB lock arrays: sorting and deduplicating the indices in place. */
module KcbLocks {
  import opened Lists

  // ----- CmpSortKcbArray -----------------------------------------------------------------

  ghost predicate Sorted(s: seq<nat>) {
    forall i, j :: 0 <= i < j < |s| ==> s[i] <= s[j]
  }

  ghost predicate Ascending(s: seq<nat>) {
    forall i, j :: 0 <= i < j < |s| ==> s[i] < s[j]
  }

  /** Each of the first `i` entries is less than everything behind it. */
  ghost predicate Settled(s: seq<nat>, i: nat) {
    forall x, y :: 0 <= x < i && x < y < |s| ==> s[x] < s[y]
  }

  function Swapped(s: seq<nat>, i: nat, j: nat): seq<nat>
    requires i < |s| && j < |s|
  {
    s[i := s[j]][j := s[i]]
  }

  lemma SwappedSame(s: seq<nat>, i: nat, j: nat, lo: nat, hi: nat)
    requires lo <= i < j < hi <= |s|
    ensures Elements(Swapped(s, i, j)[lo..hi]) == Elements(s[lo..hi])
  {
    var t := Swapped(s, i, j);
    forall x ensures x in t[lo..hi] <==> x in s[lo..hi] {
      if x in t[lo..hi] {
        var k :| 0 <= k < hi - lo && t[lo..hi][k] == x;
        var m := if lo + k == i then j else if lo + k == j then i else lo + k;
        assert s[lo..hi][m - lo] == x;
      }
      if x in s[lo..hi] {
        var k :| 0 <= k < hi - lo && s[lo..hi][k] == x;
        var m := if lo + k == i then j else if lo + k == j then i else lo + k;
        assert t[lo..hi][m - lo] == x;
      }
    }
  }

  /** The exchange sort of the entries 1..n. */
  method ExchangeSort(a: array<nat>, n: nat)
    requires n < a.Length
    modifies a
    ensures a[0] == old(a[0]) && a[n + 1..] == old(a[n + 1..])
    ensures Sorted(a[1..n + 1]) && Elements(a[1..n + 1]) == old(Elements(a[1..n + 1]))
  {
    for i := 1 to n + 1
      invariant a[0] == old(a[0]) && a[n + 1..] == old(a[n + 1..])
      invariant Elements(a[1..n + 1]) == old(Elements(a[1..n + 1]))
      invariant forall x, y :: 1 <= x < i && x < y <= n ==> a[x] <= a[y]
    {
      SettleMinimum(a, i, n);
    }
  }

  /** The inner loop: the least of the entries i..n comes to i. */
  method SettleMinimum(a: array<nat>, i: nat, n: nat)
    requires 1 <= i <= n < a.Length
    requires forall x, y :: 1 <= x < i && x < y <= n ==> a[x] <= a[y]
    modifies a
    ensures a[0] == old(a[0]) && a[n + 1..] == old(a[n + 1..])
    ensures Elements(a[1..n + 1]) == old(Elements(a[1..n + 1]))
    ensures forall x, y :: 1 <= x <= i && x < y <= n ==> a[x] <= a[y]
  {
    for j := i + 1 to n + 1
      invariant a[0] == old(a[0]) && a[n + 1..] == old(a[n + 1..])
      invariant Elements(a[1..n + 1]) == old(Elements(a[1..n + 1]))
      invariant forall x, y :: 1 <= x < i && x < y <= n ==> a[x] <= a[y]
      invariant forall y :: i < y < j ==> a[i] <= a[y]
    {
      if a[i] > a[j] {
        SwappedSame(a[..], i, j, 1, n + 1);
        assert a[..][1..n + 1] == a[1..n + 1];
        ghost var s := a[..];
        a[i], a[j] := a[j], a[i];
        assert a[..] == Swapped(s, i, j);
        assert a[..][1..n + 1] == a[1..n + 1];
      }
    }
  }

  /** The innermost loop of the deduplication: entries j..n move down by one. */
  method ShiftDown(a: array<nat>, j: nat, n: nat)
    requires 2 <= j <= n < a.Length
    modifies a
    ensures a[0] == old(a[0]) && a[n + 1..] == old(a[n + 1..])
    ensures a[1..n] == old(a[1..j - 1]) + old(a[j..n + 1])
  {
    for k := j to n + 1
      invariant forall x :: 0 <= x < a.Length ==> a[x] == if j - 1 <= x < k - 1 then old(a[x + 1]) else old(a[x])
    {
      a[k - 1] := a[k];
    }
  }

  /** Removing equal neighbours from the sorted entries 1..n0. */
  method RemoveDuplicates(a: array<nat>, n0: nat) returns (n: nat)
    requires n0 < a.Length && Sorted(a[1..n0 + 1])
    modifies a
    ensures n <= n0 && a[0] == old(a[0]) && a[n0 + 1..] == old(a[n0 + 1..])
    ensures Ascending(a[1..n + 1]) && Elements(a[1..n + 1]) == old(Elements(a[1..n0 + 1]))
  {
    n := n0;
    var i := 1;
    while i <= n
      invariant 1 <= i <= n + 1 && n <= n0
      invariant a[0] == old(a[0]) && a[n0 + 1..] == old(a[n0 + 1..])
      invariant Sorted(a[1..n + 1]) && Elements(a[1..n + 1]) == old(Elements(a[1..n0 + 1]))
      invariant Settled(a[1..n + 1], i - 1)
      decreases n + 1 - i
    {
      n := DropCopies(a, i, n, n0);
      i := i + 1;
    }
  }

  /** The middle loop: every later copy of entry i is removed. */
  method DropCopies(a: array<nat>, i: nat, n1: nat, ghost n0: nat) returns (n: nat)
    requires 1 <= i <= n1 <= n0 < a.Length && Sorted(a[1..n1 + 1]) && Settled(a[1..n1 + 1], i - 1)
    modifies a
    ensures i <= n <= n1 && a[0] == old(a[0]) && a[n0 + 1..] == old(a[n0 + 1..])
    ensures Sorted(a[1..n + 1]) && Elements(a[1..n + 1]) == old(Elements(a[1..n1 + 1]))
    ensures Settled(a[1..n + 1], i)
  {
    hide Sorted, Elements, Settled;
    n := n1;
    var j := i + 1;
    while j <= n
      invariant i < j <= n + 1 && i <= n <= n1
      invariant a[0] == old(a[0]) && a[n0 + 1..] == old(a[n0 + 1..])
      invariant Sorted(a[1..n + 1]) && Elements(a[1..n + 1]) == old(Elements(a[1..n1 + 1]))
      invariant Settled(a[1..n + 1], i - 1)
      invariant j > i + 1 ==> a[i] < a[j - 1] && Settled(a[1..j], i)
      decreases n + 1 - j
    {
      ghost var s := a[1..n + 1];
      Slices(a, i, j, n);
      Neighbours(s, j - 1);
      if a[i] == a[j] {
        assert j == i + 1;
        DroppedSame(s, i);
        ShiftDown(a, j, n);
        n := n - 1;
      } else {
        GreaterToo(s, i, j);
        j := j + 1;
      }
    }
    if n == i {
      SettledLast(a[1..n + 1]);
    }
  }

  /** Entries and stretches of the array as parts of the sequence of its indices. */
  lemma Slices(a: array<nat>, i: nat, j: nat, n: nat)
    requires 1 <= i < j <= n < a.Length
    ensures var s := a[1..n + 1];
            && a[i] == s[i - 1] && a[j] == s[j - 1] && a[j - 1] == s[j - 2]
            && a[1..j - 1] == s[..j - 2] && a[1..j] == s[..j - 1] && a[1..j + 1] == s[..j] && a[j..n + 1] == s[j - 1..]
  {
  }

  lemma SettledLast(s: seq<nat>)
    requires |s| > 0 && Settled(s, |s| - 1)
    ensures Settled(s, |s|)
  {
  }

  lemma GreaterToo(s: seq<nat>, i: nat, j: nat)
    requires 1 <= i < j <= |s| && Settled(s, i - 1) && s[i - 1] != s[j - 1] && s[i - 1] <= s[j - 2] <= s[j - 1]
    requires j > i + 1 ==> Settled(s[..j - 1], i)
    ensures Settled(s[..j], i) && s[i - 1] < s[j - 1]
  {
  }

  /** Dropping one of two equal neighbours of a sorted sequence. */
  lemma DroppedSame(s: seq<nat>, i: nat)
    requires 1 <= i < |s| && Sorted(s) && s[i - 1] == s[i]
    ensures Sorted(s[..i - 1] + s[i..]) && Elements(s[..i - 1] + s[i..]) == Elements(s)
    ensures Settled(s, i - 1) ==> Settled(s[..i - 1] + s[i..], i - 1)
  {
    var t := s[..i - 1] + s[i..];
    assert s == s[..i - 1] + [s[i]] + s[i..];
    assert s[i] in s[i..];
  }

  lemma Neighbours(s: seq<nat>, j: nat)
    requires Sorted(s) && 1 <= j < |s|
    ensures s[j - 1] <= s[j]
  {
  }

  /** CmpSortKcbArray: `a[0]` is the count, the indices follow. */
  method SortKcbArray(a: array<nat>)
    requires a.Length > 0 && a[0] < a.Length
    modifies a
    ensures a[0] <= old(a[0])
    ensures Ascending(a[1..a[0] + 1]) && Elements(a[1..a[0] + 1]) == old(Elements(a[1..a[0] + 1]))
    ensures a[old(a[0]) + 1..] == old(a[a[0] + 1..])
  {
    var count := a[0];
    ExchangeSort(a, count);
    var n := RemoveDuplicates(a, count);
    ghost var s := a[1..n + 1];
    a[0] := n;
    assert a[1..n + 1] == s;
  }
}
