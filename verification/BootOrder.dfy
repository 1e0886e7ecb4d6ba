/** The whole ordering of the boot-driver list: reading the order list backwards, the
    group passes, and the tag ordering of each run of equal groups. */
module BootOrder {
  import opened DriverLinks
  import opened TagOrder
  import opened GroupOrder

  // ----- The REG_MULTI_SZ order list ---------------------------------------------

  const NUL: char := '\0'

  ghost predicate GoodNames(names: seq<string>) {
    forall i :: 0 <= i < |names| ==> names[i] != "" && NUL !in names[i]
  }

  /** The strings one after the other, each followed by its NUL. */
  function Strings(names: seq<string>): string {
    if names == [] then "" else Strings(names[..|names| - 1]) + names[|names| - 1] + [NUL]
  }

  /** What a forward reader makes of a buffer: strings up to the first empty one. */
  function Split(buffer: string, from: nat, at: nat): seq<string>
    requires from <= at <= |buffer|
    decreases |buffer| - at
  {
    if at == |buffer| then []
    else if buffer[at] != NUL then Split(buffer, from, at + 1)
    else if at == from then []
    else [buffer[from..at]] + Split(buffer, at + 1, at + 1)
  }

  /** The buffer holds `names`, with the closing empty string or without it. */
  ghost predicate Holds(buffer: string, names: seq<string>) {
    GoodNames(names) && (buffer == Strings(names) + [NUL] || (buffer == Strings(names) && names != []))
  }

  lemma {:induction false} StringsConcat(a: seq<string>, b: seq<string>)
    ensures Strings(a + b) == Strings(a) + Strings(b)
  {
    if b == [] {
      assert a + b == a;
    } else {
      var n := |b| - 1;
      StringsConcat(a, b[..n]);
      assert (a + b)[..|a + b| - 1] == a + b[..n] && (a + b)[|a + b| - 1] == b[n];
      assert Strings(a + b) == Strings(a) + Strings(b[..n]) + b[n] + [NUL];
    }
  }

  lemma {:induction false} SplitName(buffer: string, from: nat, at: nat, end: nat)
    requires from <= at <= end < |buffer| && from < end && buffer[end] == NUL
    requires forall i :: at <= i < end ==> buffer[i] != NUL
    ensures Split(buffer, from, at) == [buffer[from..end]] + Split(buffer, end + 1, end + 1)
    decreases end - at
  {
    if at < end {
      SplitName(buffer, from, at + 1, end);
    }
  }

  lemma {:induction false} SplitFrom(buffer: string, names: seq<string>, k: nat)
    requires Holds(buffer, names) && k <= |names| && |Strings(names[..k])| <= |buffer|
    ensures Split(buffer, |Strings(names[..k])|, |Strings(names[..k])|) == names[k..]
    decreases |names| - k
  {
    var from := |Strings(names[..k])|;
    if k == |names| {
      assert names[..k] == names;
    } else {
      NameAt(buffer, names, k);
      var end := |Strings(names[..k + 1])| - 1;
      SplitName(buffer, from, from, end);
      SplitFrom(buffer, names, k + 1);
      assert names[k..] == [names[k]] + names[k + 1..];
    }
  }

  /** Reading forward gives the names back. */
  lemma SplitHolds(buffer: string, names: seq<string>)
    requires Holds(buffer, names)
    ensures Split(buffer, 0, 0) == names
  {
    assert names[..0] == [] && names[0..] == names;
    SplitFrom(buffer, names, 0);
  }

  /** The buffer around its k-th name. */
  lemma AroundName(buffer: string, names: seq<string>, k: nat) returns (rest: string)
    requires Holds(buffer, names) && k < |names|
    ensures buffer == Strings(names[..k]) + names[k] + [NUL] + rest
    ensures |Strings(names[..k + 1])| == |Strings(names[..k])| + |names[k]| + 1
    ensures k + 1 == |names| ==> rest == [] || rest == [NUL]
  {
    assert names == names[..k + 1] + names[k + 1..] && names[..k + 1][..k] == names[..k];
    StringsConcat(names[..k + 1], names[k + 1..]);
    assert Strings(names[..k + 1]) == Strings(names[..k]) + names[k] + [NUL];
    hide Strings;
    rest := buffer[|Strings(names[..k + 1])|..];
    if k + 1 == |names| {
      assert names[..k + 1] == names;
    }
  }

  /** Where the k-th name lies in the buffer. */
  lemma NameAt(buffer: string, names: seq<string>, k: nat)
    requires Holds(buffer, names) && k < |names|
    ensures var from, end := |Strings(names[..k])|, |Strings(names[..k + 1])| - 1;
            && from < end < |buffer|
            && buffer[from..end] == names[k]
            && buffer[end] == NUL
            && (forall i :: from <= i < end ==> buffer[i] != NUL)
            && (0 < from ==> buffer[from - 1] == NUL)
            && (k + 1 == |names| ==> end + 1 <= |buffer| <= end + 2)
            && (end + 1 < |buffer| && k + 1 == |names| ==> buffer[end + 1] == NUL)
  {
    StringsEndWithNul(names[..k]);
    hide Strings;
    var rest := AroundName(buffer, names, k);
    var from, end := |Strings(names[..k])|, |Strings(names[..k + 1])| - 1;
    assert forall i :: from <= i < end ==> buffer[i] == names[k][i - from];
  }

  lemma StringsEndWithNul(names: seq<string>)
    ensures Strings([]) == []
    ensures names != [] ==> |Strings(names)| > 0 && Strings(names)[|Strings(names)| - 1] == NUL
  {
  }

  // ----- The backward scan ----------------------------------------------------------

  /** The nearest place before `current` that follows a NUL or starts the buffer. */
  function ScanStart(buffer: string, current: nat): (start: nat)
    requires 0 < current < |buffer|
    ensures start < current && (start == 0 || buffer[start - 1] == NUL)
    ensures forall i :: start <= i < current - 1 ==> buffer[i] != NUL
  {
    if current == 1 || buffer[current - 2] == NUL then current - 1 else ScanStart(buffer, current - 1)
  }

  /** The lowest NUL the scan sees on its way from `current`. */
  function ScanEnd(buffer: string, current: nat): (end: nat)
    requires 0 < current < |buffer|
    ensures ScanStart(buffer, current) < end <= current
  {
    if ScanStart(buffer, current) < current - 1 && buffer[current - 1] == NUL then current - 1 else current
  }

  /** The names the backward scan finds, in the order they have in the buffer. */
  function NamesBefore(buffer: string, current: int): seq<string>
    requires current < |buffer|
    decreases current
  {
    if current <= 0 then []
    else
      var start := ScanStart(buffer, current);
      NamesBefore(buffer, start - 1) + [buffer[start..ScanEnd(buffer, current)]]
  }

  /** The inner loop of CmpDoSort; `before` is whatever lies in front of the buffer. */
  method ScanBack(buffer: string, before: char, current0: nat) returns (start: nat, end: nat)
    requires 0 < current0 < |buffer| && buffer[current0] == NUL
    ensures start == ScanStart(buffer, current0) && end == ScanEnd(buffer, current0)
  {
    var current := current0;
    end := current0;
    var more := true;
    while more
      invariant 0 <= current <= current0
      invariant more ==> 0 < current && ScanStart(buffer, current) == ScanStart(buffer, current0)
      invariant more && current < current0 ==> buffer[current - 1] != NUL
      invariant !more ==> current == ScanStart(buffer, current0)
      invariant end == if current < current0 - 1 && buffer[current0 - 1] == NUL then current0 - 1 else current0
      invariant forall i :: current <= i < current0 - 1 ==> buffer[i] != NUL
      decreases more, current
    {
      if buffer[current] == NUL {
        end := current;
      }
      current := current - 1;
      var previous := if current == 0 then before else buffer[current - 1];
      more := previous != NUL && current != 0;
    }
    start := current;
  }

  lemma {:induction false} NamesBeforeHolds(buffer: string, names: seq<string>, k: nat, current: int)
    requires Holds(buffer, names) && k <= |names| && current < |buffer|
    requires current == |Strings(names[..k])| - 1 || (k == |names| && current == |Strings(names)| == |buffer| - 1)
    ensures NamesBefore(buffer, current) == names[..k]
    decreases k
  {
    StringsEndWithNul([]);
    hide Strings, ScanStart, ScanEnd, Holds;
    if k == 0 {
      assert names[..k] == [];
    } else {
      ScanFindsName(buffer, names, k, current);
      NameAt(buffer, names, k - 1);
      NamesBeforeHolds(buffer, names, k - 1, |Strings(names[..k - 1])| - 1);
      assert names[..k] == names[..k - 1] + [names[k - 1]];
    }
  }

  lemma ScanFindsName(buffer: string, names: seq<string>, k: nat, current: int)
    requires Holds(buffer, names) && 0 < k <= |names| && current < |buffer|
    requires current == |Strings(names[..k])| - 1 || (k == |names| && current == |Strings(names)| == |buffer| - 1)
    ensures 0 < current && ScanStart(buffer, current) == |Strings(names[..k - 1])|
    ensures ScanEnd(buffer, current) == |Strings(names[..k])| - 1
  {
    NameAt(buffer, names, k - 1);
    hide Strings;
    var from, end := |Strings(names[..k - 1])|, |Strings(names[..k])| - 1;
    assert k == |names| ==> names[..k] == names;
    assert current == end || current == end + 1;
    var start := ScanStart(buffer, current);
    assert forall i :: start <= i < current - 1 ==> buffer[i] != NUL;
    assert from <= start;
  }

  /** On a well-formed list the backward scan finds what a forward reader finds. */
  lemma ScanAgreesWithSplit(buffer: string, names: seq<string>)
    requires Holds(buffer, names)
    ensures NamesBefore(buffer, |buffer| - 1) == Split(buffer, 0, 0) == names
  {
    SplitHolds(buffer, names);
    assert names[..|names|] == names;
    NamesBeforeHolds(buffer, names, |names|, |buffer| - 1);
  }

  /** CmpDoSort on any NUL-terminated order list. */
  method DoSort(list: DriverList, c: Catalog, buffer: string, before: char)
    requires list.Valid()
    requires buffer != [] && buffer[|buffer| - 1] == NUL
    modifies list
    ensures list.Valid()
    ensures list.order == SortByGroups(c, old(list.order), NamesBefore(buffer, |buffer| - 1))
  {
    hide ScanStart, ScanEnd, MoveToFront;
    ghost var s, found: seq<string> := list.order, [];
    var current: int := |buffer| - 1;
    while current > 0
      invariant list.Valid() && current < |buffer|
      invariant current > 0 ==> buffer[current] == NUL
      invariant NamesBefore(buffer, |buffer| - 1) == NamesBefore(buffer, current) + found
      invariant list.order == SortByGroups(c, s, found)
    {
      var start, end := ScanBack(buffer, before, current);
      var group := buffer[start..end];
      MovePass(list, c, group);
      current := start as int - 1;
      assert ([group] + found)[1..] == found;
      assert NamesBefore(buffer, current) + [group] + found == NamesBefore(buffer, current) + ([group] + found);
      found := [group] + found;
    }
    assert [] + found == found;
  }

  // ----- Runs of equal groups ----------------------------------------------------------

  predicate SameGroup(c: Catalog, x: nat, y: nat) {
    SameName(c.up, c.drivers(x).group, c.drivers(y).group)
  }

  /** Two drivers are of the same group exactly if their upcased groups are the same string. */
  lemma SameGroupIff(c: Catalog, x: nat, y: nat)
    ensures SameGroup(c, x, y) <==> Upcased(c.up, c.drivers(x).group) == Upcased(c.up, c.drivers(y).group)
  {
    SameNameIff(c.up, c.drivers(x).group, c.drivers(y).group);
  }

  /** All of i..j lies in one run of equal groups. */
  ghost predicate OneRun(c: Catalog, s: seq<nat>, i: nat, j: nat)
    requires i <= j < |s|
  {
    forall k :: i <= k <= j ==> SameGroup(c, s[i], s[k])
  }

  /** Inside every run that lies in the first `p` places the tags ascend. */
  ghost predicate RunsSorted(c: Catalog, s: seq<nat>, p: nat)
    requires p <= |s|
  {
    forall i, j :: 0 <= i < j < p && OneRun(c, s, i, j) ==> c.drivers(s[i]).tag <= c.drivers(s[j]).tag
  }

  /** Place by place the groups are those of `s`. */
  ghost predicate SameGroups(c: Catalog, s: seq<nat>, t: seq<nat>) {
    |s| == |t| && forall i :: 0 <= i < |s| ==> SameGroup(c, s[i], t[i])
  }

  lemma SameGroupEquivalence(c: Catalog, x: nat, y: nat, z: nat)
    ensures SameGroup(c, x, x)
    ensures SameGroup(c, x, y) ==> SameGroup(c, y, x)
    ensures SameGroup(c, x, y) && SameGroup(c, y, z) ==> SameGroup(c, x, z)
  {
  }

  lemma SameGroupsTwice(c: Catalog, r: seq<nat>, s: seq<nat>, t: seq<nat>)
    requires SameGroups(c, r, s) && SameGroups(c, s, t)
    ensures SameGroups(c, r, t)
  {
    hide SameGroup;
    forall i | 0 <= i < |r| ensures SameGroup(c, r[i], t[i]) {
      SameGroupEquivalence(c, r[i], s[i], t[i]);
    }
  }

  lemma PermutedElements(s: seq<nat>, t: seq<nat>, lo: nat, hi: nat)
    requires PermutedInside(s, t, lo, hi)
    ensures multiset(t) == multiset(s)
    ensures forall i :: 0 <= i < |s| && !(lo <= i < hi) ==> t[i] == s[i]
    ensures forall i :: lo <= i < hi ==> t[i] in s[lo..hi]
  {
    assert s == s[..lo] + s[lo..hi] + s[hi..] && t == t[..lo] + t[lo..hi] + t[hi..];
    forall i | 0 <= i < lo ensures t[i] == s[i] { assert t[..lo][i] == s[..lo][i]; }
    forall i | hi <= i < |s| ensures t[i] == s[i] { assert t[hi..][i - hi] == s[hi..][i - hi]; }
    forall i | lo <= i < hi ensures t[i] in s[lo..hi] {
      assert t[i] == t[lo..hi][i - lo] && t[i] in multiset(t[lo..hi]);
    }
  }

  /** Ordering the run lo..hi keeps every place's group. */
  lemma RunKeepsGroups(c: Catalog, s: seq<nat>, t: seq<nat>, lo: nat, hi: nat)
    requires lo < hi && PermutedInside(s, t, lo, hi) && OneRun(c, s, lo, hi - 1)
    ensures SameGroups(c, s, t)
  {
    PermutedElements(s, t, lo, hi);
    hide SameGroup;
    forall i | 0 <= i < |s| ensures SameGroup(c, s[i], t[i]) {
      if lo <= i < hi {
        var k :| lo <= k < hi && t[i] == s[k];
        SameGroupEquivalence(c, s[lo], s[i], s[k]);
        SameGroupEquivalence(c, s[i], s[lo], s[k]);
      } else {
        SameGroupEquivalence(c, s[i], s[i], s[i]);
      }
    }
  }

  /** A list with the same groups has the same runs and the same borders between them. */
  lemma SameRuns(c: Catalog, s: seq<nat>, t: seq<nat>, i: nat, j: nat)
    requires SameGroups(c, s, t) && i <= j < |s|
    ensures SameGroup(c, s[i], s[j]) == SameGroup(c, t[i], t[j])
  {
    hide SameGroup;
    SameGroupEquivalence(c, s[i], t[i], t[j]);
    SameGroupEquivalence(c, s[i], t[j], s[j]);
    SameGroupEquivalence(c, s[j], t[j], t[j]);
    SameGroupEquivalence(c, t[i], s[i], s[j]);
    SameGroupEquivalence(c, t[i], s[j], t[j]);
  }

  /** Ordering the run lo..hi extends the sorted part of the list to it. */
  lemma RunOrdered(c: Catalog, s: seq<nat>, t: seq<nat>, lo: nat, hi: nat)
    requires lo < hi && PermutedInside(s, t, lo, hi) && SameGroups(c, s, t)
    requires Sorted(Tags(c.drivers, t), lo, hi)
    requires RunsSorted(c, s, lo) && (0 < lo ==> !SameGroup(c, s[lo - 1], s[lo]))
    ensures RunsSorted(c, t, hi)
  {
    PermutedElements(s, t, lo, hi);
    hide SameGroup, SameGroups;
    if 0 < lo { SameRuns(c, s, t, lo - 1, lo); }
    forall i, j | 0 <= i < j < hi && OneRun(c, t, i, j) ensures c.drivers(t[i]).tag <= c.drivers(t[j]).tag {
      if j < lo {
        assert OneRun(c, s, i, j);
      } else if i < lo {
        SameGroupEquivalence(c, t[i], t[lo - 1], t[lo]);
        SameGroupEquivalence(c, t[lo - 1], t[i], t[lo]);
        assert false;
      } else {
        assert Tags(c.drivers, t)[i] <= Tags(c.drivers, t)[j];
      }
    }
  }

  /** The inner loop of CmpResolveDriverDependencies: the run that starts at `first`. */
  method FindRun(list: DriverList, c: Catalog, first: nat, ghost p: nat) returns (end: nat, next: nat, ghost q: nat)
    requires list.Valid() && p < |list.order| && list.order[p] == first
    ensures p < q <= |list.order| && end == list.order[q - 1] && next == At(list.order, q)
    ensures OneRun(c, list.order, p, q - 1)
    ensures q < |list.order| ==> !SameGroup(c, list.order[p], list.order[q])
  {
    hide SameGroup, Forward, Backward;
    SameGroupEquivalence(c, first, first, first);
    end, q := first, p + 1;
    next := list.Flink(first, p);
    while next != HEAD && SameGroup(c, first, next)
      invariant p < q <= |list.order| && end == list.order[q - 1] && next == At(list.order, q)
      invariant OneRun(c, list.order, p, q - 1)
      decreases |list.order| - q
    {
      end := next;
      next := list.Flink(next, q);
      q := q + 1;
    }
  }

  /** CmpResolveDriverDependencies. */
  method ResolveDependencies(list: DriverList, c: Catalog)
    requires list.Valid()
    modifies list
    ensures list.Valid()
    ensures multiset(list.order) == multiset(old(list.order))
    ensures SameGroups(c, old(list.order), list.order)
    ensures RunsSorted(c, list.order, |list.order|)
  {
    hide Forward, Backward, SameGroup, Sorted, PermutedInside, RunsSorted, OneRun;
    ghost var s, p: nat := list.order, 0;
    StartOfRuns(c, s);
    var next := list.Flink(HEAD, -1);
    while next != HEAD
      invariant list.Valid() && p <= |s| == |list.order| && next == At(list.order, p)
      invariant multiset(list.order) == multiset(s) && SameGroups(c, s, list.order) && RunsSorted(c, list.order, p)
      invariant 0 < p < |s| ==> !SameGroup(c, list.order[p - 1], list.order[p])
      decreases |s| - p
    {
      ghost var before := list.order;
      var startNode, endNode := next, next;
      ghost var q;
      endNode, next, q := FindRun(list, c, startNode, p);
      OrderGroup(list, c.drivers, startNode, endNode, p, q);
      RunDone(c, s, before, list.order, p, q);
      p := q;
    }
  }

  lemma StartOfRuns(c: Catalog, s: seq<nat>)
    ensures RunsSorted(c, s, 0) && SameGroups(c, s, s)
  {
  }

  lemma RunDone(c: Catalog, r: seq<nat>, s: seq<nat>, t: seq<nat>, lo: nat, hi: nat)
    requires lo < hi && PermutedInside(s, t, lo, hi) && SameGroups(c, r, s) && OneRun(c, s, lo, hi - 1)
    requires Sorted(Tags(c.drivers, t), lo, hi)
    requires RunsSorted(c, s, lo) && (0 < lo ==> !SameGroup(c, s[lo - 1], s[lo]))
    requires hi < |s| ==> !SameGroup(c, s[lo], s[hi])
    ensures |s| == |t| && multiset(t) == multiset(s) && SameGroups(c, r, t) && RunsSorted(c, t, hi)
    ensures hi < |s| ==> t[hi] == s[hi] && !SameGroup(c, t[hi - 1], t[hi])
  {
    hide SameGroup, SameGroups, RunsSorted, Sorted;
    RunKeepsGroups(c, s, t, lo, hi);
    SameGroupsTwice(c, r, s, t);
    RunOrdered(c, s, t, lo, hi);
    PermutedElements(s, t, lo, hi);
    if hi < |s| {
      SameRuns(c, s, t, hi - 1, hi);
      SameGroupEquivalence(c, s[lo], s[hi - 1], s[hi]);
    }
  }

  // ----- The whole ordering -----------------------------------------------------------------

  /** Nodes are well formed when a node without a group buffer has an empty group. */
  ghost predicate GoodDrivers(c: Catalog, s: seq<nat>) {
    forall i :: 0 <= i < |s| ==> c.drivers(s[i]).hasGroup || c.drivers(s[i]).group == ""
  }

  /** The order of the finished list: by group rank, then by tag inside a listed group. */
  ghost predicate BootOrdered(c: Catalog, names: seq<string>, s: seq<nat>) {
    forall i, j :: 0 <= i < j < |s| ==>
      && Rank(c, names, s[i]) <= Rank(c, names, s[j])
      && (Rank(c, names, s[i]) == Rank(c, names, s[j]) < |names| ==> c.drivers(s[i]).tag <= c.drivers(s[j]).tag)
  }

  /** Nodes with the same group name have the same rank. */
  lemma {:induction false} SameGroupSameRank(c: Catalog, names: seq<string>, x: nat, y: nat)
    requires SameGroup(c, x, y) && GoodNames(names)
    requires c.drivers(x).hasGroup || c.drivers(x).group == ""
    requires c.drivers(y).hasGroup || c.drivers(y).group == ""
    ensures Rank(c, names, x) == Rank(c, names, y)
  {
    if names != [] {
      assert InGroup(c, x, names[0]) == InGroup(c, y, names[0]);
      SameGroupSameRank(c, names[1..], x, y);
    }
  }

  /** Nodes of the same listed rank have the same group name. */
  lemma SameRankSameGroup(c: Catalog, names: seq<string>, x: nat, y: nat)
    requires Rank(c, names, x) == Rank(c, names, y) < |names|
    ensures SameGroup(c, x, y)
  {
    RankIsFirst(c, names, x);
    RankIsFirst(c, names, y);
    hide Rank;
  }

  lemma RanksAndRuns(c: Catalog, names: seq<string>, s: seq<nat>, t: seq<nat>)
    requires GoodNames(names) && GoodDrivers(c, s) && GoodDrivers(c, t)
    requires RankSorted(c, names, s) && SameGroups(c, s, t) && RunsSorted(c, t, |t|)
    ensures BootOrdered(c, names, t)
  {
    hide SameGroup, Rank, GoodNames;
    forall i | 0 <= i < |t| ensures Rank(c, names, s[i]) == Rank(c, names, t[i]) {
      SameGroupSameRank(c, names, s[i], t[i]);
    }
    forall i, j | 0 <= i < j < |t| && Rank(c, names, t[i]) == Rank(c, names, t[j]) < |names|
      ensures c.drivers(t[i]).tag <= c.drivers(t[j]).tag
    {
      forall k | i <= k <= j ensures SameGroup(c, t[i], t[k]) {
        SameRankSameGroup(c, names, t[i], t[k]);
      }
      assert OneRun(c, t, i, j);
    }
  }

  /** The driver's group, upcased, is the `n`-th name, upcased. */
  predicate Names(c: Catalog, names: seq<string>, n: nat, x: nat)
    requires n < |names|
  {
    c.drivers(x).hasGroup && Upcased(c.up, c.drivers(x).group) == Upcased(c.up, names[n])
  }

  lemma NamesInGroup(c: Catalog, names: seq<string>, n: nat, x: nat)
    requires n < |names|
    ensures Names(c, names, n, x) <==> InGroup(c, x, names[n])
  {
    hide SameName;
    SameNameIff(c.up, names[n], c.drivers(x).group);
  }

  ghost predicate NamedUpTo(c: Catalog, names: seq<string>, n: nat, x: nat)
    requires n < |names|
  {
    exists m :: 0 <= m <= n && Names(c, names, m, x)
  }

  /** Boot order over the names themselves: in front of a driver of the `n`-th name stand
      only drivers of that name or an earlier one, and of that name only those with no higher
      tag. */
  ghost predicate NameOrdered(c: Catalog, names: seq<string>, s: seq<nat>) {
    && (forall i, j, n :: 0 <= i < j < |s| && 0 <= n < |names| && Names(c, names, n, s[j]) ==> NamedUpTo(c, names, n, s[i]))
    && (forall i, j, n :: 0 <= i < j < |s| && 0 <= n < |names| && Names(c, names, n, s[j]) && Names(c, names, n, s[i]) ==>
          c.drivers(s[i]).tag <= c.drivers(s[j]).tag)
  }

  lemma RankNamed(c: Catalog, names: seq<string>, x: nat)
    ensures Rank(c, names, x) < |names| ==> Names(c, names, Rank(c, names, x), x)
    ensures forall n :: 0 <= n < |names| && Names(c, names, n, x) ==> Rank(c, names, x) <= n
  {
    RankIsFirst(c, names, x);
    hide Rank, Names, InGroup;
    forall n | 0 <= n < |names| ensures Names(c, names, n, x) <==> InGroup(c, x, names[n]) {
      NamesInGroup(c, names, n, x);
    }
  }

  lemma OrderedByName(c: Catalog, names: seq<string>, s: seq<nat>)
    requires BootOrdered(c, names, s)
    ensures NameOrdered(c, names, s)
  {
    hide Rank, Names;
    forall i, j, n | 0 <= i < j < |s| && 0 <= n < |names| && Names(c, names, n, s[j])
      ensures NamedUpTo(c, names, n, s[i])
      ensures Names(c, names, n, s[i]) ==> c.drivers(s[i]).tag <= c.drivers(s[j]).tag
    {
      RankNamed(c, names, s[i]);
      RankNamed(c, names, s[j]);
      if Names(c, names, n, s[i]) {
        SameListed(c, names, n, s[i], s[j]);
      }
    }
  }

  /** Two drivers of one listed name have the same rank. */
  lemma SameListed(c: Catalog, names: seq<string>, n: nat, x: nat, y: nat)
    requires n < |names| && Names(c, names, n, x) && Names(c, names, n, y)
    ensures Rank(c, names, x) == Rank(c, names, y) <= n
  {
    RankIsFirst(c, names, x);
    RankIsFirst(c, names, y);
    hide Rank;
    NamesInGroup(c, names, n, x);
    NamesInGroup(c, names, n, y);
    forall k | 0 <= k < |names| ensures InGroup(c, x, names[k]) <==> InGroup(c, y, names[k]) {
      NamesInGroup(c, names, k, x);
      NamesInGroup(c, names, k, y);
    }
  }

  lemma GoodDriversPermuted(c: Catalog, s: seq<nat>, t: seq<nat>)
    requires GoodDrivers(c, s) && multiset(s) == multiset(t)
    ensures GoodDrivers(c, t)
  {
    forall i | 0 <= i < |t| ensures c.drivers(t[i]).hasGroup || c.drivers(t[i]).group == "" {
      assert t[i] in multiset(t);
      assert t[i] in s;
    }
  }

  /** CmpSortDriverList followed by CmpResolveDriverDependencies on a well-formed order
      list: a permutation of the drivers in boot order. */
  method OrderBootDrivers(list: DriverList, c: Catalog, buffer: string, before: char, ghost names: seq<string>)
    requires list.Valid() && GoodDrivers(c, list.order)
    requires Holds(buffer, names)
    modifies list
    ensures list.Valid()
    ensures multiset(list.order) == multiset(old(list.order))
    ensures BootOrdered(c, names, list.order)
    ensures RunsSorted(c, list.order, |list.order|)
    ensures NameOrdered(c, names, list.order)
  {
    assert buffer != [] && buffer[|buffer| - 1] == NUL by { StringsEndWithNul(names); }
    ScanAgreesWithSplit(buffer, names);
    hide GoodDrivers, BootOrdered, NameOrdered, RankSorted, SameGroups, RunsSorted, SortByGroups, NamesBefore, Split, Strings;
    ghost var s := list.order;
    DoSort(list, c, buffer, before);
    ghost var r := list.order;
    GroupsPermute(c, s, names);
    GroupsInOrder(c, s, names);
    ResolveDependencies(list, c);
    GoodDriversPermuted(c, s, r);
    GoodDriversPermuted(c, r, list.order);
    RanksAndRuns(c, names, r, list.order);
    OrderedByName(c, names, list.order);
  }
}
