/** Group order of the boot-driver list: the move-to-front passes of CmpDoSort. */
module GroupOrder {
  import opened Lists
  import opened DriverLinks
  import opened TagOrder

  // ----- Group names ----------------------------------------------------------

  /** RtlEqualUnicodeString with CaseInSensitive: `up` is the upcase table. */
  predicate SameName(up: char -> char, a: string, b: string) {
    |a| == |b| && forall i :: 0 <= i < |a| ==> up(a[i]) == up(b[i])
  }

  /** A name with every character upcased. */
  function Upcased(up: char -> char, a: string): (r: string)
    ensures |r| == |a| && forall i :: 0 <= i < |a| ==> r[i] == up(a[i])
  {
    seq(|a|, i requires 0 <= i < |a| => up(a[i]))
  }

  /** Names are the same exactly if their upcased forms are the same string; for an upcase
      table that changes nothing, exactly if they are equal. */
  lemma SameNameIff(up: char -> char, a: string, b: string)
    ensures SameName(up, a, b) <==> Upcased(up, a) == Upcased(up, b)
    ensures (forall c :: up(c) == c) ==> (SameName(up, a, b) <==> a == b)
  {
    var x, y := Upcased(up, a), Upcased(up, b);
    assert SameName(up, a, b) ==> x == y;
    if x == y {
      assert forall i :: 0 <= i < |a| ==> x[i] == y[i];
    }
  }

  /** What the ordering knows of the nodes: their records and the upcase table. */
  datatype Catalog = Catalog(drivers: nat -> Driver, up: char -> char)

  /** The test of CmpDoSort: the node has a group buffer and it names `group`. */
  predicate InGroup(c: Catalog, x: nat, group: string) {
    c.drivers(x).hasGroup && SameName(c.up, group, c.drivers(x).group)
  }

  /** Position of the first name of `names` that `x` belongs to; the length when none. */
  function Rank(c: Catalog, names: seq<string>, x: nat): nat {
    if names == [] || InGroup(c, x, names[0]) then 0 else 1 + Rank(c, names[1..], x)
  }

  lemma {:induction false} RankIsFirst(c: Catalog, names: seq<string>, x: nat)
    ensures Rank(c, names, x) <= |names|
    ensures Rank(c, names, x) < |names| ==> InGroup(c, x, names[Rank(c, names, x)])
    ensures forall i :: 0 <= i < Rank(c, names, x) ==> !InGroup(c, x, names[i])
  {
    hide SameName, InGroup;
    if names != [] && !InGroup(c, x, names[0]) {
      RankIsFirst(c, names[1..], x);
      assert forall i :: 1 <= i < |names| ==> names[i] == names[1..][i - 1];
    }
  }

  // ----- One move-to-front pass ------------------------------------------------

  /** The nodes of `s` inside (or outside) the group, in order. */
  function Select(c: Catalog, s: seq<nat>, group: string, inside: bool): seq<nat> {
    if s == [] then []
    else
      var x := s[|s| - 1];
      Select(c, s[..|s| - 1], group, inside) + if InGroup(c, x, group) == inside then [x] else []
  }

  function Reversed(s: seq<nat>): (r: seq<nat>)
    ensures |r| == |s|
  {
    seq(|s|, i requires 0 <= i < |s| => s[|s| - 1 - i])
  }

  /** The members of the group, in reverse, followed by everything else in its old order. */
  function MoveToFront(c: Catalog, s: seq<nat>, group: string): seq<nat> {
    Reversed(Select(c, s, group, true)) + Select(c, s, group, false)
  }

  lemma {:induction false} SelectPartition(c: Catalog, s: seq<nat>, group: string)
    ensures |Select(c, s, group, true)| + |Select(c, s, group, false)| == |s|
    ensures multiset(Select(c, s, group, true)) + multiset(Select(c, s, group, false)) == multiset(s)
  {
    hide SameName, InGroup;
    if s != [] {
      var t, x := s[..|s| - 1], s[|s| - 1];
      SelectPartition(c, t, group);
      assert s == t + [x];
      assert Select(c, s, group, true) == Select(c, t, group, true) + if InGroup(c, x, group) then [x] else [];
      assert Select(c, s, group, false) == Select(c, t, group, false) + if InGroup(c, x, group) then [] else [x];
    }
  }

  lemma {:induction false} ReversedPermutes(s: seq<nat>)
    ensures multiset(Reversed(s)) == multiset(s)
  {
    if s != [] {
      ReversedPermutes(s[1..]);
      assert s == [s[0]] + s[1..];
      assert Reversed(s) == Reversed(s[1..]) + [s[0]];
    }
  }

  lemma MoveToFrontPermutes(c: Catalog, s: seq<nat>, group: string)
    ensures multiset(MoveToFront(c, s, group)) == multiset(s)
  {
    SelectPartition(c, s, group);
    ReversedPermutes(Select(c, s, group, true));
  }

  /** Taking the node behind `front` and `rest` to the head. */
  lemma ToHead(front: seq<nat>, rest: seq<nat>, x: nat, tail: seq<nat>)
    ensures var before := Reversed(front) + rest + ([x] + tail);
            With(Cut(before, |front| + |rest|), 0, x) == Reversed(front + [x]) + rest + tail
  {
    var before := Reversed(front) + rest + ([x] + tail);
    assert Cut(before, |front| + |rest|) == Reversed(front) + rest + tail;
    assert Reversed(front + [x]) == [x] + Reversed(front);
  }

  /** The list after the pass has visited its first `i` nodes. */
  function Visited(c: Catalog, s: seq<nat>, i: nat, group: string): seq<nat>
    requires i <= |s|
  {
    MoveToFront(c, s[..i], group) + s[i..]
  }

  lemma VisitedEnds(c: Catalog, s: seq<nat>, group: string)
    ensures Visited(c, s, 0, group) == s
    ensures Visited(c, s, |s|, group) == MoveToFront(c, s, group)
  {
    assert s[..|s|] == s;
  }

  lemma VisitedAt(c: Catalog, s: seq<nat>, i: nat, group: string)
    requires i <= |s|
    ensures |Visited(c, s, i, group)| == |s|
    ensures forall k :: i <= k < |s| ==> Visited(c, s, i, group)[k] == s[k]
  {
    SelectPartition(c, s[..i], group);
  }

  lemma SelectNext(c: Catalog, s: seq<nat>, i: nat, group: string)
    requires i < |s|
    ensures InGroup(c, s[i], group) ==>
              && Select(c, s[..i + 1], group, true) == Select(c, s[..i], group, true) + [s[i]]
              && Select(c, s[..i + 1], group, false) == Select(c, s[..i], group, false)
    ensures !InGroup(c, s[i], group) ==>
              && Select(c, s[..i + 1], group, true) == Select(c, s[..i], group, true)
              && Select(c, s[..i + 1], group, false) == Select(c, s[..i], group, false) + [s[i]]
  {
    hide SameName, InGroup;
    assert s[..i + 1][..i] == s[..i];
  }

  /** Visiting one more node of the pass: it goes to the head or stays. */
  lemma VisitNext(c: Catalog, s: seq<nat>, i: nat, group: string)
    requires i < |s| && |Visited(c, s, i, group)| == |s|
    ensures var before, after := Visited(c, s, i, group), Visited(c, s, i + 1, group);
            after == if InGroup(c, s[i], group) then With(Cut(before, i), 0, s[i]) else before
  {
    hide SameName, InGroup, With, Cut, Reversed, Select;
    SelectPartition(c, s[..i], group);
    SelectNext(c, s, i, group);
    var front, rest := Select(c, s[..i], group, true), Select(c, s[..i], group, false);
    assert s[i..] == [s[i]] + s[i + 1..];
    if InGroup(c, s[i], group) {
      ToHead(front, rest, s[i], s[i + 1..]);
    } else {
      assert Reversed(front) + (rest + [s[i]]) + s[i + 1..] == Reversed(front) + rest + ([s[i]] + s[i + 1..]);
    }
  }

  /** The walk of CmpDoSort over the driver list for one group name. */
  method MovePass(list: DriverList, c: Catalog, group: string)
    requires list.Valid()
    modifies list
    ensures list.Valid()
    ensures list.order == MoveToFront(c, old(list.order), group)
  {
    hide Forward, Backward, With, Cut, SameName, MoveToFront, Visited;
    ghost var s, i := list.order, 0;
    VisitedEnds(c, s, group);
    var next := list.Flink(HEAD, -1);
    while next != HEAD
      invariant list.Valid() && 0 <= i <= |s| == |list.order|
      invariant list.order == Visited(c, s, i, group)
      invariant next == At(list.order, i)
      decreases |s| - i
    {
      VisitedAt(c, s, i, group);
      VisitNext(c, s, i, group);
      var current := next;
      next := list.Flink(next, i);
      if InGroup(c, current, group) {
        list.RemoveEntryList(current, i);
        list.InsertHeadList(current);
      }
      i := i + 1;
      VisitedAt(c, s, i, group);
    }
  }

  // ----- All passes -------------------------------------------------------------

  /** CmpDoSort: one pass per name, last name first. */
  function SortByGroups(c: Catalog, s: seq<nat>, names: seq<string>): seq<nat> {
    if names == [] then s else MoveToFront(c, SortByGroups(c, s, names[1..]), names[0])
  }

  /** The drivers of no listed group, in their old order. */
  function Unlisted(c: Catalog, s: seq<nat>, names: seq<string>): seq<nat> {
    if names == [] then s else Select(c, Unlisted(c, s, names[1..]), names[0], false)
  }

  ghost predicate RankSorted(c: Catalog, names: seq<string>, s: seq<nat>) {
    forall i, j :: 0 <= i < j < |s| ==> Rank(c, names, s[i]) <= Rank(c, names, s[j])
  }

  lemma {:induction false} SelectMembers(c: Catalog, s: seq<nat>, group: string, inside: bool, x: nat)
    ensures x in Select(c, s, group, inside) <==> x in s && InGroup(c, x, group) == inside
  {
    hide SameName, InGroup;
    if s != [] {
      SelectMembers(c, s[..|s| - 1], group, inside, x);
      assert s == s[..|s| - 1] + [s[|s| - 1]];
    }
  }

  lemma {:induction false} SelectKeepsOrder(c: Catalog, names: seq<string>, s: seq<nat>, group: string, inside: bool)
    requires RankSorted(c, names, s)
    ensures RankSorted(c, names, Select(c, s, group, inside))
  {
    hide SameName, InGroup, Rank;
    if s != [] {
      var t, x := s[..|s| - 1], s[|s| - 1];
      var r := Select(c, t, group, inside);
      SelectKeepsOrder(c, names, t, group, inside);
      forall i | 0 <= i < |r| ensures Rank(c, names, r[i]) <= Rank(c, names, x) {
        assert r[i] in t by { SelectMembers(c, t, group, inside, r[i]); }
        var k :| 0 <= k < |t| && t[k] == r[i];
        assert s[k] == r[i];
      }
    }
  }

  lemma {:induction false} SelectConcat(c: Catalog, s: seq<nat>, t: seq<nat>, group: string, inside: bool)
    ensures Select(c, s + t, group, inside) == Select(c, s, group, inside) + Select(c, t, group, inside)
  {
    hide SameName, InGroup;
    if t == [] {
      assert s + t == s;
    } else {
      SelectConcat(c, s, t[..|t| - 1], group, inside);
      assert (s + t)[..|s + t| - 1] == s + t[..|t| - 1];
    }
  }

  /** One more pass keeps the list in rank order, now with the new name in front. */
  lemma PassRanks(c: Catalog, names: seq<string>, s: seq<nat>)
    requires names != [] && RankSorted(c, names[1..], s)
    ensures RankSorted(c, names, MoveToFront(c, s, names[0]))
  {
    hide SameName, InGroup, Select, Rank;
    var front, rest := Select(c, s, names[0], true), Select(c, s, names[0], false);
    var r := Reversed(front) + rest;
    SelectKeepsOrder(c, names[1..], s, names[0], false);
    forall i | 0 <= i < |r| ensures Rank(c, names, r[i]) == if i < |front| then 0 else 1 + Rank(c, names[1..], r[i]) {
      RankCons(c, names, r[i]);
      assert r[i] in if i < |front| then front else rest;
      SelectMembers(c, s, names[0], i < |front|, r[i]);
    }
    assert forall i :: |front| <= i < |r| ==> r[i] == rest[i - |front|];
  }

  lemma RankCons(c: Catalog, names: seq<string>, x: nat)
    requires names != []
    ensures Rank(c, names, x) == if InGroup(c, x, names[0]) then 0 else 1 + Rank(c, names[1..], x)
  {
  }

  /** CmpDoSort only permutes the list. */
  lemma {:induction false} GroupsPermute(c: Catalog, s: seq<nat>, names: seq<string>)
    ensures multiset(SortByGroups(c, s, names)) == multiset(s)
  {
    hide MoveToFront;
    if names != [] {
      GroupsPermute(c, s, names[1..]);
      MoveToFrontPermutes(c, SortByGroups(c, s, names[1..]), names[0]);
    }
  }

  /** CmpDoSort puts the drivers in the order of the first place their group has in the
      order list, those of no listed group last. */
  lemma {:induction false} GroupsInOrder(c: Catalog, s: seq<nat>, names: seq<string>)
    ensures RankSorted(c, names, SortByGroups(c, s, names))
  {
    hide MoveToFront;
    if names == [] {
      assert forall x :: Rank(c, names, x) == 0;
    } else {
      hide RankSorted;
      GroupsInOrder(c, s, names[1..]);
      PassRanks(c, names, SortByGroups(c, s, names[1..]));
    }
  }

  /** CmpDoSort leaves the drivers of no listed group at the end, in their old order. */
  lemma {:induction false} UnlistedKeepOrder(c: Catalog, s: seq<nat>, names: seq<string>) returns (front: seq<nat>)
    ensures SortByGroups(c, s, names) == front + Unlisted(c, s, names)
  {
    hide Select, Reversed;
    if names == [] {
      front := [];
    } else {
      var t, u := SortByGroups(c, s, names[1..]), Unlisted(c, s, names[1..]);
      front := UnlistedKeepOrder(c, s, names[1..]);
      SelectConcat(c, front, u, names[0], false);
      front := Reversed(Select(c, t, names[0], true)) + Select(c, front, names[0], false);
      assert SortByGroups(c, s, names) == front + Unlisted(c, s, names);
    }
  }

  /** Unlisted drivers are exactly those of no listed group. */
  lemma {:induction false} UnlistedHaveNoRank(c: Catalog, s: seq<nat>, names: seq<string>, x: nat)
    ensures x in Unlisted(c, s, names) <==> x in s && Rank(c, names, x) == |names|
  {
    if names != [] {
      UnlistedHaveNoRank(c, s, names[1..], x);
      SelectMembers(c, Unlisted(c, s, names[1..]), names[0], false, x);
    }
  }

  // ----- Inside a group ------------------------------------------------------------

  /** All of `s` is inside, or all outside. */
  ghost predicate All(c: Catalog, s: seq<nat>, group: string, inside: bool) {
    forall i :: 0 <= i < |s| ==> InGroup(c, s[i], group) == inside
  }

  lemma {:induction false} SelectAll(c: Catalog, s: seq<nat>, group: string, inside: bool)
    requires All(c, s, group, inside)
    ensures Select(c, s, group, inside) == s && Select(c, s, group, !inside) == []
  {
    hide InGroup;
    if s != [] {
      var t := s[..|s| - 1];
      assert forall i :: 0 <= i < |t| ==> t[i] == s[i];
      SelectAll(c, t, group, inside);
      assert s == t + [s[|s| - 1]];
    }
  }

  lemma SelectedAre(c: Catalog, s: seq<nat>, group: string, inside: bool)
    ensures All(c, Select(c, s, group, inside), group, inside)
    ensures All(c, Reversed(Select(c, s, group, inside)), group, inside)
  {
    hide InGroup, Select;
    var r := Select(c, s, group, inside);
    forall i | 0 <= i < |r| ensures InGroup(c, r[i], group) == inside {
      SelectMembers(c, s, group, inside, r[i]);
    }
  }

  /** No driver is of both groups. */
  ghost predicate Apart(c: Catalog, a: string, b: string) {
    forall x :: InGroup(c, x, a) ==> !InGroup(c, x, b)
  }

  lemma {:induction false} SelectTwice(c: Catalog, s: seq<nat>, group: string, other: string)
    requires Apart(c, group, other)
    ensures Select(c, Select(c, s, other, false), group, true) == Select(c, s, group, true)
  {
    hide InGroup;
    if s != [] {
      var t, x := s[..|s| - 1], s[|s| - 1];
      SelectTwice(c, t, group, other);
      var r := Select(c, t, other, false);
      if InGroup(c, x, other) {
        assert Select(c, s, other, false) == r + [] == r;
        assert !InGroup(c, x, group);
      } else {
        assert Select(c, s, other, false) == r + [x];
        assert (r + [x])[..|r + [x]| - 1] == r;
      }
    }
  }

  /** A pass for another name leaves the group in its order; the pass for its own name turns
      it round. */
  lemma PassInGroup(c: Catalog, s: seq<nat>, group: string, name: string)
    ensures Apart(c, group, name) ==> Select(c, MoveToFront(c, s, name), group, true) == Select(c, s, group, true)
    ensures Select(c, MoveToFront(c, s, group), group, true) == Reversed(Select(c, s, group, true))
  {
    hide InGroup, Select;
    var front, rest := Select(c, s, name, true), Select(c, s, name, false);
    SelectConcat(c, Reversed(front), rest, group, true);
    if Apart(c, group, name) {
      SelectedAre(c, s, name, true);
      assert All(c, Reversed(front), group, false);
      SelectAll(c, Reversed(front), group, false);
      SelectTwice(c, s, group, name);
    }
    var mine, others := Select(c, s, group, true), Select(c, s, group, false);
    SelectConcat(c, Reversed(mine), others, group, true);
    SelectedAre(c, s, group, true);
    SelectedAre(c, s, group, false);
    SelectAll(c, Reversed(mine), group, true);
    SelectAll(c, others, group, false);
  }

  /** CmpDoSort turns the drivers of a listed group round, if the list names it once. */
  lemma {:induction false} GroupTurnedRound(c: Catalog, s: seq<nat>, names: seq<string>, n: nat)
    requires n < |names| && forall i :: 0 <= i < |names| && i != n ==> Apart(c, names[n], names[i])
    ensures Select(c, SortByGroups(c, s, names), names[n], true) == Reversed(Select(c, s, names[n], true))
  {
    hide Select, MoveToFront, Reversed;
    var t := SortByGroups(c, s, names[1..]);
    PassInGroup(c, t, names[n], names[0]);
    assert forall i :: 0 <= i < |names[1..]| ==> names[1..][i] == names[i + 1];
    if n == 0 {
      NotNamed(c, s, names[1..], names[n]);
    } else {
      GroupTurnedRound(c, s, names[1..], n - 1);
    }
  }

  lemma {:induction false} NotNamed(c: Catalog, s: seq<nat>, names: seq<string>, group: string)
    requires forall i :: 0 <= i < |names| ==> Apart(c, group, names[i])
    ensures Select(c, SortByGroups(c, s, names), group, true) == Select(c, s, group, true)
  {
    hide Select, MoveToFront, Reversed;
    if names != [] {
      assert forall i :: 0 <= i < |names[1..]| ==> names[1..][i] == names[i + 1];
      NotNamed(c, s, names[1..], group);
      PassInGroup(c, SortByGroups(c, s, names[1..]), group, names[0]);
    }
  }
}
