/** The view-cache operations as the kernel runs them, over the lists and counts of
    module VacbCache. */
module VacbTable {
  import opened Lists
  import opened VacbCache

  /** In use: more references than the list and the dirty flag account for. */
  predicate InUse(b: Vacb) {
    (b.refs > 1 && !b.dirty) || (b.refs > 2 && b.dirty)
  }

  /** InUse asks exactly whether somebody holds the view. */
  lemma InUseIsHeld(s: State, v: nat)
    requires Inv(s) && v in s.vacbs
    ensures InUse(s.vacbs[v]) <==> v in s.held
  {
    hide Placed, Ordered, LruFits, DirtyFits, Totals;
  }

  /** Views that go between `x` and `y` were unused; no other changes, and dirtiness stays. */
  ghost predicate OnlyUnusedGone(x: State, y: State) {
    && (forall v :: v in y.vacbs ==> v in x.vacbs && y.vacbs[v] == x.vacbs[v])
    && (forall v :: v in x.vacbs && x.vacbs[v].refs >= 2 ==> v in y.vacbs)
    && y.lists.Keys == x.lists.Keys && y.dirty == x.dirty && y.total == x.total && y.pages == x.pages && y.held == x.held
  }

  lemma UnusedNone(x: State)
    ensures OnlyUnusedGone(x, x)
  {
  }

  lemma UnusedTwice(x: State, y: State, z: State)
    requires OnlyUnusedGone(x, y) && OnlyUnusedGone(y, z)
    ensures OnlyUnusedGone(x, z) && z.lists.Keys == x.lists.Keys && z.vacbs.Keys <= y.vacbs.Keys
  {
  }

  lemma FreedUnused(x: State, y: State, v: nat)
    requires OnlyUnusedGone(x, y) && v in y.vacbs && y.vacbs[v].refs < 2 && y.vacbs[v].file in y.lists
    ensures OnlyUnusedGone(x, Freed(y, v))
  {
  }

  /** CcPurgeCacheSection takes a view that starts in the range and ends before its end; the
      section's end counts as the end of a view that reaches beyond it. */
  predicate InPurge(b: Vacb, start: nat, end: nat, section: nat) {
    start <= b.at && ViewEnd(b, section) < end
  }

  /** Where a view ends, cut off at the end of the section. */
  function ViewEnd(b: Vacb, section: nat): nat {
    if b.at + GRANULARITY < section then b.at + GRANULARITY else section
  }

  /** A view in range is taken off: unmarked if dirty, then unlinked and freed. */
  function Purged(s: State, v: nat): State
    requires v in s.vacbs && s.vacbs[v].refs > 0 && s.vacbs[v].file in s.lists && s.vacbs[v].file in s.pages
  {
    if s.vacbs[v].dirty then Freed(Cleaned(s, v), v) else Freed(s, v)
  }

  lemma PurgedInv(s: State, v: nat)
    requires Inv(s) && v in s.vacbs && !InUse(s.vacbs[v])
    ensures s.vacbs[v].refs > 0 && s.vacbs[v].file in s.lists && s.vacbs[v].file in s.pages
    ensures Inv(Purged(s, v)) && Unlinked(Purged(s, v), v)
  {
    hide Inv, Unlinked;
    LinkedFile(s, v);
    Unused(s, v);
    if s.vacbs[v].dirty {
      CleanedInv(s, v);
      FreedInv(Cleaned(s, v), v);
    } else {
      FreedInv(s, v);
    }
  }

  /** The views that could be given up: clean and unheld. */
  function UnusedViews(s: State): set<nat> {
    set v | v in s.vacbs && s.vacbs[v].refs < 2
  }

  /** The entry at `k` is the first of the LRU list, least recently used first, that is clean
      and unheld. */
  predicate FirstUnused(s: State, k: nat) {
    && k < |s.lru| && s.lru[k] in s.vacbs && s.vacbs[s.lru[k]].refs < 2
    && forall j :: 0 <= j < k ==> s.lru[j] in s.vacbs && s.vacbs[s.lru[j]].refs >= 2
  }

  /** From `x` to `y` the least recently used view that is clean and unheld went, if there is
      one. */
  ghost predicate OneUnusedGone(x: State, y: State, freed: bool) {
    && (freed <==> exists v :: v in x.vacbs && !x.vacbs[v].dirty && v !in x.held)
    && (freed ==> exists k: nat :: FirstUnused(x, k) && y.lru == Cut(x.lru, k) && y.vacbs == x.vacbs - {x.lru[k]})
    && (!freed ==> y == x)
  }

  /** Nothing is unused, and nothing goes. */
  lemma NoneGoes(x: State)
    requires Inv(x) && forall v :: v in x.vacbs ==> x.vacbs[v].refs >= 2
    ensures OnlyUnusedGone(x, x) && OneUnusedGone(x, x, false) && UnusedViews(x) == {}
  {
    hide Inv;
    forall v | v in x.vacbs ensures x.vacbs[v].dirty || v in x.held {
      Unused(x, v);
    }
  }

  /** The first unused view goes. */
  lemma FirstGoes(x: State, k: nat)
    requires Inv(x) && FirstUnused(x, k)
    ensures k < |x.lru|
    ensures var v := x.lru[k];
            && v in x.vacbs && x.vacbs[v].refs < 2 && x.vacbs[v].file in x.lists
            && var y := Freed(x, v);
            && OnlyUnusedGone(x, y) && OneUnusedGone(x, y, true)
            && UnusedViews(x) != {} && |UnusedViews(y)| == |UnusedViews(x)| - 1 && |y.vacbs| == |x.vacbs| - 1
  {
    hide Inv, NoDuplicates;
    var v := x.lru[k];
    LinkedFile(x, v);
    Unused(x, v);
    FreedUnused(x, x, v);
    FewerKeys(x.vacbs, v);
    assert v in UnusedViews(x);
    FreedLeaves(x, v);
    LruDistinct(x);
    RemoveIsCut(x.lru, k);
  }

  lemma LruDistinct(x: State)
    requires Inv(x)
    ensures NoDuplicates(x.lru)
  {
  }

  /** From `x` to `y` exactly `k` views went, all unused. */
  ghost predicate Shed(x: State, y: State, k: nat) {
    && OnlyUnusedGone(x, y) && y.lists.Keys == x.lists.Keys && y.vacbs.Keys <= x.vacbs.Keys
    && k + |UnusedViews(y)| == |UnusedViews(x)|
  }

  lemma ShedNone(x: State)
    ensures Shed(x, x, 0)
  {
  }

  lemma ShedOne(x: State, y: State, z: State, k: nat, freed: bool)
    requires Shed(x, y, k) && OnlyUnusedGone(y, z) && (freed <==> UnusedViews(y) != {})
    requires |UnusedViews(z)| == |UnusedViews(y)| - if freed then 1 else 0
    ensures OnlyUnusedGone(x, z) && z.lists.Keys == x.lists.Keys && z.vacbs.Keys <= x.vacbs.Keys
    ensures freed ==> Shed(x, z, k + 1)
    ensures !freed ==> k == |UnusedViews(x)|
  {
    hide UnusedViews, OnlyUnusedGone;
    UnusedTwice(x, y, z);
  }

  lemma ShedFacts(x: State, y: State, k: nat)
    requires Shed(x, y, k)
    ensures OnlyUnusedGone(x, y) && y.lists.Keys == x.lists.Keys && y.vacbs.Keys <= x.vacbs.Keys && k <= |UnusedViews(x)|
  {
  }

  lemma FreedLeaves(s: State, v: nat)
    requires v in UnusedViews(s) && s.vacbs[v].file in s.lists
    ensures UnusedViews(Freed(s, v)) == UnusedViews(s) - {v}
  {
  }

  // ----- Getting a view ----------------------------------------------------------------------

  /** From `x` to `y` a caller got the view of the block at `off`: the one that was linked,
      or a new one.  Views that went were unused; nothing else changed. */
  ghost predicate GotView(x: State, y: State, v: nat, f: nat, off: nat) {
    && v in y.vacbs && y.vacbs[v].file == f && y.vacbs[v].at == Floor(off) && y.held == x.held + multiset{v}
    && (if v in x.vacbs then y.vacbs[v] == x.vacbs[v].(refs := x.vacbs[v].refs + 1)
        else y.vacbs[v] == Vacb(f, Floor(off), false, 2))
    && (forall w :: w in y.vacbs && w != v ==> w in x.vacbs && y.vacbs[w] == x.vacbs[w])
    && (forall w :: w in x.vacbs && x.vacbs[w].refs >= 2 ==> w in y.vacbs)
    && y.lists.Keys == x.lists.Keys && y.dirty == x.dirty && y.total == x.total && y.pages == x.pages
  }

  lemma GotOld(x: State, y: State, v: nat, f: nat, off: nat)
    requires OnlyUnusedGone(x, y) && v in y.vacbs && y.vacbs[v].file == f && y.vacbs[v].at == Floor(off)
    ensures GotView(x, Referenced(y, v), v, f, off)
  {
    hide Floor;
  }

  lemma GotNew(x: State, y: State, v: nat, f: nat, off: nat)
    requires OnlyUnusedGone(x, y) && v !in x.vacbs && f in y.lists
    ensures GotView(x, Inserted(y, v, f, off), v, f, off)
  {
    hide Floor, Slot, InsertAt;
  }

  lemma FewerKeys(m: map<nat, Vacb>, v: nat)
    requires v in m
    ensures |m - {v}| == |m| - 1
  {
    assert (m - {v}).Keys == m.Keys - {v};
  }

  lemma RestOf(q: seq<nat>, i: nat)
    requires i < |q| && NoDuplicates(q)
    ensures q[i] !in q[i + 1..] && forall v :: v in q[i..] <==> v == q[i] || v in q[i + 1..]
  {
    assert q[i..] == [q[i]] + q[i + 1..];
  }

  /** The trim has dealt with the first `i` views of the LRU list `q`. */
  ghost predicate TrimmedTo(x: State, y: State, q: seq<nat>, i: nat)
    requires i <= |q|
  {
    forall v :: v in y.vacbs <==> v in x.vacbs && (v in q[i..] || x.vacbs[v].refs >= 2)
  }

  lemma TrimStart(x: State)
    requires Inv(x)
    ensures OnlyUnusedGone(x, x) && TrimmedTo(x, x, x.lru, 0) && NoDuplicates(x.lru) && LruFits(x.vacbs, x.lru)
  {
    hide Placed, Ordered, DirtyFits, Totals, Counted, NoDuplicates;
    assert x.lru[0..] == x.lru;
  }

  lemma TrimAt(x: State, y: State, q: seq<nat>, i: nat)
    requires i < |q| && NoDuplicates(q) && LruFits(x.vacbs, q) && TrimmedTo(x, y, q, i) && OnlyUnusedGone(x, y)
    ensures q[i] in y.vacbs
    ensures y.vacbs[q[i]].refs >= 2 ==> TrimmedTo(x, y, q, i + 1)
    ensures forall z: State :: y.vacbs[q[i]].refs < 2 && z.vacbs == y.vacbs - {q[i]} ==> TrimmedTo(x, z, q, i + 1)
  {
    hide NoDuplicates;
    RestOf(q, i);
    assert q[i] in q;
  }

  lemma TrimEnd(x: State, y: State, q: seq<nat>)
    requires TrimmedTo(x, y, q, |q|)
    ensures forall v :: v in y.vacbs <==> v in x.vacbs && x.vacbs[v].refs >= 2
  {
  }

  // ----- Purging -----------------------------------------------------------------------------

  lemma ListFacts(x: State, f: nat)
    requires Inv(x) && f in x.lists
    ensures NoDuplicates(x.lists[f]) && forall v :: v in x.lists[f] <==> v in x.vacbs && x.vacbs[v].file == f
  {
    hide LruFits, DirtyFits, Totals, Counted, Ascending, NoDuplicates;
    AscendingDistinct(x.vacbs, x.lists[f]);
  }

  /** The range of a purge of file `f`. */
  datatype Range = Range(f: nat, start: nat, end: nat, section: nat)

  predicate Selected(x: State, r: Range, v: nat) {
    v in x.vacbs && x.vacbs[v].file == r.f && InPurge(x.vacbs[v], r.start, r.end, r.section)
  }

  /** What the purge takes of `x`: the views in range before the first one in use. */
  ghost predicate Takes(x: State, r: Range, v: nat) {
    Selected(x, r, v) && forall w :: Selected(x, r, w) && x.vacbs[w].at <= x.vacbs[v].at ==> !InUse(x.vacbs[w])
  }

  /** The purge has dealt with the first `i` views of the list. */
  ghost predicate PurgedTo(x: State, y: State, r: Range, i: nat)
    requires r.f in x.lists && i <= |x.lists[r.f]|
  {
    && (forall v :: v in y.vacbs <==> v in x.vacbs && !(v in x.lists[r.f][..i] && Selected(x, r, v)))
    && (forall v :: v in y.vacbs ==> y.vacbs[v] == x.vacbs[v])
    && (forall v :: v in x.lists[r.f][..i] && Selected(x, r, v) ==> !InUse(x.vacbs[v]))
  }

  lemma Upto(q: seq<nat>, i: nat)
    requires i < |q| && NoDuplicates(q)
    ensures q[i] !in q[..i] && forall v :: v in q[..i + 1] <==> v == q[i] || v in q[..i]
  {
    assert q[..i + 1] == q[..i] + [q[i]];
  }

  lemma PurgeAt(x: State, y: State, r: Range, i: nat)
    requires Inv(x) && r.f in x.lists && i < |x.lists[r.f]| && PurgedTo(x, y, r, i)
    ensures x.lists[r.f][i] in y.vacbs && y.vacbs[x.lists[r.f][i]] == x.vacbs[x.lists[r.f][i]]
    ensures x.lists[r.f][i] in x.vacbs && x.vacbs[x.lists[r.f][i]].file == r.f
  {
    hide Inv, Selected, InUse, NoDuplicates;
    ListFacts(x, r.f);
    Upto(x.lists[r.f], i);
  }

  lemma PurgeSkip(x: State, y: State, r: Range, i: nat)
    requires Inv(x) && r.f in x.lists && i < |x.lists[r.f]| && PurgedTo(x, y, r, i)
    requires !Selected(x, r, x.lists[r.f][i])
    ensures PurgedTo(x, y, r, i + 1)
  {
    hide Inv, Selected, InUse, NoDuplicates;
    ListFacts(x, r.f);
    Upto(x.lists[r.f], i);
  }

  lemma PurgeTake(x: State, y: State, z: State, r: Range, i: nat)
    requires Inv(x) && r.f in x.lists && i < |x.lists[r.f]| && PurgedTo(x, y, r, i)
    requires var v := x.lists[r.f][i]; Selected(x, r, v) && !InUse(x.vacbs[v]) && z.vacbs == y.vacbs - {v}
    ensures PurgedTo(x, z, r, i + 1)
  {
    hide Inv, Selected, InUse, NoDuplicates;
    ListFacts(x, r.f);
    Upto(x.lists[r.f], i);
  }

  /** Along the list, being in front means starting earlier. */
  lemma InFront(x: State, f: nat, i: nat, v: nat)
    requires Inv(x) && f in x.lists && i < |x.lists[f]| && v in x.vacbs && x.vacbs[v].file == f && x.lists[f][i] in x.vacbs
    ensures v in x.lists[f][..i] <==> x.vacbs[v].at < x.vacbs[x.lists[f][i]].at
  {
    hide LruFits, DirtyFits, Totals, Counted, Ascending;
    var q := x.lists[f];
    var k: nat :| k < |q| && q[k] == v;
    if k < i {
      Precedes(x.vacbs, q, k, i);
      assert q[..i][k] == v;
    } else if k > i {
      Precedes(x.vacbs, q, i, k);
    }
    if v in q[..i] {
      var m: nat :| m < i && q[m] == v;
      Precedes(x.vacbs, q, m, i);
    }
  }

  /** Past the end of the range the walk may stop. */
  lemma BeyondRange(x: State, r: Range, i: nat, v: nat)
    requires Inv(x) && r.f in x.lists && i < |x.lists[r.f]| && Selected(x, r, v)
    requires var w := x.lists[r.f][i]; w in x.vacbs && x.vacbs[w].at >= r.start && !Selected(x, r, w) && x.vacbs[w].file == r.f
    ensures v in x.lists[r.f][..i]
  {
    hide Inv;
    InFront(x, r.f, i, v);
  }

  lemma AllBefore(x: State, r: Range, i: nat)
    requires Inv(x) && r.f in x.lists && i < |x.lists[r.f]|
    requires var w := x.lists[r.f][i]; w in x.vacbs && x.vacbs[w].at >= r.start && !Selected(x, r, w) && x.vacbs[w].file == r.f
    ensures forall v :: Selected(x, r, v) ==> v in x.lists[r.f][..i]
  {
    hide Inv, Selected;
    forall v | Selected(x, r, v) ensures v in x.lists[r.f][..i] {
      BeyondRange(x, r, i, v);
    }
  }

  lemma AllListed(x: State, r: Range)
    requires Inv(x) && r.f in x.lists
    ensures forall v :: Selected(x, r, v) ==> v in x.lists[r.f][..|x.lists[r.f]|]
  {
    hide Inv, InPurge;
    ListFacts(x, r.f);
    assert x.lists[r.f][..|x.lists[r.f]|] == x.lists[r.f];
  }

  lemma PurgeStart(x: State, r: Range)
    requires r.f in x.lists
    ensures PurgedTo(x, x, r, 0)
  {
  }

  lemma HeldSelected(x: State, r: Range)
    requires Inv(x)
    ensures forall v :: Selected(x, r, v) ==> (InUse(x.vacbs[v]) <==> v in x.held)
  {
    hide Inv, InPurge, InUse;
    forall v | Selected(x, r, v) ensures InUse(x.vacbs[v]) <==> v in x.held {
      InUseIsHeld(x, v);
    }
  }

  lemma PurgeDone(x: State, y: State, r: Range, i: nat)
    requires Inv(x) && r.f in x.lists && i <= |x.lists[r.f]| && PurgedTo(x, y, r, i)
    requires forall v :: Selected(x, r, v) ==> v in x.lists[r.f][..i]
    ensures forall v :: Selected(x, r, v) ==> !InUse(x.vacbs[v])
    ensures forall v :: v in y.vacbs <==> v in x.vacbs && !Takes(x, r, v)
    ensures forall v :: v in y.vacbs ==> y.vacbs[v] == x.vacbs[v]
  {
    hide Inv, InUse, InPurge;
  }

  lemma PurgeStopped(x: State, y: State, r: Range, i: nat)
    requires Inv(x) && r.f in x.lists && i < |x.lists[r.f]| && PurgedTo(x, y, r, i)
    requires Selected(x, r, x.lists[r.f][i]) && InUse(x.vacbs[x.lists[r.f][i]])
    ensures forall v :: v in y.vacbs <==> v in x.vacbs && !Takes(x, r, v)
    ensures forall v :: v in y.vacbs ==> y.vacbs[v] == x.vacbs[v]
  {
    hide Inv, InUse, InPurge;
    forall v | Selected(x, r, v) ensures Takes(x, r, v) <==> v in x.lists[r.f][..i] {
      InFront(x, r.f, i, v);
      forall w | Selected(x, r, w) ensures w in x.lists[r.f][..i] <==> x.vacbs[w].at < x.vacbs[x.lists[r.f][i]].at {
        InFront(x, r.f, i, w);
      }
    }
  }

  class Cache {
    var vacbs: map<nat, Vacb>
    var lists: map<nat, seq<nat>>
    var lru: seq<nat>
    var dirty: seq<nat>
    var total: int
    var pages: map<nat, int>
    ghost var held: multiset<nat>

    ghost function View(): State
      reads this
    {
      State(vacbs, lists, lru, dirty, total, pages, held)
    }

    ghost predicate Valid()
      reads this
    {
      Inv(View())
    }

    constructor (files: set<nat>)
      ensures Valid() && lists.Keys == files && vacbs == map[] && held == multiset{}
    {
      vacbs, lists, lru, dirty, total := map[], map f | f in files :: [], [], [], 0;
      pages, held := map f | f in files :: 0, multiset{};
    }

    /** CcRosLookupVacb's walk, with its early exit: it agrees with a search of everything. */
    method Find(f: nat, off: nat) returns (r: Option<nat>)
      requires Valid() && f in lists
      ensures r.None? <==> !Mapped(View(), f, off)
      ensures r.Some? ==> r.value in vacbs && vacbs[r.value].file == f && vacbs[r.value].at == Floor(off)
    {
      hide Ascending, Floor, LruFits, DirtyFits, Totals, Counted;
      var q, i := lists[f], 0;
      while i < |q| && vacbs[q[i]].at <= off
        invariant i <= |q| && forall k :: 0 <= k < i ==> !Covers(vacbs[q[k]], off)
      {
        if Covers(vacbs[q[i]], off) {
          FloorCovers(vacbs[q[i]], off);
          return Some(q[i]);
        }
        i := i + 1;
      }
      forall k | i <= k < |q| ensures !Covers(vacbs[q[k]], off) {
        if k > i {
          Precedes(vacbs, q, i, k);
        }
      }
      r := None;
    }

    /** CcRosLookupVacb. */
    method Lookup(f: nat, off: nat) returns (r: Option<nat>)
      requires Valid() && f in lists
      modifies `vacbs, `held
      ensures Valid()
      ensures r.None? <==> !old(Mapped(View(), f, off))
      ensures r.None? ==> View() == old(View())
      ensures r.Some? ==> r.value in old(vacbs) && View() == Referenced(old(View()), r.value)
      ensures r.Some? ==> vacbs[r.value].file == f && vacbs[r.value].at == Floor(off)
    {
      hide Inv, Mapped, Floor;
      r := Find(f, off);
      if r.Some? {
        var v := r.value;
        ReferencedInv(View(), v);
        vacbs := vacbs[v := vacbs[v].(refs := vacbs[v].refs + 1)];
        held := held + multiset{v};
      }
    }

    /** CcRosMarkDirtyVacb; ASSERT(!Vacb->Dirty) is its precondition. */
    method MarkDirty(v: nat)
      requires Valid() && v in vacbs && !vacbs[v].dirty
      modifies `vacbs, `lru, `dirty, `total, `pages
      ensures Valid() && old(vacbs[v].file in pages) && View() == Dirtied(old(View()), v)
      ensures vacbs == old(vacbs)[v := old(vacbs[v]).(dirty := true, refs := old(vacbs[v]).refs + 1)]
      ensures dirty == old(dirty) + [v] && lru != [] && lru[|lru| - 1] == v
    {
      hide Inv;
      DirtiedInv(View(), v);
      var f := vacbs[v].file;
      dirty, total := dirty + [v], total + VACB_PAGES;
      pages := pages[f := pages[f] + VACB_PAGES];
      lru := Remove(lru, v) + [v];
      vacbs := vacbs[v := vacbs[v].(dirty := true, refs := vacbs[v].refs + 1)];
    }

    /** CcRosUnmarkDirtyVacb. */
    method UnmarkDirty(v: nat)
      requires Valid() && v in vacbs && vacbs[v].dirty
      modifies `vacbs, `dirty, `total, `pages
      ensures Valid() && old(vacbs[v].refs > 0 && vacbs[v].file in pages) && View() == Cleaned(old(View()), v)
      ensures vacbs == old(vacbs)[v := old(vacbs[v]).(dirty := false, refs := old(vacbs[v]).refs - 1)] && lru == old(lru)
    {
      hide Inv;
      CleanedInv(View(), v);
      var f := vacbs[v].file;
      dirty, total := Remove(dirty, v), total - VACB_PAGES;
      pages := pages[f := pages[f] - VACB_PAGES];
      vacbs := vacbs[v := vacbs[v].(dirty := false, refs := vacbs[v].refs - 1)];
    }

    /** CcRosReleaseVacb: the last reference is never the holder's. */
    method Release(v: nat, isDirty: bool)
      requires Valid() && v in held
      modifies this
      ensures Valid() && held == old(held) - multiset{v} && vacbs.Keys == old(vacbs.Keys) && lists == old(lists)
      ensures v in vacbs && vacbs[v].refs > 0 && vacbs[v].dirty == (isDirty || old(vacbs)[v].dirty)
      ensures vacbs[v].file == old(vacbs)[v].file && vacbs[v].at == old(vacbs)[v].at
      ensures forall w :: w in vacbs && w != v ==> vacbs[w] == old(vacbs[w])
    {
      hide Inv;
      ReleasedInv(View(), v);
      if isDirty && !vacbs[v].dirty {
        MarkDirty(v);
      }
      ReleasedInv(View(), v);
      vacbs := vacbs[v := vacbs[v].(refs := vacbs[v].refs - 1)];
      held := held - multiset{v};
    }

    /** The view leaves its lists and its last reference goes. */
    method Free(v: nat)
      requires Valid() && v in vacbs && vacbs[v].refs < 2
      modifies `vacbs, `lists, `lru
      ensures Valid() && old(vacbs[v].file in lists) && View() == Freed(old(View()), v) && Unlinked(View(), v)
    {
      hide Inv, Unlinked;
      FreedInv(View(), v);
      var f := vacbs[v].file;
      lists := lists[f := Remove(lists[f], v)];
      lru := Remove(lru, v);
      vacbs := vacbs - {v};
    }

    /** The walk of CcRosFreeOneUnusedVacb. */
    method FindUnused() returns (k: nat, found: bool)
      requires Valid()
      ensures if found then FirstUnused(View(), k) else forall v :: v in vacbs ==> vacbs[v].refs >= 2
    {
      hide Placed, Ordered, DirtyFits, Totals, Counted, NoDuplicates;
      k := 0;
      assert forall j :: 0 <= j < |lru| ==> lru[j] in lru;
      while k < |lru| && vacbs[lru[k]].refs >= 2
        invariant k <= |lru| && forall j :: 0 <= j < k ==> vacbs[lru[j]].refs >= 2
      {
        k := k + 1;
      }
      found := k < |lru|;
    }

    /** CcRosFreeOneUnusedVacb: the least recently used view that is clean and unheld. */
    method FreeOneUnused() returns (freed: bool)
      requires Valid()
      modifies `vacbs, `lists, `lru
      ensures Valid() && OnlyUnusedGone(old(View()), View())
      ensures OneUnusedGone(old(View()), View(), freed) && (freed <==> old(UnusedViews(View())) != {})
      ensures |UnusedViews(View())| == |old(UnusedViews(View()))| - if freed then 1 else 0
      ensures |vacbs| == |old(vacbs)| - if freed then 1 else 0
    {
      hide Inv, OnlyUnusedGone, OneUnusedGone, FirstUnused, UnusedViews, Freed;
      var k;
      k, freed := FindUnused();
      if freed {
        FirstGoes(View(), k);
        Free(lru[k]);
      } else {
        NoneGoes(View());
      }
    }

    /** CcRosCreateVacb.  `block` is the memory for a new VACB, if there is any, and `maps`
        says which attempts to map it succeed.  Each failed attempt gives up one of the
        unused views, so the loop ends, and it fails exactly when it has run out of them.
        Another thread may have linked a view of the block since the lookup: then that one
        is returned. */
    method Create(f: nat, off: nat, block: Option<nat>, maps: nat -> bool) returns (r: Option<nat>)
      requires Valid() && f in lists && (block.Some? ==> block.value !in vacbs)
      modifies this
      ensures Valid() && lists.Keys == old(lists.Keys)
      ensures r.None? <==> block.None? || forall k :: 0 <= k <= |old(UnusedViews(View()))| ==> !maps(k)
      ensures r.None? ==> OnlyUnusedGone(old(View()), View())
      ensures r.Some? ==> GotView(old(View()), View(), r.value, f, off) && (r == block || r.value in old(vacbs))
    {
      hide Inv, Floor, GotView, UnusedViews, OnlyUnusedGone;
      if block.None? {
        UnusedNone(View());
        return None;
      }
      var mapped := MapView(maps);
      if !mapped {
        return None;
      }
      r := LinkView(f, off, block.value, old(View()));
    }

    /** The retry loop: a failed mapping costs an unused view, as long as there is one. */
    method MapView(maps: nat -> bool) returns (mapped: bool)
      requires Valid()
      modifies `vacbs, `lists, `lru
      ensures Valid() && OnlyUnusedGone(old(View()), View()) && lists.Keys == old(lists.Keys) && vacbs.Keys <= old(vacbs.Keys)
      ensures mapped <==> exists k :: 0 <= k <= |old(UnusedViews(View()))| && maps(k)
    {
      hide Inv, UnusedViews, OnlyUnusedGone, OneUnusedGone, Shed;
      ghost var x := View();
      var k := 0;
      ShedNone(x);
      while !maps(k)
        invariant Valid() && Shed(x, View(), k) && forall j :: 0 <= j < k ==> !maps(j)
        decreases |vacbs|
      {
        ghost var y := View();
        var freed := FreeOneUnused();
        ShedOne(x, y, View(), k, freed);
        if !freed {
          return false;
        }
        k := k + 1;
      }
      ShedFacts(x, View(), k);
      mapped := true;
    }

    /** The recheck under the locks, and the insertion.  `x` is where the caller started. */
    method LinkView(f: nat, off: nat, block: nat, ghost x: State) returns (r: Option<nat>)
      requires Valid() && f in lists && block !in x.vacbs && OnlyUnusedGone(x, View())
      modifies this
      ensures Valid() && lists.Keys == old(lists.Keys)
      ensures r.Some? && GotView(x, View(), r.value, f, off) && (r.value == block || r.value in x.vacbs)
    {
      hide Inv, Floor, Mapped, Slot, InsertAt, GotView;
      ghost var mid := View();
      r := Lookup(f, off);
      if r.Some? {
        GotOld(x, mid, r.value, f, off);
      } else {
        InsertedInv(mid, block, f, off);
        GotNew(x, mid, block, f, off);
        var slot := FindSlot(f, off);
        lists := lists[f := InsertAt(lists[f], slot, block)];
        vacbs := vacbs[block := Vacb(f, Floor(off), false, 2)];
        lru := lru + [block];
        held := held + multiset{block};
        r := Some(block);
      }
    }

    /** The walk that remembers the last view before the offset. */
    method FindSlot(f: nat, off: nat) returns (slot: nat)
      requires Valid() && f in lists
      ensures slot == Slot(vacbs, lists[f], off)
    {
      hide Ascending, LruFits, DirtyFits, Totals, Counted;
      var q := lists[f];
      slot := 0;
      while slot < |q| && vacbs[q[slot]].at <= off
        invariant slot <= |q| && Slot(vacbs, q, off) == slot + Slot(vacbs, q[slot..], off)
      {
        assert q[slot..][1..] == q[slot + 1..];
        slot := slot + 1;
      }
    }

    /** CcRosGetVacb. */
    method Get(f: nat, off: nat, block: Option<nat>, maps: nat -> bool) returns (r: Option<nat>)
      requires Valid() && f in lists && (block.Some? ==> block.value !in vacbs)
      modifies this
      ensures Valid() && lists.Keys == old(lists.Keys)
      ensures r.None? <==> !old(Mapped(View(), f, off))
                           && (block.None? || forall k :: 0 <= k <= |old(UnusedViews(View()))| ==> !maps(k))
      ensures r.None? ==> OnlyUnusedGone(old(View()), View())
      ensures r.Some? ==> GotView(old(View()), View(), r.value, f, off) && lru != [] && lru[|lru| - 1] == r.value
      ensures r.Some? ==> (r == block || r.value in old(vacbs))
    {
      hide Inv, Floor, Mapped, Slot, UnusedViews;
      r := Lookup(f, off);
      if r.Some? {
        GotOld(old(View()), old(View()), r.value, f, off);
      } else {
        r := Create(f, off, block, maps);
      }
      if r.Some? {
        TouchedInv(View(), r.value);
        lru := Remove(lru, r.value) + [r.value];
      }
    }

    /** One pass of CcRosTrimCache over the LRU list: every view that is clean and unheld
        goes, and 64 pages are credited for each up to the target. */
    method TrimPass(target: nat) returns (credited: nat)
      requires Valid()
      modifies `vacbs, `lists, `lru
      ensures Valid() && OnlyUnusedGone(old(View()), View())
      ensures forall v :: v in vacbs <==> v in old(vacbs) && old(vacbs[v]).refs >= 2
      ensures var pages := VACB_PAGES * (|old(vacbs)| - |vacbs|); credited == if pages < target then pages else target
    {
      hide Inv, OnlyUnusedGone, TrimmedTo, NoDuplicates, LruFits;
      ghost var x := View();
      var q, i, left := lru, 0, target;
      credited := 0;
      TrimStart(x);
      while i < |q|
        invariant i <= |q| && Valid() && OnlyUnusedGone(x, View()) && TrimmedTo(x, View(), q, i)
        invariant NoDuplicates(q) && LruFits(x.vacbs, q) && left + credited == target && |vacbs| <= |x.vacbs|
        invariant var pages := VACB_PAGES * (|x.vacbs| - |vacbs|); credited == if pages < target then pages else target
      {
        var v := q[i];
        TrimAt(x, View(), q, i);
        if vacbs[v].refs < 2 {
          LinkedFile(View(), v);
          FreedUnused(x, View(), v);
          FewerKeys(vacbs, v);
          Free(v);
          var freed := if VACB_PAGES < left then VACB_PAGES else left;
          left, credited := left - freed, credited + freed;
        }
        i := i + 1;
      }
      TrimEnd(x, View(), q);
    }

    /** CcPurgeCacheSection on the views. */
    method Purge(r: Range) returns (ok: bool)
      requires Valid() && r.f in lists
      modifies this
      ensures Valid() && held == old(held) && lists.Keys == old(lists.Keys)
      ensures ok <==> forall v :: old(Selected(View(), r, v)) ==> v !in held
      ensures forall v :: v in vacbs <==> v in old(vacbs) && !old(Takes(View(), r, v))
      ensures forall v :: v in vacbs ==> vacbs[v] == old(vacbs[v])
    {
      hide Inv, Takes, PurgedTo;
      ghost var x := View();
      var q, i := lists[r.f], 0;
      ok := true;
      HeldSelected(x, r);
      PurgeStart(x, r);
      while i < |q|
        invariant i <= |q| && Valid() && held == x.held && lists.Keys == x.lists.Keys
        invariant PurgedTo(x, View(), r, i)
      {
        PurgeAt(x, View(), r, i);
        var b := vacbs[q[i]];
        if b.at < r.start {
          PurgeSkip(x, View(), r, i);
        } else {
          var viewEnd := if b.at + GRANULARITY < r.section then b.at + GRANULARITY else r.section;
          if viewEnd >= r.end {
            AllBefore(x, r, i);
            PurgeDone(x, View(), r, i);
            return;
          }
          if (b.refs > 1 && !b.dirty) || (b.refs > 2 && b.dirty) {
            PurgeStopped(x, View(), r, i);
            ok := false;
            return;
          }
          ghost var y := View();
          PurgeOne(q[i]);
          PurgeTake(x, y, View(), r, i);
        }
        i := i + 1;
      }
      AllListed(x, r);
      PurgeDone(x, View(), r, i);
    }

    method PurgeOne(v: nat)
      requires Valid() && v in vacbs && !InUse(vacbs[v])
      modifies this
      ensures Valid() && held == old(held) && lists.Keys == old(lists.Keys) && Unlinked(View(), v)
      ensures old(vacbs[v].refs > 0 && vacbs[v].file in lists && vacbs[v].file in pages) && View() == Purged(old(View()), v)
    {
      hide Inv, Unlinked;
      PurgedInv(View(), v);
      Unused(View(), v);
      LinkedFile(View(), v);
      if vacbs[v].dirty {
        UnmarkDirty(v);
      }
      Free(v);
    }
  }
}
