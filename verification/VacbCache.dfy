/** The cache manager's views (VACBs): reference counts, the per-file lists in file order,
    the dirty and LRU lists and the dirty-page totals.

    Each function is the effect of one critical section; `held` records who has a VACB and
    still owes a release. */
module VacbCache {
  import opened Lists

  /** VACB_MAPPING_GRANULARITY, and the same in pages. */
  const GRANULARITY: nat := 0x40000
  const VACB_PAGES: nat := 64

  datatype Vacb = Vacb(file: nat, at: nat, dirty: bool, refs: nat)

  /** `lists` and `pages` are CacheMapVacbListHead and DirtyPages of each shared cache map,
      `total` is CcTotalDirtyPages. */
  datatype State = State(vacbs: map<nat, Vacb>, lists: map<nat, seq<nat>>, lru: seq<nat>, dirty: seq<nat>,
                         total: int, pages: map<nat, int>, held: multiset<nat>)

  /** IsPointInRange. */
  predicate Covers(b: Vacb, off: nat) {
    b.at <= off < b.at + GRANULARITY
  }

  /** ROUND_DOWN to a view. */
  function Floor(off: nat): nat {
    off - off % GRANULARITY
  }

  // ----- The critical sections ---------------------------------------------------------------

  function Referenced(s: State, v: nat): State
    requires v in s.vacbs
  {
    s.(vacbs := s.vacbs[v := s.vacbs[v].(refs := s.vacbs[v].refs + 1)], held := s.held + multiset{v})
  }

  function Released(s: State, v: nat): State
    requires v in s.vacbs && s.vacbs[v].refs > 0
  {
    s.(vacbs := s.vacbs[v := s.vacbs[v].(refs := s.vacbs[v].refs - 1)], held := s.held - multiset{v})
  }

  /** Move to the tail of the LRU list. */
  function Touched(s: State, v: nat): State {
    s.(lru := Remove(s.lru, v) + [v])
  }

  /** The effect of CcRosMarkDirtyVacb, whatever its flag says. */
  function Dirtied(s: State, v: nat): State
    requires v in s.vacbs && s.vacbs[v].file in s.pages
  {
    var b := s.vacbs[v];
    s.(vacbs := s.vacbs[v := b.(dirty := true, refs := b.refs + 1)], dirty := s.dirty + [v],
       total := s.total + VACB_PAGES, pages := s.pages[b.file := s.pages[b.file] + VACB_PAGES],
       lru := Remove(s.lru, v) + [v])
  }

  function Cleaned(s: State, v: nat): State
    requires v in s.vacbs && s.vacbs[v].refs > 0 && s.vacbs[v].file in s.pages
  {
    var b := s.vacbs[v];
    s.(vacbs := s.vacbs[v := b.(dirty := false, refs := b.refs - 1)], dirty := Remove(s.dirty, v),
       total := s.total - VACB_PAGES, pages := s.pages[b.file := s.pages[b.file] - VACB_PAGES])
  }

  /** Where a view at `off` belongs: in front of the first that starts later. */
  function Slot(vacbs: map<nat, Vacb>, q: seq<nat>, off: nat): (k: nat)
    ensures k <= |q|
  {
    if q == [] || (q[0] in vacbs && vacbs[q[0]].at > off) then 0 else 1 + Slot(vacbs, q[1..], off)
  }

  function InsertAt(q: seq<nat>, k: nat, v: nat): (r: seq<nat>)
    requires k <= |q|
    ensures |r| == |q| + 1
  {
    q[..k] + [v] + q[k..]
  }

  /** CcRosCreateVacb links a new view: one reference for the list, one for the caller. */
  function Inserted(s: State, v: nat, f: nat, off: nat): State
    requires f in s.lists
  {
    s.(vacbs := s.vacbs[v := Vacb(f, Floor(off), false, 2)],
       lists := s.lists[f := InsertAt(s.lists[f], Slot(s.vacbs, s.lists[f], off), v)],
       lru := s.lru + [v], held := s.held + multiset{v})
  }

  /** A view is taken off its file's list and the LRU list and loses its last reference. */
  function Freed(s: State, v: nat): State
    requires v in s.vacbs && s.vacbs[v].file in s.lists
  {
    s.(vacbs := s.vacbs - {v}, lists := s.lists[s.vacbs[v].file := Remove(s.lists[s.vacbs[v].file], v)],
       lru := Remove(s.lru, v))
  }

  // ----- The invariant ----------------------------------------------------------------------------

  /** One reference for the list, one if dirty, one for each holder. */
  ghost predicate Counted(vacbs: map<nat, Vacb>, held: multiset<nat>) {
    && (forall v :: v in vacbs ==> vacbs[v].refs == 1 + (if vacbs[v].dirty then 1 else 0) + held[v])
    && (forall v :: v in held ==> v in vacbs)
  }

  /** Every view is on the list of its file and only there. */
  ghost predicate Placed(vacbs: map<nat, Vacb>, lists: map<nat, seq<nat>>) {
    && (forall v :: v in vacbs ==> vacbs[v].file in lists && v in lists[vacbs[v].file])
    && (forall f, v :: f in lists && v in lists[f] ==> v in vacbs && vacbs[v].file == f)
  }

  /** `q` is strictly ascending in file offset. */
  ghost predicate Ascending(vacbs: map<nat, Vacb>, q: seq<nat>) {
    forall i, j :: 0 <= i < j < |q| && q[i] in vacbs && q[j] in vacbs ==> vacbs[q[i]].at < vacbs[q[j]].at
  }

  ghost predicate Ordered(vacbs: map<nat, Vacb>, lists: map<nat, seq<nat>>) {
    && (forall f :: f in lists ==> Ascending(vacbs, lists[f]))
    && (forall v :: v in vacbs ==> vacbs[v].at % GRANULARITY == 0)
  }

  ghost predicate LruFits(vacbs: map<nat, Vacb>, lru: seq<nat>) {
    NoDuplicates(lru) && forall v :: v in lru <==> v in vacbs
  }

  ghost predicate DirtyFits(vacbs: map<nat, Vacb>, dirty: seq<nat>) {
    NoDuplicates(dirty) && forall v :: v in dirty <==> v in vacbs && vacbs[v].dirty
  }

  function DirtyOf(vacbs: map<nat, Vacb>, f: nat): set<nat> {
    set v | v in vacbs && vacbs[v].dirty && vacbs[v].file == f
  }

  /** 64 pages for every dirty view, in all and by file. */
  ghost predicate Totals(s: State) {
    && s.total == VACB_PAGES * |s.dirty|
    && s.pages.Keys == s.lists.Keys
    && (forall f :: f in s.pages ==> s.pages[f] == VACB_PAGES * |DirtyOf(s.vacbs, f)|)
  }

  ghost predicate Inv(s: State) {
    && Counted(s.vacbs, s.held) && Placed(s.vacbs, s.lists) && Ordered(s.vacbs, s.lists)
    && LruFits(s.vacbs, s.lru) && DirtyFits(s.vacbs, s.dirty) && Totals(s)
  }

  /** Two states in which the views lie at the same places. */
  ghost predicate SamePlaces(x: map<nat, Vacb>, y: map<nat, Vacb>) {
    x.Keys == y.Keys && forall v :: v in x ==> x[v].file == y[v].file && x[v].at == y[v].at
  }

  lemma PlacesKept(s: State, t: State)
    requires Placed(s.vacbs, s.lists) && Ordered(s.vacbs, s.lists)
    requires SamePlaces(s.vacbs, t.vacbs) && t.lists == s.lists
    ensures Placed(t.vacbs, t.lists) && Ordered(t.vacbs, t.lists)
  {
  }

  lemma DirtyKept(s: State, t: State)
    requires DirtyFits(s.vacbs, s.dirty) && Totals(s)
    requires SamePlaces(s.vacbs, t.vacbs) && forall v :: v in s.vacbs ==> t.vacbs[v].dirty == s.vacbs[v].dirty
    requires t.lists == s.lists && t.dirty == s.dirty && t.total == s.total && t.pages == s.pages
    ensures DirtyFits(t.vacbs, t.dirty) && Totals(t)
  {
    forall f ensures DirtyOf(t.vacbs, f) == DirtyOf(s.vacbs, f) {
    }
  }

  // ----- References -----------------------------------------------------------------------------------

  lemma ReferencedInv(s: State, v: nat)
    requires Inv(s) && v in s.vacbs
    ensures Inv(Referenced(s, v))
  {
    hide Placed, Ordered, DirtyFits, Totals, NoDuplicates;
    PlacesKept(s, Referenced(s, v));
    DirtyKept(s, Referenced(s, v));
  }

  lemma ReleasedCounted(s: State, v: nat)
    requires Counted(s.vacbs, s.held) && v in s.held
    ensures v in s.vacbs && s.vacbs[v].refs > 1 && Counted(Released(s, v).vacbs, Released(s, v).held)
  {
  }

  /** A holder's release never takes the last reference. */
  lemma ReleasedInv(s: State, v: nat)
    requires Inv(s) && v in s.held
    ensures v in s.vacbs && s.vacbs[v].refs > 1 && Inv(Released(s, v))
  {
    hide Placed, Ordered, DirtyFits, Totals, LruFits, Counted;
    ReleasedCounted(s, v);
    PlacesKept(s, Released(s, v));
    DirtyKept(s, Released(s, v));
    LruSameKeys(s.vacbs, Released(s, v).vacbs, s.lru);
  }

  lemma TouchedLru(s: State, v: nat)
    requires LruFits(s.vacbs, s.lru) && v in s.vacbs
    ensures LruFits(s.vacbs, Remove(s.lru, v) + [v])
  {
    hide NoDuplicates, Remove;
    RemoveMembers(s.lru, v);
    AppendDistinct(Remove(s.lru, v), v);
  }

  lemma TouchedInv(s: State, v: nat)
    requires Inv(s) && v in s.vacbs
    ensures Inv(Touched(s, v))
  {
    hide Placed, Ordered, DirtyFits, LruFits, Counted;
    TouchedLru(s, v);
  }

  // ----- Dirty and clean ------------------------------------------------------------------------------------

  lemma DirtyOfMore(x: map<nat, Vacb>, v: nat, b: Vacb, f: nat)
    requires v in x && !x[v].dirty && b.dirty && b.file == x[v].file
    ensures |DirtyOf(x[v := b], f)| == |DirtyOf(x, f)| + if f == b.file then 1 else 0
  {
    assert DirtyOf(x[v := b], f) == if f == b.file then DirtyOf(x, f) + {v} else DirtyOf(x, f);
  }

  lemma DirtyOfLess(x: map<nat, Vacb>, v: nat, b: Vacb, f: nat)
    requires v in x && x[v].dirty && !b.dirty && b.file == x[v].file
    ensures |DirtyOf(x[v := b], f)| == |DirtyOf(x, f)| - if f == b.file then 1 else 0
  {
    if f == b.file {
      assert v in DirtyOf(x, f);
    }
    assert DirtyOf(x[v := b], f) == if f == b.file then DirtyOf(x, f) - {v} else DirtyOf(x, f);
  }

  lemma DirtiedTotals(s: State, v: nat)
    requires Totals(s) && v in s.vacbs && !s.vacbs[v].dirty && s.vacbs[v].file in s.pages
    ensures Totals(Dirtied(s, v))
  {
    hide DirtyOf, Remove;
    var b := Dirtied(s, v).vacbs[v];
    forall f ensures |DirtyOf(s.vacbs[v := b], f)| == |DirtyOf(s.vacbs, f)| + if f == b.file then 1 else 0 {
      DirtyOfMore(s.vacbs, v, b, f);
    }
  }

  lemma DirtiedFits(s: State, v: nat)
    requires DirtyFits(s.vacbs, s.dirty) && v in s.vacbs && !s.vacbs[v].dirty && s.vacbs[v].file in s.pages
    ensures DirtyFits(Dirtied(s, v).vacbs, Dirtied(s, v).dirty)
  {
    hide NoDuplicates, Remove;
    AppendDistinct(s.dirty, v);
  }

  lemma LinkedFile(s: State, v: nat)
    requires Inv(s) && v in s.vacbs
    ensures s.vacbs[v].file in s.lists && s.vacbs[v].file in s.pages
  {
  }

  lemma DirtiedInv(s: State, v: nat)
    requires Inv(s) && v in s.vacbs && !s.vacbs[v].dirty
    ensures s.vacbs[v].file in s.pages && Inv(Dirtied(s, v))
  {
    hide Placed, Ordered, DirtyFits, Totals, LruFits;
    LinkedFile(s, v);
    PlacesKept(s, Dirtied(s, v));
    DirtiedTotals(s, v);
    DirtiedFits(s, v);
    TouchedLru(s, v);
    LruSameKeys(s.vacbs, Dirtied(s, v).vacbs, Dirtied(s, v).lru);
  }

  lemma LruSameKeys(x: map<nat, Vacb>, y: map<nat, Vacb>, lru: seq<nat>)
    requires LruFits(x, lru) && x.Keys == y.Keys
    ensures LruFits(y, lru)
  {
  }

  /** Marking keeps the invariant exactly when the view is clean, so the test of the flag
      in CcRosReleaseVacb must not be separated from the marking. */
  lemma MarkingNeedsClean(s: State, v: nat)
    requires Inv(s) && v in s.vacbs
    ensures s.vacbs[v].file in s.pages && (Inv(Dirtied(s, v)) <==> !s.vacbs[v].dirty)
  {
    hide Placed, Ordered, LruFits, Totals;
    LinkedFile(s, v);
    if s.vacbs[v].dirty {
      var i :| 0 <= i < |s.dirty| && s.dirty[i] == v;
      var d := Dirtied(s, v).dirty;
      assert d[i] == d[|s.dirty|];
      assert !NoDuplicates(d);
    } else {
      DirtiedInv(s, v);
    }
  }

  lemma CleanedTotals(s: State, v: nat)
    requires Totals(s) && DirtyFits(s.vacbs, s.dirty)
    requires v in s.vacbs && s.vacbs[v].dirty && s.vacbs[v].file in s.pages && s.vacbs[v].refs > 0
    ensures Totals(Cleaned(s, v)) && DirtyFits(Cleaned(s, v).vacbs, Cleaned(s, v).dirty)
  {
    hide DirtyOf, Remove, NoDuplicates;
    RemoveMembers(s.dirty, v);
    var b := Cleaned(s, v).vacbs[v];
    forall f ensures |DirtyOf(s.vacbs[v := b], f)| == |DirtyOf(s.vacbs, f)| - if f == b.file then 1 else 0 {
      DirtyOfLess(s.vacbs, v, b, f);
    }
  }

  lemma CleanedInv(s: State, v: nat)
    requires Inv(s) && v in s.vacbs && s.vacbs[v].dirty
    ensures s.vacbs[v].file in s.pages && s.vacbs[v].refs > 1 && Inv(Cleaned(s, v))
  {
    hide Placed, Ordered, DirtyFits, Totals, LruFits;
    LinkedFile(s, v);
    PlacesKept(s, Cleaned(s, v));
    CleanedTotals(s, v);
    LruSameKeys(s.vacbs, Cleaned(s, v).vacbs, s.lru);
  }

  // ----- Finding a view -----------------------------------------------------------------------------------------

  /** What an exhaustive search means: some view of the file covers the offset. */
  ghost predicate Mapped(s: State, f: nat, off: nat) {
    exists v :: v in s.vacbs && s.vacbs[v].file == f && Covers(s.vacbs[v], off)
  }

  lemma FloorCovers(b: Vacb, off: nat)
    requires b.at % GRANULARITY == 0
    ensures Covers(b, off) <==> b.at == Floor(off)
  {
  }

  lemma Precedes(vacbs: map<nat, Vacb>, q: seq<nat>, i: nat, j: nat)
    requires Ascending(vacbs, q) && i < j < |q| && q[i] in vacbs && q[j] in vacbs
    ensures vacbs[q[i]].at < vacbs[q[j]].at
  {
  }

  /** A block never has two views. */
  lemma OneView(s: State, v: nat, w: nat, off: nat)
    requires Inv(s) && v in s.vacbs && w in s.vacbs && s.vacbs[v].file == s.vacbs[w].file
    requires Covers(s.vacbs[v], off) && Covers(s.vacbs[w], off)
    ensures v == w
  {
    hide Ascending, LruFits, DirtyFits, Totals, Counted, Floor;
    FloorCovers(s.vacbs[v], off);
    FloorCovers(s.vacbs[w], off);
    var q := s.lists[s.vacbs[v].file];
    var i: nat :| i < |q| && q[i] == v;
    var j: nat :| j < |q| && q[j] == w;
    if i < j {
      Precedes(s.vacbs, q, i, j);
    } else if j < i {
      Precedes(s.vacbs, q, j, i);
    }
  }

  // ----- A new view ---------------------------------------------------------------------------------------------------

  ghost predicate Unlinked(s: State, v: nat) {
    v !in s.vacbs && v !in s.lru && v !in s.dirty && v !in s.held && forall f :: f in s.lists ==> v !in s.lists[f]
  }

  lemma FreshUnlinked(s: State, v: nat)
    requires Inv(s) && v !in s.vacbs
    ensures Unlinked(s, v)
  {
    hide Ordered, Totals, NoDuplicates;
  }

  lemma {:induction false} SlotSplits(vacbs: map<nat, Vacb>, q: seq<nat>, off: nat)
    requires Ascending(vacbs, q) && forall v :: v in q ==> v in vacbs
    ensures var k := Slot(vacbs, q, off);
            && (forall i :: 0 <= i < k ==> vacbs[q[i]].at <= off)
            && (forall i :: k <= i < |q| ==> vacbs[q[i]].at > off)
  {
    if q != [] && vacbs[q[0]].at <= off {
      SlotSplits(vacbs, q[1..], off);
      var k := Slot(vacbs, q[1..], off);
      forall i | 1 <= i < |q| ensures if i < 1 + k then vacbs[q[i]].at <= off else vacbs[q[i]].at > off {
        assert q[i] == q[1..][i - 1];
      }
    }
  }

  lemma InsertMembers(q: seq<nat>, k: nat, v: nat)
    requires k <= |q|
    ensures forall w :: w in InsertAt(q, k, v) <==> w in q || w == v
  {
    var r := InsertAt(q, k, v);
    assert r[k] == v;
    forall w | w in q ensures w in r {
      var i :| 0 <= i < |q| && q[i] == w;
      assert r[if i < k then i else i + 1] == w;
    }
  }

  lemma InsertAscending(x: map<nat, Vacb>, q: seq<nat>, k: nat, v: nat, b: Vacb)
    requires Ascending(x, q) && (forall w :: w in q ==> w in x) && v !in x && k <= |q|
    requires forall i :: 0 <= i < k ==> x[q[i]].at < b.at
    requires forall i :: k <= i < |q| ==> x[q[i]].at > b.at
    ensures Ascending(x[v := b], InsertAt(q, k, v))
  {
    var r := InsertAt(q, k, v);
    forall i, j | 0 <= i < j < |r| ensures r[i] in x[v := b] && r[j] in x[v := b] && x[v := b][r[i]].at < x[v := b][r[j]].at {
      var i', j' := if i < k then i else i - 1, if j < k then j else j - 1;
      assert i != k ==> r[i] == q[i'];
      assert j != k ==> r[j] == q[j'];
    }
  }

  lemma BeforeBlock(at: nat, off: nat)
    requires at % GRANULARITY == 0 && at != Floor(off)
    ensures at <= off ==> at < Floor(off)
    ensures at > off ==> at > Floor(off)
  {
  }

  lemma InsertedOrdered(s: State, v: nat, f: nat, off: nat)
    requires Placed(s.vacbs, s.lists) && Ordered(s.vacbs, s.lists) && f in s.lists && v !in s.vacbs && !Mapped(s, f, off)
    ensures Ascending(Inserted(s, v, f, off).vacbs, Inserted(s, v, f, off).lists[f])
  {
    hide Ascending, Slot, InsertAt, Floor;
    var q := s.lists[f];
    SlotSplits(s.vacbs, q, off);
    forall i | 0 <= i < |q| ensures s.vacbs[q[i]].at != Floor(off)
                              && (s.vacbs[q[i]].at <= off ==> s.vacbs[q[i]].at < Floor(off))
                              && (s.vacbs[q[i]].at > off ==> s.vacbs[q[i]].at > Floor(off)) {
      FloorCovers(s.vacbs[q[i]], off);
      BeforeBlock(s.vacbs[q[i]].at, off);
    }
    InsertAscending(s.vacbs, q, Slot(s.vacbs, q, off), v, Vacb(f, Floor(off), false, 2));
  }

  lemma OthersAscending(x: map<nat, Vacb>, v: nat, b: Vacb, q: seq<nat>)
    requires Ascending(x, q) && v !in q
    ensures Ascending(x[v := b], q)
  {
  }

  lemma FloorAligned(off: nat)
    ensures Floor(off) % GRANULARITY == 0 && Floor(off) <= off < Floor(off) + GRANULARITY
  {
  }

  lemma InsertedAligned(s: State, v: nat, f: nat, off: nat)
    requires Placed(s.vacbs, s.lists) && Ordered(s.vacbs, s.lists) && f in s.lists && v !in s.vacbs && !Mapped(s, f, off)
    ensures Ordered(Inserted(s, v, f, off).vacbs, Inserted(s, v, f, off).lists)
  {
    hide Ascending, Slot, InsertAt, Floor, Mapped;
    InsertedOrdered(s, v, f, off);
    FloorAligned(off);
    forall g | g in s.lists && g != f ensures Ascending(Inserted(s, v, f, off).vacbs, s.lists[g]) {
      OthersAscending(s.vacbs, v, Vacb(f, Floor(off), false, 2), s.lists[g]);
    }
  }

  lemma InsertedPlaced(s: State, v: nat, f: nat, off: nat)
    requires Placed(s.vacbs, s.lists) && f in s.lists && v !in s.vacbs
    ensures Placed(Inserted(s, v, f, off).vacbs, Inserted(s, v, f, off).lists)
  {
    hide Slot, InsertAt, Floor;
    InsertMembers(s.lists[f], Slot(s.vacbs, s.lists[f], off), v);
  }

  lemma InsertedRest(s: State, v: nat, f: nat, off: nat)
    requires Inv(s) && f in s.lists && v !in s.vacbs
    ensures var t := Inserted(s, v, f, off); Counted(t.vacbs, t.held) && LruFits(t.vacbs, t.lru)
  {
    hide Placed, Ordered, Totals, DirtyFits, NoDuplicates, InsertAt, Slot, Floor;
    AppendDistinct(s.lru, v);
  }

  lemma InsertedDirty(s: State, v: nat, f: nat, off: nat)
    requires Inv(s) && f in s.lists && v !in s.vacbs
    ensures var t := Inserted(s, v, f, off); DirtyFits(t.vacbs, t.dirty) && Totals(t)
  {
    hide Placed, Ordered, Counted, LruFits, NoDuplicates, InsertAt, Slot, Floor;
    var t := Inserted(s, v, f, off);
    forall g ensures DirtyOf(t.vacbs, g) == DirtyOf(s.vacbs, g) {
    }
  }

  /** Linking a view for a block that has none, wherever the recheck finds the list. */
  lemma InsertedInv(s: State, v: nat, f: nat, off: nat)
    requires Inv(s) && f in s.lists && v !in s.vacbs && !Mapped(s, f, off)
    ensures Inv(Inserted(s, v, f, off))
  {
    hide Placed, Ordered, Counted, LruFits, DirtyFits, Totals, Mapped, Inserted;
    InsertedPlaced(s, v, f, off);
    InsertedAligned(s, v, f, off);
    InsertedRest(s, v, f, off);
    InsertedDirty(s, v, f, off);
  }

  // ----- Freeing a view ---------------------------------------------------------------------------------------------------

  lemma AscendingDistinct(vacbs: map<nat, Vacb>, q: seq<nat>)
    requires Ascending(vacbs, q) && forall v :: v in q ==> v in vacbs
    ensures NoDuplicates(q)
  {
  }

  lemma RemoveAscending(vacbs: map<nat, Vacb>, q: seq<nat>, v: nat)
    requires Ascending(vacbs, q)
    ensures Ascending(vacbs - {v}, Remove(q, v))
  {
    hide Remove, Place;
    var r := Remove(q, v);
    forall i, j | 0 <= i < j < |r| && r[i] in vacbs - {v} && r[j] in vacbs - {v} ensures vacbs[r[i]].at < vacbs[r[j]].at {
      RemoveAt(q, v, i);
      RemoveAt(q, v, j);
    }
  }

  lemma FreedPlaced(s: State, v: nat)
    requires Placed(s.vacbs, s.lists) && Ordered(s.vacbs, s.lists) && v in s.vacbs
    ensures Placed(Freed(s, v).vacbs, Freed(s, v).lists) && Ordered(Freed(s, v).vacbs, Freed(s, v).lists)
  {
    hide Ascending, NoDuplicates, Remove;
    var f := s.vacbs[v].file;
    AscendingDistinct(s.vacbs, s.lists[f]);
    RemoveMembers(s.lists[f], v);
    RemoveAscending(s.vacbs, s.lists[f], v);
    forall g | g in s.lists && g != f ensures Ascending(s.vacbs - {v}, s.lists[g]) {
      FewerAscending(s.vacbs, v, s.lists[g]);
    }
  }

  lemma FewerAscending(vacbs: map<nat, Vacb>, v: nat, q: seq<nat>)
    requires Ascending(vacbs, q)
    ensures Ascending(vacbs - {v}, q)
  {
  }

  lemma FreedDirty(s: State, v: nat)
    requires DirtyFits(s.vacbs, s.dirty) && Totals(s) && v in s.vacbs && !s.vacbs[v].dirty && s.vacbs[v].file in s.lists
    ensures DirtyFits(Freed(s, v).vacbs, s.dirty) && Totals(Freed(s, v))
  {
    hide NoDuplicates, Remove;
    forall g ensures DirtyOf(s.vacbs - {v}, g) == DirtyOf(s.vacbs, g) {
    }
  }

  /** Fewer than two references: the view is clean and nobody holds it. */
  lemma Unused(s: State, v: nat)
    requires Inv(s) && v in s.vacbs
    ensures s.vacbs[v].refs >= 1
    ensures s.vacbs[v].refs < 2 <==> !s.vacbs[v].dirty && v !in s.held
  {
    hide Placed, Ordered, LruFits, DirtyFits, Totals;
  }

  /** Freeing an unused view keeps the invariant and leaves it on no list. */
  lemma FreedInv(s: State, v: nat)
    requires Inv(s) && v in s.vacbs && s.vacbs[v].refs < 2
    ensures s.vacbs[v].file in s.lists && Inv(Freed(s, v)) && Unlinked(Freed(s, v), v)
  {
    hide Placed, Ordered, DirtyFits, Totals, NoDuplicates, Remove, Unlinked;
    LinkedFile(s, v);
    Unused(s, v);
    FreedPlaced(s, v);
    FreedDirty(s, v);
    RemoveMembers(s.lru, v);
    FreshUnlinked(Freed(s, v), v);
  }
}
