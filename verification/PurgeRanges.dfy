/** What CcPurgeCacheSection does to views in use and to the pages under them.  Cc asks only
    about the views it would take, so a view that merely reaches into the range is not asked
    about; Mm asks about pages, and lets go of every page in front of the first one in use
    before it gives up. */
module PurgeRanges {
  import opened Lists
  import opened VacbCache
  import opened VacbTable
  import opened FlatFile

  /** The range of CcPurgeCacheSection: no length or no offset means to the end.  A sum that
      overflows is negative, and nothing ends before it. */
  function PurgeRange(f: nat, range: Option<(nat, nat)>, section: nat): Range {
    var (start, n) := if range.Some? then range.value else (0, 0);
    Range(f, start, if n == 0 then MAXLONGLONG else if start + n > MAXLONGLONG then 0 else start + n, section)
  }

  /** MmPurgeSegment refuses such a sum. */
  predicate Overflows(range: Option<(nat, nat)>) {
    range.Some? && range.value.1 > 0 && range.value.0 + range.value.1 > MAXLONGLONG
  }

  /** Some byte of the range lies under the view. */
  predicate Touches(b: Vacb, r: Range) {
    b.file == r.f && r.start < r.end && b.at < r.end && r.start < b.at + GRANULARITY
  }

  /** The view, cut off at the end of the section, lies inside the range. */
  predicate Inside(b: Vacb, r: Range) {
    b.file == r.f && r.start <= b.at < r.end && ViewEnd(b, r.section) <= r.end
  }

  /** The purge finds a view in use and gives up. */
  ghost predicate Refused(x: State, r: Range) {
    exists v :: v in x.held && Selected(x, r, v)
  }

  ghost predicate NobodyTouches(x: State, r: Range) {
    forall v :: v in x.held && v in x.vacbs ==> !Touches(x.vacbs[v], r)
  }

  ghost predicate NobodyInside(x: State, r: Range) {
    forall v :: v in x.held && v in x.vacbs ==> !Inside(x.vacbs[v], r)
  }

  /** Views start inside the section. */
  ghost predicate InSection(x: State, r: Range) {
    r.f in x.lists && forall v :: v in x.vacbs && x.vacbs[v].file == r.f ==> x.vacbs[v].at < r.section
  }

  // ----- What goes ------------------------------------------------------------------------------

  /** Where MmPurgeSegment stops. */
  function StopOf(r: Range, used: nat -> bool): (s: nat)
    ensures Page(r.start) <= s && IsPage(s)
  {
    PageAligned(r.start);
    Stop(used, Page(r.start), r.end)
  }

  /** The bytes that go, as a range: whole pages up to the first one in use, nothing if Cc
      refuses. */
  ghost function Gone(x: State, r: Range, used: nat -> bool): Range {
    Range(r.f, Page(r.start), if Refused(x, r) then Page(r.start) else StopOf(r, used), r.section)
  }

  ghost predicate GoesThrough(x: State, r: Range, used: nat -> bool) {
    !Refused(x, r) && StopOf(r, used) >= r.end
  }

  /** Mm stops at once, or every view over what it lets go is one that Cc asks about: the
      range starts with a view, or behind all views, and reaches beyond the section or beyond
      the last view that loses a page. */
  predicate AsksAboutAll(r: Range, used: nat -> bool) {
    var stop := StopOf(r, used);
    || stop == Page(r.start) || r.section <= Floor(r.start)
    || (r.start % GRANULARITY == 0 && (r.section < r.end || Floor(stop - 1) + GRANULARITY < r.end))
  }

  /** The last view inside the range ends exactly where the range does. */
  predicate EndsOnView(r: Range)
    requires r.start < r.end
  {
    && r.start <= Floor(r.end - 1)
    && (r.section == r.end || (r.end % GRANULARITY == 0 && r.end < r.section))
  }

  // ----- Ranges for which the purge asks about every view ------------------------------------

  lemma TouchedIsTaken(b: Vacb, r: Range, used: nat -> bool)
    requires AsksAboutAll(r, used) && b.at % GRANULARITY == 0 && b.at < r.section
    requires Touches(b, r.(start := Page(r.start), end := StopOf(r, used)))
    ensures InPurge(b, r.start, r.end, r.section)
  {
    hide StopOf, Floor, Page, IsPage;
    var stop := StopOf(r, used);
    PageInBlock(r.start);
    BlockUpTo(b.at, stop - 1);
    BlockBefore(r.start, b.at);
  }

  /** A page lies in one block. */
  lemma PageInBlock(i: nat)
    ensures Floor(i) <= Page(i) <= i && (i % GRANULARITY == 0 ==> Page(i) == i)
  {
  }

  /** A block that is not behind the one of `i` starts with it or ends in front of it. */
  lemma BlockBefore(i: nat, at: nat)
    requires at % GRANULARITY == 0
    ensures at < Floor(i) ==> at + GRANULARITY <= Floor(i)
    ensures i % GRANULARITY == 0 ==> Floor(i) == i
  {
  }

  lemma BlockUpTo(at: nat, i: nat)
    requires at % GRANULARITY == 0 && at <= i
    ensures at <= Floor(i)
  {
  }

  lemma AllTouchedTaken(x: State, r: Range, used: nat -> bool)
    requires Inv(x) && InSection(x, r) && AsksAboutAll(r, used)
    ensures forall v :: v in x.vacbs && Touches(x.vacbs[v], r.(start := Page(r.start), end := StopOf(r, used))) ==> Selected(x, r, v)
  {
    hide Placed, Counted, LruFits, DirtyFits, Totals, Ascending, AsksAboutAll, InPurge, StopOf;
    forall v | v in x.vacbs && Touches(x.vacbs[v], r.(start := Page(r.start), end := StopOf(r, used))) ensures Selected(x, r, v) {
      TouchedIsTaken(x.vacbs[v], r, used);
    }
  }

  lemma SafeRange(x: State, r: Range, used: nat -> bool)
    requires Inv(x) && InSection(x, r) && AsksAboutAll(r, used)
    ensures NobodyTouches(x, Gone(x, r, used))
  {
    hide Inv, AsksAboutAll, Selected, InSection, StopOf;
    AllTouchedTaken(x, r, used);
    if !Refused(x, r) {
      assert Gone(x, r, used) == r.(start := Page(r.start), end := StopOf(r, used));
    }
  }

  lemma InsideIsTaken(b: Vacb, r: Range)
    requires r.start < r.end && Inside(b, r) && b.at % GRANULARITY == 0
    ensures InPurge(b, r.start, r.end, r.section) || EndsOnView(r)
  {
    if ViewEnd(b, r.section) == r.end {
      LastView(b.at, r.end);
    }
  }

  lemma LastView(at: nat, end: nat)
    requires at % GRANULARITY == 0 && at < end <= at + GRANULARITY
    ensures at == Floor(end - 1)
  {
  }

  lemma AllInsideTaken(x: State, r: Range)
    requires Inv(x) && r.start < r.end
    ensures forall v :: v in x.vacbs && Inside(x.vacbs[v], r) ==> Selected(x, r, v) || EndsOnView(r)
  {
    hide Placed, Counted, LruFits, DirtyFits, Totals, Ascending, EndsOnView, InPurge;
    forall v | v in x.vacbs && Inside(x.vacbs[v], r) ensures Selected(x, r, v) || EndsOnView(r) {
      InsideIsTaken(x.vacbs[v], r);
    }
  }

  lemma SafeEnd(x: State, r: Range)
    requires Inv(x) && r.start < r.end && !EndsOnView(r) && !Refused(x, r)
    ensures NobodyInside(x, r)
  {
    hide Inv, EndsOnView, Selected, Inside;
    AllInsideTaken(x, r);
  }

  // ----- Ranges for which it does not -----------------------------------------------------------

  /** One clean view of `f` at `at`, held by somebody. */
  function OneHeld(f: nat, at: nat): State {
    State(map[0 := Vacb(f, at, false, 2)], map[f := [0]], [0], [], 0, map[f := 0], multiset{0})
  }

  lemma OneHeldInv(f: nat, at: nat)
    requires at % GRANULARITY == 0
    ensures Inv(OneHeld(f, at))
  {
    assert DirtyOf(OneHeld(f, at).vacbs, f) == {};
  }

  lemma OneHeldInSection(r: Range, at: nat)
    requires at < r.section
    ensures InSection(OneHeld(r.f, at), r)
  {
  }

  /** Otherwise there is a view that loses a page and is not taken. */
  lemma TouchedButMissed(r: Range, used: nat -> bool) returns (at: nat)
    requires r.start < r.end && !AsksAboutAll(r, used)
    ensures at % GRANULARITY == 0 && at < r.section
    ensures Touches(Vacb(r.f, at, false, 2), r.(start := Page(r.start), end := StopOf(r, used)))
    ensures !InPurge(Vacb(r.f, at, false, 2), r.start, r.end, r.section)
  {
    hide StopOf, Page, IsPage;
    var stop := StopOf(r, used);
    PageInBlock(r.start);
    if r.start % GRANULARITY != 0 {
      at := Floor(r.start);
      FloorAligned(r.start);
    } else {
      at := Floor(stop - 1);
      FloorAligned(stop - 1);
      StopClose(r, used);
    }
  }

  /** The last page that goes starts before the end of the range. */
  lemma StopClose(r: Range, used: nat -> bool)
    requires StopOf(r, used) > Page(r.start)
    ensures StopOf(r, used) - PAGE_SIZE < r.end && Floor(StopOf(r, used) - 1) < r.end
  {
    hide IsPage, Page, Floor;
    var stop := StopOf(r, used);
    PageAligned(r.start);
    PageBefore(Page(r.start), stop);
    assert stop - PAGE_SIZE < r.end;
    BlockOfPage(stop);
  }

  lemma PageBefore(p: nat, q: nat)
    requires IsPage(p) && IsPage(q) && p < q
    ensures p <= q - PAGE_SIZE && IsPage(q - PAGE_SIZE)
  {
  }

  lemma BlockOfPage(q: nat)
    requires IsPage(q) && q >= PAGE_SIZE
    ensures Floor(q - 1) <= q - PAGE_SIZE
  {
  }

  lemma InsideButMissed(r: Range)
    requires r.start < r.end && EndsOnView(r)
    ensures var b := Vacb(r.f, Floor(r.end - 1), false, 2);
            b.at % GRANULARITY == 0 && b.at < r.section && Inside(b, r) && !InPurge(b, r.start, r.end, r.section)
  {
  }

  lemma OneHeldNotRefused(r: Range, at: nat)
    requires !InPurge(Vacb(r.f, at, false, 2), r.start, r.end, r.section)
    ensures !Refused(OneHeld(r.f, at), r)
  {
    hide InPurge;
  }

  // ----- Exactly when ------------------------------------------------------------------------------

  /** A purge lets go of no page under a view in use, in every state, if and only if Cc asks
      about every view over the pages in front of the first one in use. */
  lemma DiscardsUnderNobodyIff(r: Range, used: nat -> bool)
    requires r.start < r.end
    ensures (forall x :: Inv(x) && InSection(x, r) ==> NobodyTouches(x, Gone(x, r, used))) <==> AsksAboutAll(r, used)
  {
    hide Inv, AsksAboutAll, Touches, Refused, InPurge, InSection, StopOf;
    if AsksAboutAll(r, used) {
      forall x | Inv(x) && InSection(x, r) ensures NobodyTouches(x, Gone(x, r, used)) {
        SafeRange(x, r, used);
      }
    } else {
      var at := TouchedButMissed(r, used);
      var x := OneHeld(r.f, at);
      OneHeldInv(r.f, at);
      OneHeldInSection(r, at);
      OneHeldNotRefused(r, at);
      assert 0 in x.held && 0 in x.vacbs;
      assert Gone(x, r, used) == r.(start := Page(r.start), end := StopOf(r, used));
      assert !NobodyTouches(x, Gone(x, r, used));
    }
  }

  /** A purge fails whenever a view inside the range is held, in every state, if and only if
      no view inside the range ends exactly where the range does, or Mm fails anyway. */
  lemma RefusesInsideIff(r: Range, used: nat -> bool)
    requires r.start < r.end
    ensures (forall x :: Inv(x) && InSection(x, r) && GoesThrough(x, r, used) ==> NobodyInside(x, r))
            <==> !EndsOnView(r) || StopOf(r, used) < r.end
  {
    hide Inv, EndsOnView, Inside, Refused, InPurge, InSection, StopOf;
    if EndsOnView(r) && StopOf(r, used) >= r.end {
      InsideButMissed(r);
      var at := Floor(r.end - 1);
      var x := OneHeld(r.f, at);
      OneHeldInv(r.f, at);
      OneHeldInSection(r, at);
      OneHeldNotRefused(r, at);
      assert GoesThrough(x, r, used);
      assert 0 in x.held && 0 in x.vacbs;
      assert !NobodyInside(x, r);
    } else {
      forall x | Inv(x) && InSection(x, r) && GoesThrough(x, r, used) ensures NobodyInside(x, r) {
        SafeEnd(x, r);
      }
    }
  }

  /** The views in use that a purge touches without asking. */
  lemma NotAskedAbout(x: State, r: Range, v: nat)
    requires !Refused(x, r) && v in x.held && v in x.vacbs && Touches(x.vacbs[v], r)
    ensures x.vacbs[v].at < r.start || ViewEnd(x.vacbs[v], r.section) >= r.end
  {
    assert !Selected(x, r, v);
  }

  /** A refusal is always on account of a view in use that starts in the range and ends
      inside it. */
  lemma RefusedForAView(x: State, r: Range)
    requires Inv(x) && InSection(x, r) && Refused(x, r)
    ensures !NobodyInside(x, r) && !NobodyTouches(x, r)
  {
    hide Inv;
    var v :| v in x.held && Selected(x, r, v);
    assert Inside(x.vacbs[v], r) && Touches(x.vacbs[v], r);
  }

  // ----- Purges that fail ----------------------------------------------------------------------------

  ghost predicate SameBytes(m: Mm, t: Mm) {
    forall i: nat :: Content(t, i) == Content(m, i)
  }

  /** What a purge makes of the file. */
  ghost function After(x: State, m: Mm, r: Range, used: nat -> bool): Mm {
    Discarded(m, Gone(x, r, used).start, Gone(x, r, used).end)
  }

  /** State by state: no byte changes if and only if none of those that go differs from the
      disk. */
  lemma KeepsBytesIff(x: State, m: Mm, r: Range, used: nat -> bool)
    requires Coherent(m)
    ensures var g := Gone(x, r, used);
            SameBytes(m, After(x, m, r, used)) <==> forall i :: i in m.dirty && g.start <= i < g.end ==> m.resident[i] == OnDisk(m, i)
  {
    hide Gone, Discarded;
    var g := Gone(x, r, used);
    DiscardedLoses(m, g.start, g.end);
    var t := After(x, m, r, used);
    if !SameBytes(m, t) {
      var i: nat :| Content(t, i) != Content(m, i);
      assert i in m.dirty;
    } else {
      forall i | i in m.dirty && g.start <= i < g.end ensures m.resident[i] == OnDisk(m, i) {
        assert Content(t, i) == Content(m, i);
      }
    }
  }

  /** A purge that fails changes nothing, in every state and whatever the file holds, if and
      only if the first page of the range is in use or none is. */
  lemma FailsUnchangedIff(r: Range, used: nat -> bool)
    requires r.start < r.end
    ensures (forall x, m :: Inv(x) && InSection(x, r) && Coherent(m) && !GoesThrough(x, r, used) ==> SameBytes(m, After(x, m, r, used)))
            <==> used(Page(r.start)) || NoneUsed(used, r.start, r.end)
  {
    hide Inv, Refused, InSection, NoneUsed, Discarded, Coherent, SameBytes;
    var lo, stop := Page(r.start), StopOf(r, used);
    PageAligned(r.start);
    NoneUsedIff(used, r.start, r.end);
    if used(lo) || stop >= r.end {
      forall x, m | Inv(x) && InSection(x, r) && Coherent(m) && !GoesThrough(x, r, used) ensures SameBytes(m, After(x, m, r, used)) {
        DiscardedNone(m, lo);
        Same(m);
      }
    } else {
      var x := NoViews(r.f);
      NoViewsInv(r);
      var m := Mm(map[], map[lo := 5], {lo});
      OneByte(lo, stop);
      assert !GoesThrough(x, r, used);
      assert After(x, m, r, used) == Discarded(m, lo, stop);
    }
  }

  lemma Same(m: Mm)
    ensures SameBytes(m, m)
  {
  }

  lemma OneByte(lo: nat, hi: nat)
    requires lo < hi
    ensures var m := Mm(map[], map[lo := 5], {lo}); Coherent(m) && !SameBytes(m, Discarded(m, lo, hi))
  {
    var m := Mm(map[], map[lo := 5], {lo});
    assert Content(m, lo) != Content(Discarded(m, lo, hi), lo);
  }

  function NoViews(f: nat): State {
    State(map[], map[f := []], [], [], 0, map[f := 0], multiset{})
  }

  lemma NoViewsInv(r: Range)
    ensures Inv(NoViews(r.f)) && InSection(NoViews(r.f), r) && !Refused(NoViews(r.f), r)
  {
    assert DirtyOf(NoViews(r.f).vacbs, r.f) == {};
  }

  predicate InRange(r: Range, i: nat) {
    r.start <= i < r.end
  }

  /** No byte of a page in use goes. */
  lemma UsedStays(x: State, r: Range, used: nat -> bool)
    ensures forall i: nat :: used(Page(i)) ==> !InRange(Gone(x, r, used), i)
  {
    hide IsPage, Page, Refused;
    forall i: nat | InRange(Gone(x, r, used), i) ensures !used(Page(i)) {
      PageAligned(i);
      PageAligned(r.start);
      PageBelow(Page(r.start), i);
    }
  }

  lemma PageBelow(p: nat, i: nat)
    requires IsPage(p) && p <= i
    ensures p <= Page(i)
  {
  }

  /** Only bytes of the range go if and only if it is made of whole pages as far as Mm gets. */
  lemma OnlyTheRangeIff(x: State, r: Range, used: nat -> bool)
    requires r.start < r.end && !Refused(x, r)
    ensures var g := Gone(x, r, used);
            (forall i :: InRange(g, i) ==> InRange(r, i)) <==> g.end == g.start || (r.start % PAGE_SIZE == 0 && g.end <= r.end)
  {
    hide StopOf;
    var g := Gone(x, r, used);
    if g.end > g.start {
      assert InRange(g, g.end - 1) && InRange(g, g.start);
    }
  }

  // ----- What a caller asked for -----------------------------------------------------------------------

  /** The views a purge asks about, by offset and length: those that start at the offset or
      behind it and end before the length does; without a length, or without an offset, those
      that end before the last offset there is. */
  lemma SelectedIff(x: State, f: nat, range: Option<(nat, nat)>, section: nat, v: nat)
    ensures var (start, n) := if range.None? then (0, 0) else range.value;
            Selected(x, PurgeRange(f, range, section), v) <==>
              && v in x.vacbs && x.vacbs[v].file == f && start <= x.vacbs[v].at
              && (n == 0 || start + n <= MAXLONGLONG)
              && var end := if n == 0 then MAXLONGLONG else start + n;
                 x.vacbs[v].at + GRANULARITY < end || section < end
  {
  }

  /** What a purge takes: the views it asks about, up to the first one somebody holds. */
  lemma TakesIff(x: State, r: Range, v: nat)
    requires Inv(x)
    ensures Takes(x, r, v) <==>
              Selected(x, r, v) && forall w :: Selected(x, r, w) && w in x.held ==> x.vacbs[v].at < x.vacbs[w].at
  {
    hide Inv, InUse, InPurge;
    HeldSelected(x, r);
  }

  /** A purge that is not refused takes every view it asks about. */
  lemma TakesAll(x: State, r: Range)
    requires Inv(x) && !Refused(x, r)
    ensures forall v :: Selected(x, r, v) ==> v !in x.held && Takes(x, r, v)
  {
    hide Inv, Selected, InUse;
    HeldSelected(x, r);
  }

  /** The bytes that go, by offset and length: those on pages that the range touches, all
      pages behind the offset if there is no length, as long as no page from the first one up
      to theirs is in use. */
  lemma GoneIff(x: State, f: nat, range: Option<(nat, nat)>, section: nat, used: nat -> bool, i: nat)
    ensures var (start, n) := if range.None? then (0, 0) else range.value;
            InRange(Gone(x, PurgeRange(f, range, section), used), i) <==>
              && !Refused(x, PurgeRange(f, range, section)) && (n == 0 || start + n <= MAXLONGLONG)
              && Page(start) <= i && Page(i) < (if n == 0 then MAXLONGLONG else start + n)
              && forall p: nat :: Page(start) <= p <= i && IsPage(p) ==> !used(p)
  {
    hide Refused, IsPage, Page;
    var r := PurgeRange(f, range, section);
    PageAligned(r.start);
    PageAligned(i);
    var lo, stop := Page(r.start), StopOf(r, used);
    if lo <= i {
      PageBelow(lo, i);
      if i < stop {
        forall p: nat | lo <= p <= i && IsPage(p) ensures !used(p) {
        }
      } else {
        PageBelow(stop, i);
      }
    }
  }

  // ----- Examples ----------------------------------------------------------------------------------------

  /** Two purges of a file of two views whose first view is in use: of one page in the middle
      of the view, and of exactly the view.  Cc refuses neither.  If the holder has touched
      the page, Mm refuses the first and nothing goes; if not, the page goes.  Of the second
      go the pages in front of the first one the holder has touched. */
  lemma HeldViewMissed()
    ensures var x, page, view := OneHeld(7, 0), Range(7, 0x1000, 0x2000, 0x80000), Range(7, 0, 0x40000, 0x80000);
            && Inv(x) && 0 in x.held && InSection(x, page)
            && !Refused(x, page) && !Refused(x, view)
            && !GoesThrough(x, page, p => p == 0x1000) && NobodyTouches(x, Gone(x, page, p => p == 0x1000))
            && GoesThrough(x, page, p => p == 0x3000) && !NobodyTouches(x, Gone(x, page, p => p == 0x3000))
            && !GoesThrough(x, view, p => p == 0x3000) && Gone(x, view, p => p == 0x3000) == Range(7, 0, 0x3000, 0x80000)
  {
    hide Inv;
    OneHeldInv(7, 0);
    var x, page, view := OneHeld(7, 0), Range(7, 0x1000, 0x2000, 0x80000), Range(7, 0, 0x40000, 0x80000);
    StopIs(p => p == 0x1000, 0x1000, 0x2000, 0x1000);
    StopIs(p => p == 0x3000, 0x1000, 0x2000, 0x2000);
    StopIs(p => p == 0x3000, 0, 0x40000, 0x3000);
    assert Touches(x.vacbs[0], Range(7, 0x1000, 0x2000, 0x80000));
  }
}
