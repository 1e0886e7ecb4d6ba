/** Cached reading, writing and flushing of files through 256 KB views. */
module FileCache {
  import opened Lists
  import opened VacbCache
  import opened VacbTable
  import opened FlatFile
  import opened PurgeRanges

  // ----- Cutting a range into pieces ------------------------------------------------------------

  /** A piece lies in one block, and is the whole block or a part of the range. */
  predicate PieceFits(p: Piece, start: nat, end: nat) {
    && p.n > 0 && p.lo + p.n <= Floor(p.lo) + GRANULARITY
    && ((p.lo == Floor(p.lo) && p.n == GRANULARITY) || (start <= p.lo && p.lo + p.n <= end))
  }

  /** The pieces are of different blocks in ascending order, so no two overlap. */
  ghost predicate Tidy(log: seq<Piece>, start: nat, end: nat) {
    && (forall k :: 0 <= k < |log| ==> PieceFits(log[k], start, end))
    && (forall j, k :: 0 <= j < k < |log| ==> Floor(log[j].lo) < Floor(log[k].lo))
  }

  ghost predicate Asked(log: seq<Piece>, i: nat) {
    exists k :: 0 <= k < |log| && log[k].lo <= i < log[k].lo + log[k].n
  }

  /** The byte went to disk with one of the pieces. */
  ghost predicate Sent(log: seq<Piece>, i: nat) {
    exists k :: 0 <= k < |log| && Sends(log[k], i)
  }

  /** The page of the byte was asked for, and Mm could not write it. */
  ghost predicate Failed(log: seq<Piece>, i: nat) {
    exists k :: 0 <= k < |log| && OnPages(log[k].lo, log[k].lo + log[k].n, i) && Page(i) in log[k].bad
  }

  /** A request sends whole pages: a byte goes to disk exactly if its page is one of those
      from the page of the request's start up to its end, and could be written. */
  lemma SendsIff(p: Piece, i: nat)
    ensures Sends(p, i) <==>
              var page := i - i % 0x1000;
              p.lo - p.lo % 0x1000 <= page < p.lo + p.n && page !in p.bad
  {
    var lo, page := p.lo - p.lo % 0x1000, i - i % 0x1000;
    assert lo == 0x1000 * (p.lo / 0x1000) && page == 0x1000 * (i / 0x1000);
  }

  lemma PiecesDisjoint(log: seq<Piece>, start: nat, end: nat, j: nat, k: nat, i: nat)
    requires Tidy(log, start, end) && j < k < |log|
    ensures !(log[j].lo <= i < log[j].lo + log[j].n && log[k].lo <= i < log[k].lo + log[k].n)
  {
    hide Floor;
    FloorAligned(log[j].lo);
    FloorAligned(log[k].lo);
    BlocksApart(Floor(log[j].lo), Floor(log[k].lo));
  }

  lemma BlocksApart(a: nat, b: nat)
    requires a % GRANULARITY == 0 && b % GRANULARITY == 0 && a < b
    ensures a + GRANULARITY <= b
  {
  }

  lemma NextBlock(i: nat)
    ensures Floor(i + GRANULARITY) == Floor(i) + GRANULARITY && Floor(i) + GRANULARITY > i
    ensures Floor(Floor(i)) == Floor(i)
  {
  }

  /** Past the last block of 64-bit offsets the addition fails. */
  lemma LastBlock(i: nat, end: nat)
    requires i + GRANULARITY > MAXLONGLONG && end <= MAXLONGLONG
    ensures end < Floor(i) + GRANULARITY
  {
  }

  lemma {:induction false} FreshExists(s: set<nat>)
    ensures exists n: nat :: n !in s
  {
    var n := Above(s);
    assert n !in s;
  }

  lemma {:induction false} Above(s: set<nat>) returns (n: nat)
    ensures forall x :: x in s ==> x < n
  {
    if s == {} {
      n := 0;
    } else {
      var x :| x in s;
      var m := Above(s - {x});
      n := if m > x then m else x + 1;
      forall y | y in s ensures y < n {
        if y != x {
          assert y in s - {x};
        }
      }
    }
  }

  // ----- Views that are dirty --------------------------------------------------------------------

  /** Some dirty view covers the byte. */
  ghost predicate DirtyAt(vacbs: map<nat, Vacb>, f: nat, i: nat) {
    exists v :: v in vacbs && vacbs[v].dirty && vacbs[v].file == f && Covers(vacbs[v], i)
  }

  /** Every view that was dirty still is, at the same place. */
  ghost predicate DirtyStays(x: map<nat, Vacb>, y: map<nat, Vacb>) {
    forall v :: v in x && x[v].dirty ==> v in y && y[v].dirty && y[v].file == x[v].file && y[v].at == x[v].at
  }

  /** No view became dirty. */
  ghost predicate NoneDirtied(x: map<nat, Vacb>, y: map<nat, Vacb>) {
    forall v :: v in y && y[v].dirty ==> v in x && x[v].dirty && y[v].file == x[v].file && y[v].at == x[v].at
  }

  lemma GotDirty(x: State, y: State, v: nat, f: nat, off: nat)
    requires Inv(x) && GotView(x, y, v, f, off)
    ensures DirtyStays(x.vacbs, y.vacbs) && NoneDirtied(x.vacbs, y.vacbs)
  {
    hide Placed, Ordered, LruFits, DirtyFits, Totals, Floor;
  }

  lemma UnusedDirty(x: State, y: State)
    requires Inv(x) && OnlyUnusedGone(x, y)
    ensures DirtyStays(x.vacbs, y.vacbs) && NoneDirtied(x.vacbs, y.vacbs)
  {
    hide Placed, Ordered, LruFits, DirtyFits, Totals;
  }

  lemma StaysAt(x: map<nat, Vacb>, y: map<nat, Vacb>, f: nat, i: nat)
    requires DirtyStays(x, y) && DirtyAt(x, f, i)
    ensures DirtyAt(y, f, i)
  {
  }

  /** Marking and releasing `v` makes it dirty and leaves the other views alone. */
  lemma MarkedDirty(x: map<nat, Vacb>, y: map<nat, Vacb>, v: nat, f: nat, lo: nat, n: nat)
    requires x.Keys == y.Keys && v in y && y[v].dirty && y[v].file == x[v].file == f && y[v].at == x[v].at
    requires forall w :: w in y && w != v ==> y[w] == x[w]
    requires y[v].at <= lo && lo + n <= y[v].at + GRANULARITY
    ensures DirtyStays(x, y) && forall i: nat :: lo <= i < lo + n ==> DirtyAt(y, f, i)
  {
  }

  lemma StaysStay(x: map<nat, Vacb>, y: map<nat, Vacb>, z: map<nat, Vacb>)
    requires DirtyStays(x, y) && DirtyStays(y, z)
    ensures DirtyStays(x, z)
  {
  }

  // ----- What a reader sees ------------------------------------------------------------------------

  /** No byte of any file looks different. */
  ghost predicate SameContent(x: map<nat, Mm>, y: map<nat, Mm>) {
    x.Keys == y.Keys && forall g, i: nat :: g in x ==> Content(y[g], i) == Content(x[g], i)
  }

  /** No byte on disk changed. */
  ghost predicate SameDisk(x: map<nat, Mm>, y: map<nat, Mm>) {
    x.Keys == y.Keys && forall g, i: nat :: g in x ==> OnDisk(y[g], i) == OnDisk(x[g], i)
  }

  /** No byte became dirty. */
  ghost predicate NoMoreDirty(x: map<nat, Mm>, y: map<nat, Mm>) {
    x.Keys == y.Keys && forall g :: g in x ==> y[g].dirty <= x[g].dirty
  }

  /** From `x` to `y` the bytes of `data` were written to `f` at `lo`, and nothing else. */
  ghost predicate Wrote(x: map<nat, Mm>, y: map<nat, Mm>, f: nat, lo: nat, data: seq<Byte>) {
    && x.Keys == y.Keys
    && forall g, i: nat :: g in x ==>
         Content(y[g], i) == if g == f && lo <= i < lo + |data| then data[i - lo] else Content(x[g], i)
  }

  /** The byte on disk once the pieces were flushed. */
  ghost function DiskAfter(m: Mm, log: seq<Piece>, i: nat): Byte {
    if Sent(log, i) then Content(m, i) else OnDisk(m, i)
  }

  /** The pages of the pieces of `f` that could be written went to disk as readers saw them. */
  ghost predicate DiskGets(x: map<nat, Mm>, y: map<nat, Mm>, f: nat, log: seq<Piece>) {
    && x.Keys == y.Keys
    && (forall g, i: nat :: g in x && g != f ==> OnDisk(y[g], i) == OnDisk(x[g], i))
    && (f in x ==> forall i: nat :: OnDisk(y[f], i) == DiskAfter(x[f], log, i))
  }

  lemma WroteMore(x: map<nat, Mm>, y: map<nat, Mm>, z: map<nat, Mm>, f: nat, lo: nat, a: seq<Byte>, b: seq<Byte>)
    requires Wrote(x, y, f, lo, a) && Wrote(y, z, f, lo + |a|, b)
    ensures Wrote(x, z, f, lo, a + b)
  {
    hide Content;
  }

  lemma DiskTwice(x: map<nat, Mm>, y: map<nat, Mm>, z: map<nat, Mm>)
    requires SameDisk(x, y) && SameDisk(y, z)
    ensures SameDisk(x, z)
  {
    hide OnDisk;
  }

  lemma DiskMore(x: map<nat, Mm>, y: map<nat, Mm>, f: nat, log: seq<Piece>, p: Piece)
    requires f in y && Coherent(y[f]) && SameContent(x, y) && DiskGets(x, y, f, log)
    ensures DiskGets(x, y[f := Flushed(y[f], p)], f, log + [p])
  {
    hide Content, OnDisk, Flushed, Coherent, Sent, Sends;
    FlushedKeeps(y[f], p);
    var z := y[f := Flushed(y[f], p)];
    forall i: nat ensures OnDisk(z[f], i) == DiskAfter(x[f], log + [p], i) {
      SentMore(log, p, i);
      assert Content(y[f], i) == Content(x[f], i) && OnDisk(y[f], i) == DiskAfter(x[f], log, i);
    }
  }

  lemma SentMore(log: seq<Piece>, p: Piece, i: nat)
    ensures Sent(log + [p], i) <==> Sent(log, i) || Sends(p, i)
  {
    hide Sends;
    var all := log + [p];
    if Sent(log, i) {
      var k :| 0 <= k < |log| && Sends(log[k], i);
      assert Sends(all[k], i);
    } else if Sends(p, i) {
      assert Sends(all[|log|], i);
    }
  }

  lemma FailedMore(log: seq<Piece>, p: Piece, i: nat)
    requires Failed(log, i) || (OnPages(p.lo, p.lo + p.n, i) && Page(i) in p.bad)
    ensures Failed(log + [p], i)
  {
    hide OnPages, Page;
    var all := log + [p];
    if Failed(log, i) {
      var k :| 0 <= k < |log| && OnPages(log[k].lo, log[k].lo + log[k].n, i) && Page(i) in log[k].bad;
      assert all[k] == log[k];
    } else {
      assert all[|log|] == p;
    }
  }

  lemma NoneFailed(log: seq<Piece>, flushes: nat -> Answer)
    requires Answers(log, flushes) && AllWritten(flushes)
    ensures forall i: nat :: !Failed(log, i)
  {
  }

  lemma TidyNothing(start: nat, end: nat)
    ensures Tidy([], start, end)
  {
  }

  /** What is asked for lies on its own pages. */
  lemma OnOwnPages(lo: nat, hi: nat, i: nat)
    requires lo <= i < hi
    ensures OnPages(lo, hi, i)
  {
  }

  // ----- Dirty bytes and dirty views ----------------------------------------------------------------------

  /** Every byte Mm still has to write lies under a dirty view, where the lazy writer finds it. */
  ghost predicate Tracked(files: map<nat, Mm>, vacbs: map<nat, Vacb>) {
    forall f, i :: f in files && i in files[f].dirty ==> DirtyAt(vacbs, f, i)
  }

  /** Nothing is dirty beyond the end of the section. */
  ghost predicate Bounded(files: map<nat, Mm>, sections: map<nat, nat>) {
    forall f :: f in files ==> f in sections && forall i :: i in files[f].dirty ==> i < sections[f]
  }

  lemma TrackedStays(x: map<nat, Mm>, y: map<nat, Mm>, v: map<nat, Vacb>, w: map<nat, Vacb>)
    requires Tracked(x, v) && NoMoreDirty(x, y) && DirtyStays(v, w)
    ensures Tracked(y, w)
  {
    hide DirtyAt, DirtyStays;
    forall f, i | f in y && i in y[f].dirty ensures DirtyAt(w, f, i) {
      assert i in x[f].dirty;
      StaysAt(v, w, f, i);
    }
  }

  lemma BoundedStays(x: map<nat, Mm>, y: map<nat, Mm>, sections: map<nat, nat>)
    requires Bounded(x, sections) && NoMoreDirty(x, y)
    ensures Bounded(y, sections)
  {
  }

  /** From `x` to `y` the `n` bytes from `lo` on in `f` became dirty. */
  ghost predicate DirtyAdds(x: map<nat, Mm>, y: map<nat, Mm>, f: nat, lo: nat, n: nat) {
    && x.Keys == y.Keys
    && forall g, i: nat :: g in x && i in y[g].dirty ==> i in x[g].dirty || (g == f && lo <= i < lo + n)
  }

  lemma TrackedAdds(x: map<nat, Mm>, y: map<nat, Mm>, v: map<nat, Vacb>, w: map<nat, Vacb>, f: nat, lo: nat, n: nat)
    requires Tracked(x, v) && DirtyAdds(x, y, f, lo, n) && DirtyStays(v, w)
    requires forall i: nat :: lo <= i < lo + n ==> DirtyAt(w, f, i)
    ensures Tracked(y, w)
  {
    hide DirtyAt, DirtyStays;
    forall g, i | g in y && i in y[g].dirty ensures DirtyAt(w, g, i) {
      if i in x[g].dirty {
        StaysAt(v, w, g, i);
      }
    }
  }

  /** A page of the block could not be written and has a byte to write. */
  ghost predicate Spoils(m: Mm, p: Piece) {
    exists i :: i in m.dirty && p.lo <= i < p.lo + p.n && Page(i) in p.bad
  }

  /** A block is pages from end to end. */
  lemma BlockPages(at: nat, i: nat)
    requires at % GRANULARITY == 0
    ensures OnPages(at, at + GRANULARITY, i) <==> at <= i < at + GRANULARITY
  {
    hide Page, IsPage;
    BlockIsPage(at);
    BlockIsPage(at + GRANULARITY);
    PageSame(at);
    PageBelowIff(at + GRANULARITY, i);
  }

  lemma BlockIsPage(at: nat)
    requires at % GRANULARITY == 0
    ensures IsPage(at)
  {
  }

  lemma PageSame(p: nat)
    requires IsPage(p)
    ensures Page(p) == p
  {
  }

  lemma PageBelowIff(p: nat, i: nat)
    requires IsPage(p)
    ensures Page(i) < p <==> i < p
  {
  }

  lemma BlockSends(at: nat, bad: set<nat>, i: nat)
    requires at % GRANULARITY == 0
    ensures Sends(Piece(at, GRANULARITY, bad), i) <==> at <= i < at + GRANULARITY && Page(i) !in bad
  {
    hide OnPages, Page;
    BlockPages(at, i);
  }

  /** A view is flushed whole and unmarked: what stays dirty lies under other views exactly
      if every page of it could be written. */
  lemma TrackedFlush(x: State, files: map<nat, Mm>, after: map<nat, Vacb>, k: nat, bad: set<nat>)
    requires Inv(x) && Tracked(files, x.vacbs) && k in x.vacbs && x.vacbs[k].file in files && Coherent(files[x.vacbs[k].file])
    requires x.vacbs[k].at % GRANULARITY == 0
    requires after.Keys == x.vacbs.Keys && !after[k].dirty && forall j :: j in after && j != k ==> after[j] == x.vacbs[j]
    ensures var f, p := x.vacbs[k].file, Piece(x.vacbs[k].at, GRANULARITY, bad);
            Tracked(files[f := Flushed(files[f], p)], after) <==> !Spoils(files[f], p)
  {
    hide Inv, Coherent, Flushed, Content, OnDisk, Page, Sends;
    var f, p := x.vacbs[k].file, Piece(x.vacbs[k].at, GRANULARITY, bad);
    FlushedKeeps(files[f], p);
    var y := files[f := Flushed(files[f], p)];
    if Spoils(files[f], p) {
      var i :| i in files[f].dirty && p.lo <= i < p.lo + p.n && Page(i) in p.bad;
      BlockSends(p.lo, bad, i);
      NobodyElse(x, after, k, i);
      assert i in y[f].dirty;
    } else {
      forall g, i | g in y && i in y[g].dirty ensures DirtyAt(after, g, i) {
        assert i in files[g].dirty;
        BlockSends(p.lo, bad, i);
        var j :| j in x.vacbs && x.vacbs[j].dirty && x.vacbs[j].file == g && Covers(x.vacbs[j], i);
        assert j != k;
      }
    }
  }

  lemma ViewAligned(x: State, v: nat)
    requires Inv(x) && v in x.vacbs
    ensures x.vacbs[v].at % GRANULARITY == 0
  {
    hide Placed, LruFits, DirtyFits, Totals, Counted, Ascending;
  }

  lemma NobodyElse(x: State, after: map<nat, Vacb>, k: nat, i: nat)
    requires Inv(x) && k in x.vacbs && Covers(x.vacbs[k], i)
    requires after.Keys == x.vacbs.Keys && !after[k].dirty && forall j :: j in after && j != k ==> after[j] == x.vacbs[j]
    ensures !DirtyAt(after, x.vacbs[k].file, i)
  {
    hide Inv;
    forall w | w in after && x.vacbs[w].file == x.vacbs[k].file && Covers(x.vacbs[w], i) ensures w == k {
      OneView(x, k, w, i);
    }
  }

  lemma FlushedLess(x: map<nat, Mm>, f: nat, p: Piece)
    requires f in x && Coherent(x[f])
    ensures NoMoreDirty(x, x[f := Flushed(x[f], p)])
  {
    hide Coherent, Flushed, Content, OnDisk, Sends;
    FlushedKeeps(x[f], p);
  }

  // ----- What a flush has reached ----------------------------------------------------------------------

  /** What is still dirty is so because Mm could not write its page. */
  ghost predicate Clean(m: Mm, lo: nat, hi: nat, log: seq<Piece>) {
    forall i: nat :: lo <= i < hi && i in m.dirty ==> Failed(log, i)
  }

  ghost predicate NoDirtyView(vacbs: map<nat, Vacb>, f: nat, lo: nat, hi: nat) {
    forall i: nat :: lo <= i < hi ==> !DirtyAt(vacbs, f, i)
  }

  /** `p` reaches from `current` to the end of its block or of the range. */
  predicate Reaches(p: Piece, current: nat, end: nat) {
    && Floor(p.lo) == Floor(current) && p.lo <= current
    && (end <= p.lo + p.n || Floor(current) + GRANULARITY <= p.lo + p.n)
  }

  /** The loop has come from `start` to `current`: all before it was asked for, once. */
  ghost predicate LoggedTo(log: seq<Piece>, start: nat, current: nat, end: nat) {
    && Tidy(log, start, end) && start <= current && (current == start ==> log == [])
    && (current == start || current == Floor(current))
    && (forall k :: 0 <= k < |log| ==> Floor(log[k].lo) < Floor(current))
    && (forall i: nat :: start <= i < current && i < end ==> Asked(log, i))
  }

  lemma TidyMore(log: seq<Piece>, p: Piece, start: nat, end: nat)
    requires Tidy(log, start, end) && PieceFits(p, start, end)
    requires forall k :: 0 <= k < |log| ==> Floor(log[k].lo) < Floor(p.lo)
    ensures Tidy(log + [p], start, end)
  {
    hide PieceFits, Floor;
  }

  lemma AskedMore(log: seq<Piece>, p: Piece, i: nat)
    requires Asked(log, i) || p.lo <= i < p.lo + p.n
    ensures Asked(log + [p], i)
  {
    if Asked(log, i) {
      var k :| 0 <= k < |log| && log[k].lo <= i < log[k].lo + log[k].n;
      assert (log + [p])[k] == log[k];
    } else {
      assert (log + [p])[|log|] == p;
    }
  }

  lemma LoggedStep(log: seq<Piece>, p: Piece, start: nat, current: nat, end: nat)
    requires LoggedTo(log, start, current, end) && current < end && PieceFits(p, start, end) && Reaches(p, current, end)
    ensures LoggedTo(log + [p], start, Floor(current) + GRANULARITY, end)
  {
    hide Tidy, PieceFits, Asked, Floor;
    NextBlock(current);
    FloorOf(current);
    TidyMore(log, p, start, end);
    forall i: nat | start <= i < Floor(current) + GRANULARITY && i < end ensures Asked(log + [p], i) {
      AskedMore(log, p, i);
    }
  }

  lemma FloorOf(i: nat)
    ensures Floor(Floor(i) + GRANULARITY) == Floor(i) + GRANULARITY
  {
  }

  lemma CleanMore(m: Mm, log: seq<Piece>, p: Piece, lo: nat, current: nat, end: nat)
    requires Coherent(m) && Clean(m, lo, if current < end then current else end, log) && Reaches(p, current, end)
    ensures var next := Floor(current) + GRANULARITY;
            Clean(Flushed(m, p), lo, if next < end then next else end, log + [p])
  {
    hide Coherent, Flushed, Floor, Failed, OnPages, Page, Content, OnDisk;
    FlushedKeeps(m, p);
    var next := Floor(current) + GRANULARITY;
    forall i: nat | lo <= i < (if next < end then next else end) && i in Flushed(m, p).dirty ensures Failed(log + [p], i) {
      if i >= current {
        OnOwnPages(p.lo, p.lo + p.n, i);
      }
      FailedMore(log, p, i);
    }
  }

  /** A clean file range is on disk. */
  lemma CleanOnDisk(m: Mm, i: nat)
    requires Coherent(m) && i !in m.dirty
    ensures OnDisk(m, i) == Content(m, i)
  {
  }

  lemma FlushedSame(x: map<nat, Mm>, f: nat, p: Piece)
    requires f in x && Coherent(x[f])
    ensures SameContent(x, x[f := Flushed(x[f], p)]) && Coherent(Flushed(x[f], p))
  {
    hide Content, Flushed, Coherent, Sends;
    FlushedKeeps(x[f], p);
  }

  lemma SameStill(x: map<nat, Mm>, y: map<nat, Mm>, z: map<nat, Mm>)
    requires SameContent(x, y) && SameContent(y, z)
    ensures SameContent(x, z)
  {
    hide Content;
  }

  lemma StillClean(x: map<nat, Vacb>, y: map<nat, Vacb>, f: nat, lo: nat, mid: nat, hi: nat)
    requires NoneDirtied(x, y) && NoDirtyView(x, f, lo, mid) && NoDirtyView(y, f, mid, hi)
    ensures NoDirtyView(y, f, lo, hi)
  {
    forall i: nat | lo <= i < mid ensures !DirtyAt(y, f, i) {
      if DirtyAt(y, f, i) {
        assert DirtyAt(x, f, i);
      }
    }
  }

  /** If the view of a block is clean, so is every byte's. */
  lemma BlockClean(s: State, f: nat, current: nat, lo: nat, hi: nat)
    requires Ordered(s.vacbs, s.lists) && Floor(current) <= lo && hi <= Floor(current) + GRANULARITY
    requires forall v :: v in s.vacbs && s.vacbs[v].file == f && Covers(s.vacbs[v], current) ==> !s.vacbs[v].dirty
    ensures NoDirtyView(s.vacbs, f, lo, hi)
  {
    hide Floor, Ascending;
    forall i: nat | lo <= i < hi ensures !DirtyAt(s.vacbs, f, i) {
      forall v | v in s.vacbs && s.vacbs[v].file == f && Covers(s.vacbs[v], i) ensures Covers(s.vacbs[v], current) {
        SameBlock(s.vacbs[v], current, i);
      }
    }
  }

  lemma SameBlock(b: Vacb, current: nat, i: nat)
    requires b.at % GRANULARITY == 0 && Floor(current) <= i < Floor(current) + GRANULARITY && Covers(b, i)
    ensures Covers(b, current)
  {
  }

  /** Bytes of the range read as on disk, all others as before. */
  ghost predicate Discards(x: map<nat, Mm>, y: map<nat, Mm>, r: Range) {
    && x.Keys == y.Keys
    && forall g, i: nat :: g in x ==>
         Content(y[g], i) == if g == r.f && r.start <= i < r.end then OnDisk(x[g], i) else Content(x[g], i)
  }

  /** Whether a flush gets as far as Mm, and the pages Mm then fails to write: it reports
      success all the same. */
  datatype Answer = Answer(granted: bool, bad: set<nat>)

  /** Every request is granted. */
  ghost predicate AllGranted(flushes: nat -> Answer) {
    forall k :: flushes(k).granted
  }

  /** Every page can be written. */
  ghost predicate AllWritten(flushes: nat -> Answer) {
    forall k :: flushes(k).bad == {}
  }

  /** The pieces are the answers' in turn. */
  ghost predicate Answers(log: seq<Piece>, flushes: nat -> Answer) {
    forall k :: 0 <= k < |log| ==> log[k].bad == flushes(k).bad
  }

  /** Whether there is memory for a VACB, and which attempts to map it succeed. */
  datatype Luck = Luck(memory: bool, maps: nat -> bool)

  class CachedFiles {
    const cache: Cache
    /** SectionSize of each file. */
    const sections: map<nat, nat>
    var files: map<nat, Mm>

    ghost predicate Valid()
      reads this, cache
    {
      && cache.Valid() && files.Keys == cache.lists.Keys == sections.Keys && Bounded(files, sections)
      && forall f :: f in files ==> Coherent(files[f])
    }

    ghost predicate Tracks()
      reads this, cache
    {
      Tracked(files, cache.vacbs)
    }

    /** Files as Mm has them before anything is cached. */
    constructor (files: map<nat, Mm>, sections: map<nat, nat>)
      requires files.Keys == sections.Keys && Bounded(files, sections) && forall f :: f in files ==> Coherent(files[f])
      ensures Valid() && this.files == files && this.sections == sections && fresh(cache)
      ensures (forall f :: f in files ==> files[f].dirty == {}) ==> Tracks()
    {
      cache := new Cache(files.Keys);
      this.files, this.sections := files, sections;
    }

    /** CcRosGetVacb with whatever memory the pool has. */
    method GetView(f: nat, off: nat, luck: Luck) returns (r: Option<nat>)
      requires Valid() && f in files
      modifies cache
      ensures Valid() && files == old(files) && cache.lists.Keys == old(cache.lists.Keys)
      ensures DirtyStays(old(cache.vacbs), cache.vacbs) && NoneDirtied(old(cache.vacbs), cache.vacbs)
      ensures r.None? ==> cache.held == old(cache.held) && !(luck.memory && luck.maps(0))
      ensures r.Some? ==> cache.held == old(cache.held) + multiset{r.value}
      ensures r.Some? ==> r.value in cache.vacbs && cache.vacbs[r.value].file == f && cache.vacbs[r.value].at == Floor(off)
    {
      hide Inv, Coherent, Floor, Mapped;
      FreshExists(cache.vacbs.Keys);
      var n: nat :| n !in cache.vacbs.Keys;
      ghost var x := cache.View();
      r := cache.Get(f, off, if luck.memory then Some(n) else None, luck.maps);
      if r.Some? {
        GotDirty(x, cache.View(), r.value, f, off);
      } else {
        UnusedDirty(x, cache.View());
      }
    }

    /** CcRosEnsureVacbResident with Wait, then a copy out of the view. */
    method ReadView(v: nat, at: nat, n: nat) returns (data: seq<Byte>)
      requires Valid() && v in cache.vacbs && cache.vacbs[v].file in files && at + n <= GRANULARITY
      modifies `files
      ensures Valid() && SameContent(old(files), files) && SameDisk(old(files), files) && NoMoreDirty(old(files), files)
      ensures |data| == n && forall i :: 0 <= i < n ==>
                data[i] == Content(old(files)[cache.vacbs[v].file], cache.vacbs[v].at + at + i)
    {
      hide Inv, Coherent, Bounded, OnDisk, Loaded;
      var f, lo := cache.vacbs[v].file, cache.vacbs[v].at + at;
      LoadedKeeps(files[f], lo, n);
      files := files[f := Loaded(files[f], lo, n)];
      BoundedStays(old(files), files, sections);
      var m := files[f];
      data := seq(n, i requires 0 <= i => Content(m, lo + i));
    }

    /** The same, then a copy into the view and MmMakeSegmentDirty. */
    method WriteView(v: nat, at: nat, data: seq<Byte>)
      requires Valid() && v in cache.vacbs && cache.vacbs[v].file in files && at + |data| <= GRANULARITY
      requires cache.vacbs[v].file in sections && cache.vacbs[v].at + at + |data| <= sections[cache.vacbs[v].file]
      modifies `files
      ensures Valid() && Wrote(old(files), files, cache.vacbs[v].file, cache.vacbs[v].at + at, data)
      ensures SameDisk(old(files), files)
      ensures DirtyAdds(old(files), files, cache.vacbs[v].file, cache.vacbs[v].at + at, |data|)
    {
      hide Inv, Coherent, Content, OnDisk, Loaded, Stored;
      var f, lo := cache.vacbs[v].file, cache.vacbs[v].at + at;
      LoadedKeeps(files[f], lo, |data|);
      StoredWrites(Loaded(files[f], lo, |data|), lo, data);
      files := files[f := Stored(Loaded(files[f], lo, |data|), lo, data)];
    }

    /** CcCopyRead with Wait.  `luck` decides each view's allocation; the read raises an
        exception where one fails. */
    method CopyRead(f: nat, off: nat, length: nat, luck: nat -> Luck) returns (ok: bool, buffer: seq<Byte>)
      requires Valid() && f in files
      modifies this, cache
      ensures Valid() && cache.held == old(cache.held) && (old(Tracks()) ==> Tracks())
      ensures SameContent(old(files), files) && SameDisk(old(files), files)
      ensures |buffer| <= length && (ok <==> |buffer| == length)
      ensures forall i :: 0 <= i < |buffer| ==> buffer[i] == Content(old(files)[f], off + i)
      ensures (forall k :: luck(k).memory && luck(k).maps(0)) ==> ok
    {
      hide Inv, Coherent, Content, SameDisk, Tracked, Bounded;
      buffer := [];
      SameItself(files);
      var left, k := length, 0;
      while left > 0
        invariant Valid() && cache.held == old(cache.held) && (old(Tracks()) ==> Tracks())
        invariant SameContent(old(files), files) && SameDisk(old(files), files)
        invariant left >= 0 && left + |buffer| == length
        invariant forall i :: 0 <= i < |buffer| ==> buffer[i] == Content(old(files)[f], off + i)
      {
        ghost var x := files;
        var data := ReadOne(f, off + |buffer|, left, luck(k));
        DiskTwice(old(files), x, files);
        if data == [] {
          return false, buffer;
        }
        buffer := buffer + data;
        left, k := left - |data|, k + 1;
      }
      ok := true;
    }

    /** One turn of the loop: up to the end of the view, nothing if there is no view to be had. */
    method ReadOne(f: nat, current: nat, left: nat, luck: Luck) returns (data: seq<Byte>)
      requires Valid() && f in files && left > 0
      modifies this, cache
      ensures Valid() && cache.held == old(cache.held) && (old(Tracks()) ==> Tracks())
      ensures SameContent(old(files), files) && SameDisk(old(files), files)
      ensures |data| <= left && (data == [] ==> !(luck.memory && luck.maps(0)))
      ensures forall i :: 0 <= i < |data| ==> data[i] == Content(old(files)[f], current + i)
    {
      hide Inv, Coherent, Content, Floor, NoneDirtied, DirtyStays, SameContent, SameDisk, NoMoreDirty, Tracked, Bounded;
      FloorOffset(current);
      SameItself(files);
      var r := GetView(f, current, luck);
      if r.None? {
        KeepTracking(old(files), files, old(cache.vacbs), cache.vacbs);
        return [];
      }
      var at := current % GRANULARITY;
      var n := if left < GRANULARITY - at then left else GRANULARITY - at;
      data := ReadView(r.value, at, n);
      ghost var views := cache.vacbs;
      cache.Release(r.value, false);
      OneChanged(views, cache.vacbs, r.value);
      StaysStay(old(cache.vacbs), views, cache.vacbs);
      KeepTracking(old(files), files, old(cache.vacbs), cache.vacbs);
    }

    /** The loop of CcCopyWrite with Wait: `written` bytes go in before an exception. */
    method WriteViews(f: nat, off: nat, data: seq<Byte>, luck: nat -> Luck) returns (written: nat)
      requires Valid() && f in files && off + |data| <= sections[f]
      modifies this, cache
      ensures Valid() && cache.held == old(cache.held) && written <= |data| && (old(Tracks()) ==> Tracks())
      ensures Wrote(old(files), files, f, off, data[..written]) && SameDisk(old(files), files)
      ensures forall i: nat :: off <= i < off + written ==> DirtyAt(cache.vacbs, f, i)
      ensures (forall k :: luck(k).memory && luck(k).maps(0)) ==> written == |data|
    {
      hide Inv, Coherent, Content, DirtyStays, DirtyAt, Wrote, SameDisk, Tracked, Bounded;
      written := 0;
      WroteNothing(files, f, off);
      SameItself(files);
      var k := 0;
      while written < |data|
        invariant Valid() && cache.held == old(cache.held) && files.Keys == old(files.Keys) && written <= |data|
        invariant Wrote(old(files), files, f, off, data[..written]) && SameDisk(old(files), files)
        invariant (old(Tracks()) ==> Tracks()) && forall i: nat :: off <= i < off + written ==> DirtyAt(cache.vacbs, f, i)
      {
        ghost var was, views := files, cache.vacbs;
        var n := WriteOne(f, off + written, data[written..], luck(k));
        WroteMore(old(files), was, files, f, off, data[..written], data[written..][..n]);
        assert data[..written] + data[written..][..n] == data[..written + n];
        DiskTwice(old(files), was, files);
        AllStay(views, cache.vacbs, f);
        if n == 0 {
          return;
        }
        written, k := written + n, k + 1;
      }
    }

    /** One turn of the loop: `n` is nil if there is no view to be had. */
    method WriteOne(f: nat, current: nat, rest: seq<Byte>, luck: Luck) returns (n: nat)
      requires Valid() && f in files && rest != [] && current + |rest| <= sections[f]
      modifies this, cache
      ensures Valid() && files.Keys == old(files.Keys) && cache.held == old(cache.held) && n <= |rest|
      ensures n == 0 ==> !(luck.memory && luck.maps(0))
      ensures Wrote(old(files), files, f, current, rest[..n]) && SameDisk(old(files), files)
      ensures DirtyStays(old(cache.vacbs), cache.vacbs) && (old(Tracks()) ==> Tracks())
      ensures forall i: nat :: current <= i < current + n ==> DirtyAt(cache.vacbs, f, i)
    {
      hide Inv, Coherent, Content, Floor, NoneDirtied, DirtyStays, DirtyAt, Wrote, SameDisk, NoMoreDirty, DirtyAdds, Tracked, Bounded;
      FloorOffset(current);
      SameItself(files);
      var r := GetView(f, current, luck);
      if r.None? {
        WroteNothing(files, f, current);
        KeepTracking(old(files), files, old(cache.vacbs), cache.vacbs);
        return 0;
      }
      var at := current % GRANULARITY;
      n := if |rest| < GRANULARITY - at then |rest| else GRANULARITY - at;
      WroteKeys(f, current, rest[..n]);
      WriteView(r.value, at, rest[..n]);
      ghost var views := cache.vacbs;
      cache.Release(r.value, true);
      MarkedDirty(views, cache.vacbs, r.value, f, current, n);
      StaysStay(old(cache.vacbs), views, cache.vacbs);
      if old(Tracks()) {
        TrackedAdds(old(files), files, old(cache.vacbs), cache.vacbs, f, current, n);
      }
    }

    /** CcRosFlushVacb.  Dirty bytes stay under dirty views exactly if every page of the view
        could be written: the view counts as clean even if not. */
    method FlushView(v: nat, answer: Answer)
      requires Valid() && v in cache.vacbs && cache.vacbs[v].dirty && cache.vacbs[v].file in files
      modifies this, cache
      ensures Valid() && cache.held == old(cache.held) && cache.vacbs.Keys == old(cache.vacbs.Keys)
      ensures var b := old(cache.vacbs[v]);
              var p := Piece(b.at, GRANULARITY, answer.bad);
              && cache.vacbs[v].file == b.file && cache.vacbs[v].at == b.at && cache.vacbs[v].dirty == !answer.granted
              && files == (if answer.granted then old(files)[b.file := Flushed(old(files)[b.file], p)] else old(files))
              && (old(Tracks()) ==> (Tracks() <==> !answer.granted || !Spoils(old(files)[b.file], p)))
      ensures forall w :: w in cache.vacbs && w != v ==> cache.vacbs[w] == old(cache.vacbs[w])
    {
      hide Inv, Coherent, Flushed, Tracked, Bounded, NoMoreDirty, DirtyStays, Spoils;
      var f, at := cache.vacbs[v].file, cache.vacbs[v].at;
      ghost var x := cache.View();
      cache.UnmarkDirty(v);
      if answer.granted {
        var p := Piece(at, GRANULARITY, answer.bad);
        FlushedSame(files, f, p);
        FlushedLess(files, f, p);
        files := files[f := Flushed(files[f], p)];
        BoundedStays(old(files), files, sections);
        if old(Tracks()) {
          ViewAligned(x, v);
          TrackedFlush(x, old(files), cache.vacbs, v, answer.bad);
        }
      } else {
        cache.MarkDirty(v);
        SameItself(files);
        OneChanged(old(cache.vacbs), cache.vacbs, v);
        KeepTracking(old(files), files, old(cache.vacbs), cache.vacbs);
      }
    }

    /** The part of a turn of CcFlushCache that deals with the view: `did` if it was dirty. */
    method FlushIfDirty(f: nat, current: nat, answer: Answer) returns (did: bool)
      requires Valid() && f in files
      modifies this, cache
      ensures Valid() && cache.held == old(cache.held) && NoneDirtied(old(cache.vacbs), cache.vacbs)
      ensures old(Tracks()) && answer.bad == {} ==> Tracks()
      ensures files == if did && answer.granted then old(files)[f := Flushed(old(files)[f], Piece(Floor(current), GRANULARITY, answer.bad))]
                       else old(files)
      ensures !did || answer.granted ==> NoDirtyView(cache.vacbs, f, Floor(current), Floor(current) + GRANULARITY)
      ensures did <==> old(DirtyAt(cache.vacbs, f, current))
    {
      hide Inv, Coherent, Flushed, Floor, NoDirtyView, Mapped, Tracked, Bounded, NoMoreDirty, DirtyStays, NoneDirtied, DirtyAt;
      did := false;
      ghost var s := cache.View();
      var r := cache.Lookup(f, current);
      FoundDirty(s, f, current, r);
      if r.None? {
        NoneItself(cache.vacbs);
        NoViewClean(s, f, current);
        return;
      }
      SameItself(files);
      OneChanged(s.vacbs, cache.vacbs, r.value);
      KeepTracking(files, files, s.vacbs, cache.vacbs);
      if cache.vacbs[r.value].dirty {
        did := true;
        FlushView(r.value, answer);
      }
      FlushedRelease(f, current, r.value, did, answer.granted, s.vacbs);
    }

    /** The release at the end of it. */
    method FlushedRelease(f: nat, current: nat, v: nat, did: bool, granted: bool, ghost was: map<nat, Vacb>)
      requires Valid() && v in cache.held && v in cache.vacbs && v in was && was.Keys == cache.vacbs.Keys
      requires cache.vacbs[v].file == was[v].file == f && cache.vacbs[v].at == was[v].at == Floor(current)
      requires cache.vacbs[v].dirty ==> did && !granted
      requires cache.vacbs[v].dirty ==> was[v].dirty
      requires forall w :: w in was && w != v ==> cache.vacbs[w] == was[w]
      modifies cache
      ensures Valid() && files == old(files) && cache.held == old(cache.held) - multiset{v}
      ensures NoneDirtied(was, cache.vacbs) && (old(Tracks()) ==> Tracks())
      ensures !did || granted ==> NoDirtyView(cache.vacbs, f, Floor(current), Floor(current) + GRANULARITY)
    {
      hide Inv, Coherent, Floor, NoDirtyView, Tracked, Bounded, NoMoreDirty, DirtyStays, NoneDirtied;
      ghost var views := cache.vacbs;
      cache.Release(v, false);
      SameItself(files);
      OneChanged(views, cache.vacbs, v);
      OneNoneDirtied(was, cache.vacbs, v);
      KeepTracking(files, files, views, cache.vacbs);
      if !did || granted {
        OneViewOnly(cache.View(), f, current, v);
        ViewClean(cache.View(), f, current, v);
      }
    }

    /** One turn of the loop of CcFlushCache. */
    method FlushOne(f: nat, start: nat, current: nat, end: nat, answer: Answer) returns (ghost p: Piece)
      requires Valid() && f in files && start <= current < end
      modifies this, cache
      ensures Valid() && cache.held == old(cache.held) && NoneDirtied(old(cache.vacbs), cache.vacbs)
      ensures old(Tracks()) && answer.bad == {} ==> Tracks()
      ensures files == if answer.granted then old(files)[f := Flushed(old(files)[f], p)] else old(files)
      ensures answer.granted ==> PieceFits(p, start, end) && Reaches(p, current, end) && p.bad == answer.bad
      ensures if old(DirtyAt(cache.vacbs, f, current)) then p.lo == Floor(current) && p.n == GRANULARITY
              else p.lo == current && p.lo + p.n == if end < Floor(current) + GRANULARITY then end else Floor(current) + GRANULARITY
      ensures answer.granted ==> NoDirtyView(cache.vacbs, f, Floor(current), Floor(current) + GRANULARITY)
    {
      hide Inv, Coherent, Flushed, Floor, NoDirtyView, NoneDirtied, Tracked, Bounded, NoMoreDirty, DirtyStays, DirtyAt;
      FloorAligned(current);
      FloorOffset(current);
      FloorAligned(end);
      NextBlock(current);
      var did := FlushIfDirty(f, current, answer);
      p := Piece(Floor(current), GRANULARITY, answer.bad);
      if !did {
        var n := if end - end % GRANULARITY <= current then end - current else GRANULARITY - current % GRANULARITY;
        FloorOffset(end);
        EndsInBlock(current, end);
        p := Piece(current, n, answer.bad);
        if answer.granted {
          FlushPiece(f, Piece(current, n, answer.bad));
        }
      }
    }

    /** MmFlushSegment on its own. */
    method FlushPiece(f: nat, p: Piece)
      requires Valid() && f in files
      modifies `files
      ensures Valid() && files == old(files)[f := Flushed(old(files)[f], p)] && (old(Tracks()) ==> Tracks())
    {
      hide Inv, Coherent, Flushed, Tracked, Bounded, NoMoreDirty, DirtyStays;
      FlushedSame(files, f, p);
      FlushedLess(files, f, p);
      files := files[f := Flushed(files[f], p)];
      BoundedStays(old(files), files, sections);
      StaysItself(cache.vacbs);
      KeepTracking(old(files), files, cache.vacbs, cache.vacbs);
    }

    /** The loop of CcFlushCache.  `flushes` is how Mm answers each request; `log` are the
        requests it granted. */
    method FlushRange(f: nat, start: nat, end: nat, flushes: nat -> Answer) returns (ok: bool, ghost log: seq<Piece>)
      requires Valid() && f in files && end <= MAXLONGLONG
      modifies this, cache
      ensures Valid() && cache.held == old(cache.held) && SameContent(old(files), files)
      ensures old(Tracks()) && AllWritten(flushes) ==> Tracks()
      ensures NoneDirtied(old(cache.vacbs), cache.vacbs) && DiskGets(old(files), files, f, log)
      ensures Tidy(log, start, end) && Answers(log, flushes)
      ensures ok ==> forall i: nat :: start <= i < end ==> Asked(log, i)
      ensures ok ==> Clean(files[f], start, end, log) && NoDirtyView(cache.vacbs, f, start, end)
      ensures AllGranted(flushes) ==> ok
    {
      hide Inv, Coherent, Flushed, Floor, NoDirtyView, NoneDirtied, SameContent, Clean, LoggedTo, Content, PieceFits, Reaches;
      hide Tracked, Bounded, DiskGets, Asked, Tidy, Answers, DirtyAt;
      var current, k := start, 0;
      log, ok := [], true;
      FlushStart(files, cache.vacbs, f, start, end);
      AnswersMore(log, flushes);
      while current < end
        invariant Valid() && cache.held == old(cache.held) && files.Keys == old(files.Keys) && start <= current && k == |log|
        invariant SameContent(old(files), files) && NoneDirtied(old(cache.vacbs), cache.vacbs)
        invariant old(Tracks()) && AllWritten(flushes) ==> Tracks()
        invariant LoggedTo(log, start, current, end) && NoDirtyView(cache.vacbs, f, start, current) && Answers(log, flushes)
        invariant Clean(files[f], start, if current < end then current else end, log) && DiskGets(old(files), files, f, log)
        decreases end - current
      {
        ghost var x, views := files, cache.vacbs;
        ghost var p := FlushOne(f, start, current, end, flushes(k));
        NoneStill(old(cache.vacbs), views, cache.vacbs);
        if !flushes(k).granted {
          LoggedTidy(log, start, current, end);
          return false, log;
        }
        FlushStep(x, views, cache.vacbs, f, log, p, start, current, end);
        DiskMore(old(files), x, f, log, p);
        SameStill(old(files), x, files);
        LoggedStep(log, p, start, current, end);
        AnswersMore(log, flushes);
        log := log + [p];
        NextBlock(current);
        if current + GRANULARITY > MAXLONGLONG {
          LastBlock(current, end);
          LoggedTidy(log, start, Floor(current) + GRANULARITY, end);
          FlushEnds(cache.vacbs, f, start, Floor(current) + GRANULARITY, end);
          return;
        }
        current, k := current + GRANULARITY, k + 1;
        FloorOffset(current);
        current := current - current % GRANULARITY;
      }
      LoggedTidy(log, start, current, end);
      FlushEnds(cache.vacbs, f, start, current, end);
    }

    /** CcFlushCache on a cached file of `size` bytes: without a range, all of it. */
    method FlushCache(f: nat, range: Option<(nat, nat)>, size: nat, flushes: nat -> Answer)
      returns (ok: bool, ghost log: seq<Piece>)
      requires Valid() && f in files && size <= MAXLONGLONG
      modifies this, cache
      ensures Valid() && cache.held == old(cache.held) && SameContent(old(files), files)
      ensures old(Tracks()) && AllWritten(flushes) ==> Tracks()
      ensures NoneDirtied(old(cache.vacbs), cache.vacbs) && DiskGets(old(files), files, f, log) && Answers(log, flushes)
      ensures var (start, n) := if range.Some? then range.value else (0, size);
              && Tidy(log, start, start + n)
              && (start + n > MAXLONGLONG ==> !ok && files == old(files) && cache.vacbs == old(cache.vacbs) && log == [])
              && (start + n <= MAXLONGLONG && AllGranted(flushes) ==> ok)
              && (ok ==> NoDirtyView(cache.vacbs, f, start, start + n))
              && (ok ==> forall i: nat :: start <= i < start + n ==> Asked(log, i))
              && (ok ==> forall i: nat :: start <= i < start + n && !Failed(log, i) ==> OnDisk(files[f], i) == Content(old(files)[f], i))
    {
      hide Inv, Coherent, NoDirtyView, NoneDirtied, Clean, Content, OnDisk, Asked, Tracked, Bounded, DiskGets, Failed, Answers;
      var start, n := 0, size;
      log := [];
      FlushStart(files, cache.vacbs, f, 0, 0);
      if range.Some? {
        start, n := range.value.0, range.value.1;
        if start + n > MAXLONGLONG {
          AnswersMore([], flushes);
          return false, [];
        }
      }
      ok, log := FlushRange(f, start, start + n, flushes);
      if ok {
        RangeOnDisk(old(files), files, f, start, start + n, log);
      }
    }

    /** CcCopyWrite with Wait; `through` is FO_WRITE_THROUGH.  `written` are the files once
        the `count` bytes are in and before any flush. */
    method CopyWrite(f: nat, off: nat, data: seq<Byte>, through: bool, luck: nat -> Luck, flushes: nat -> Answer)
      returns (ok: bool, count: nat, ghost written: map<nat, Mm>, ghost log: seq<Piece>)
      requires Valid() && f in files && (off + |data| <= MAXLONGLONG ==> off + |data| <= sections[f])
      modifies this, cache
      ensures Valid() && cache.held == old(cache.held) && count <= |data| && (old(Tracks()) && AllWritten(flushes) ==> Tracks())
      ensures ok <==> count == |data| && off + |data| <= MAXLONGLONG
      ensures Wrote(old(files), written, f, off, data[..count]) && SameDisk(old(files), written)
      ensures SameContent(written, files) && DiskGets(written, files, f, log) && Tidy(log, off, off + |data|) && Answers(log, flushes)
      ensures if through && ok then AllGranted(flushes) ==> forall i: nat :: off <= i < off + |data| ==> Asked(log, i) else log == []
      ensures off + |data| <= MAXLONGLONG && (forall k :: luck(k).memory && luck(k).maps(0)) ==> ok
      ensures !through ==> forall i: nat :: off <= i < off + count ==> DirtyAt(cache.vacbs, f, i)
      ensures through && ok && AllGranted(flushes) && AllWritten(flushes) ==>
                forall i :: 0 <= i < |data| ==> OnDisk(files[f], off + i) == data[i]
    {
      hide Inv, Coherent, NoDirtyView, NoneDirtied, SameContent, Content, OnDisk, Wrote, DirtyAt, SameDisk, DiskGets, Tracked, Bounded;
      hide Asked, Failed, Tidy, Answers, AllGranted, AllWritten;
      log := [];
      TidyNothing(off, off + |data|);
      AnswersMore([], flushes);
      if off + |data| > MAXLONGLONG {
        WroteNothing(files, f, off);
        SameItself(files);
        GetsNothing(files, f);
        return false, 0, files, [];
      }
      count := WriteViews(f, off, data, luck);
      written := files;
      ok := count == |data|;
      WroteAll(old(files), files, f, off, data[..count]);
      if ok && through {
        var flushed;
        flushed, log := FlushCache(f, Some((off, |data|)), 0, flushes);
        if AllWritten(flushes) {
          NoneFailed(log, flushes);
        }
      } else {
        SameItself(files);
        GetsNothing(files, f);
      }
    }

    /** Mm takes clean pages of the file back. */
    method PageOut(f: nat, gone: set<nat>)
      requires Valid() && f in files
      modifies `files
      ensures Valid() && SameContent(old(files), files) && SameDisk(old(files), files) && (old(Tracks()) ==> Tracks())
      ensures files == old(files)[f := PagedOut(old(files)[f], gone)]
    {
      hide Inv, Coherent, PagedOut, Content, OnDisk, Tracked, Bounded, DirtyStays;
      PagedOutKeeps(files[f], gone);
      files := files[f := PagedOut(files[f], gone)];
      OutSame(old(files), f, gone);
      BoundedStays(old(files), files, sections);
      StaysItself(cache.vacbs);
      KeepTracking(old(files), files, cache.vacbs, cache.vacbs);
    }

    /** CcRosTrimCache, one pass: views go, the files stay. */
    method Trim(target: nat) returns (credited: nat)
      requires Valid()
      modifies cache
      ensures Valid() && files == old(files) && cache.held == old(cache.held) && (old(Tracks()) ==> Tracks())
      ensures forall v :: v in cache.vacbs <==> v in old(cache.vacbs) && old(cache.vacbs[v]).refs >= 2
    {
      hide Inv, Coherent, Tracked, Bounded, DirtyStays, NoMoreDirty, NoneDirtied;
      ghost var x := cache.View();
      credited := cache.TrimPass(target);
      UnusedDirty(x, cache.View());
      SameItself(files);
      KeepTracking(files, files, x.vacbs, cache.vacbs);
    }

    /** CcRosFreeOneUnusedVacb. */
    method FreeOne() returns (freed: bool)
      requires Valid()
      modifies cache
      ensures Valid() && files == old(files) && cache.held == old(cache.held) && (old(Tracks()) ==> Tracks())
      ensures OneUnusedGone(old(cache.View()), cache.View(), freed)
    {
      hide Inv, Coherent, Tracked, Bounded, DirtyStays, NoMoreDirty, NoneDirtied, OneUnusedGone;
      ghost var x := cache.View();
      freed := cache.FreeOneUnused();
      UnusedDirty(x, cache.View());
      SameItself(files);
      KeepTracking(files, files, x.vacbs, cache.vacbs);
    }

    /** MmPurgeSegment. */
    method PurgeSegment(r: Range, overflows: bool, used: nat -> bool) returns (ok: bool)
      requires Valid() && r.f in files && (overflows ==> r.end == 0)
      modifies `files
      ensures Valid() && files == old(files)[r.f := Discarded(old(files)[r.f], Page(r.start), StopOf(r, used))]
      ensures ok <==> !overflows && NoneUsed(used, r.start, r.end)
      ensures ok ==> StopOf(r, used) >= r.end
    {
      hide Inv, Coherent, Discarded, Content, OnDisk, Bounded, NoneUsed, Page;
      NoneUsedIff(used, r.start, r.end);
      DiscardedNone(files[r.f], Page(r.start));
      DiscardedLoses(files[r.f], Page(r.start), StopOf(r, used));
      if overflows {
        return false;
      }
      var m;
      ok, m := PurgePages(files[r.f], r.start, r.end, used);
      files := files[r.f := m];
      BoundedStays(old(files), files, sections);
    }

    /** CcPurgeCacheSection: the views, then Mm unless one of them was in use.  `used` are the
        pages Mm finds mapped somewhere or being read.  Whether the purge goes through or
        not, the bytes that went read as on disk, and no others: whole pages, up to the first
        one in use.  Dirty bytes stay under dirty views unless the purge has taken a view
        over one that did not go. */
    method PurgeSection(f: nat, range: Option<(nat, nat)>, used: nat -> bool) returns (ok: bool)
      requires Valid() && f in files
      modifies this, cache
      ensures Valid() && cache.held == old(cache.held) && SameDisk(old(files), files)
      ensures var r := PurgeRange(f, range, sections[f]);
              var gone := old(Gone(cache.View(), r, used));
              && (ok <==> !Overflows(range) && !old(Refused(cache.View(), r)) && NoneUsed(used, r.start, r.end))
              && (forall v :: v in cache.vacbs <==> v in old(cache.vacbs) && !old(Takes(cache.View(), r, v)))
              && Discards(old(files), files, gone)
              && (forall i: nat :: used(Page(i)) ==> !InRange(gone, i))
              && (ok ==> forall v :: v in cache.held && v in old(cache.vacbs) && Touches(old(cache.vacbs[v]), r) ==>
                           old(cache.vacbs[v]).at < r.start || ViewEnd(old(cache.vacbs[v]), r.section) >= r.end)
              && (old(Tracks()) ==> (Tracks() <==> !old(LosesTrack(cache.View(), r, files[f], gone))))
              && (ok ==> !old(LosesTrack(cache.View(), r, files[f], gone)))
      ensures var (start, n) := if range.None? then (0, 0) else range.value;
              n == 0 ==>
                && (ok ==> forall i: nat :: Page(start) <= i < MAXLONGLONG ==>
                             Content(files[f], i) == OnDisk(old(files)[f], i) && i !in files[f].dirty)
                && (sections[f] < MAXLONGLONG ==>
                      forall v :: v in old(cache.vacbs) && old(cache.vacbs[v]).file == f && old(cache.vacbs[v]).at >= start ==>
                        (v in cache.held ==> !ok) && (ok ==> v !in cache.vacbs))
    {
      hide Inv, Coherent, Selected, Takes, Discarded, Content, OnDisk, Tracked;
      hide Bounded, Discards, LosesTrack, Refused, NoneUsed, StopOf, Touches, Page, ViewEnd;
      var r := PurgeRange(f, range, sections[f]);
      ghost var x := cache.View();
      var free := cache.Purge(r);
      RefusedIff(x, r, free);
      ok := false;
      if free {
        ok := PurgeSegment(r, Overflows(range), used);
      }
      PurgedFiles(x, old(files), files, r, used);
      if Tracked(old(files), x.vacbs) {
        PurgeTracksIff(x, cache.vacbs, old(files), files, r, Gone(x, r, used));
      }
      UsedStays(x, r, used);
      PurgedToEnd(x, old(files), files, f, range, sections[f], used, ok);
      if ok {
        PurgeTracks(x, old(files), sections, r, used);
        forall v | v in x.held && v in x.vacbs && Touches(x.vacbs[v], r)
          ensures x.vacbs[v].at < r.start || ViewEnd(x.vacbs[v], r.section) >= r.end
        {
          NotAskedAbout(x, r, v);
        }
      }
    }
  }

  // ----- Keeping track ---------------------------------------------------------------------------------

  lemma KeepTracking(x: map<nat, Mm>, y: map<nat, Mm>, v: map<nat, Vacb>, w: map<nat, Vacb>)
    requires NoMoreDirty(x, y) && DirtyStays(v, w)
    ensures Tracked(x, v) ==> Tracked(y, w)
  {
    hide Tracked, NoMoreDirty, DirtyStays;
    if Tracked(x, v) {
      TrackedStays(x, y, v, w);
    }
  }

  /** Only `v` changed, and not from dirty to clean. */
  lemma OneChanged(x: map<nat, Vacb>, y: map<nat, Vacb>, v: nat)
    requires x.Keys == y.Keys && v in x && y[v].file == x[v].file && y[v].at == x[v].at && (x[v].dirty ==> y[v].dirty)
    requires forall w :: w in x && w != v ==> y[w] == x[w]
    ensures DirtyStays(x, y)
  {
  }

  lemma OneNoneDirtied(x: map<nat, Vacb>, y: map<nat, Vacb>, v: nat)
    requires x.Keys == y.Keys && v in x && y[v].file == x[v].file && y[v].at == x[v].at && (y[v].dirty ==> x[v].dirty)
    requires forall w :: w in x && w != v ==> y[w] == x[w]
    ensures NoneDirtied(x, y)
  {
  }

  lemma NoneItself(x: map<nat, Vacb>)
    ensures NoneDirtied(x, x) && DirtyStays(x, x)
  {
  }

  lemma StaysItself(x: map<nat, Vacb>)
    ensures DirtyStays(x, x)
  {
  }

  lemma GetsNothing(x: map<nat, Mm>, f: nat)
    ensures DiskGets(x, x, f, [])
  {
  }

  lemma OutSame(x: map<nat, Mm>, f: nat, gone: set<nat>)
    requires f in x && Coherent(x[f])
    ensures var y := x[f := PagedOut(x[f], gone)]; SameContent(x, y) && SameDisk(x, y) && NoMoreDirty(x, y)
  {
    hide Coherent, Content, OnDisk;
    PagedOutKeeps(x[f], gone);
  }

  // ----- Purging bytes -----------------------------------------------------------------------------------

  /** The purge takes a view over a byte that Mm still has to write and keeps. */
  ghost predicate LosesTrack(x: State, r: Range, m: Mm, gone: Range) {
    exists v, i :: v in x.vacbs && Takes(x, r, v) && Covers(x.vacbs[v], i) && i in m.dirty && !InRange(gone, i)
  }

  /** A purge without a length that goes through reaches all bytes and all views from its
      offset on. */
  lemma PurgedToEnd(x: State, files: map<nat, Mm>, files': map<nat, Mm>, f: nat, range: Option<(nat, nat)>, section: nat, used: nat -> bool, ok: bool)
    requires Inv(x) && f in files && f in files'
    requires var r := PurgeRange(f, range, section);
             && (ok <==> !Overflows(range) && !Refused(x, r) && NoneUsed(used, r.start, r.end))
             && Discards(files, files', Gone(x, r, used))
             && forall i :: i in files'[f].dirty <==> i in files[f].dirty && !InRange(Gone(x, r, used), i)
    ensures var (start, n) := if range.None? then (0, 0) else range.value;
            var r := PurgeRange(f, range, section);
            n == 0 ==>
              && (ok ==> forall i: nat :: Page(start) <= i < MAXLONGLONG ==>
                           Content(files'[f], i) == OnDisk(files[f], i) && i !in files'[f].dirty)
              && (section < MAXLONGLONG ==>
                    forall v :: v in x.vacbs && x.vacbs[v].file == f && x.vacbs[v].at >= start ==>
                      (v in x.held ==> !ok) && (ok ==> Takes(x, r, v)))
  {
    hide Inv, Page, IsPage, NoneUsed, Takes, Content, OnDisk;
    var (start, n) := if range.None? then (0, 0) else range.value;
    var r := PurgeRange(f, range, section);
    NoneUsedIff(used, r.start, r.end);
    if !Refused(x, r) {
      TakesAll(x, r);
    }
    if n == 0 && ok {
      var gone := Gone(x, r, used);
      assert forall i: nat :: Page(start) <= i < MAXLONGLONG ==> InRange(gone, i);
    }
    if n == 0 && section < MAXLONGLONG {
      forall v | v in x.vacbs && x.vacbs[v].file == f && x.vacbs[v].at >= start
        ensures (v in x.held ==> !ok) && (ok ==> Takes(x, r, v))
      {
        SelectedIff(x, f, range, section, v);
      }
    }
  }

  lemma RefusedIff(x: State, r: Range, free: bool)
    requires free <==> forall v :: Selected(x, r, v) ==> v !in x.held
    ensures free <==> !Refused(x, r)
  {
    hide Selected;
  }

  lemma PurgedFiles(x: State, files: map<nat, Mm>, files': map<nat, Mm>, r: Range, used: nat -> bool)
    requires r.f in files && Coherent(files[r.f])
    requires files' == if Refused(x, r) then files else files[r.f := Discarded(files[r.f], Page(r.start), StopOf(r, used))]
    ensures Coherent(files'[r.f]) && Discards(files, files', Gone(x, r, used)) && SameDisk(files, files') && NoMoreDirty(files, files')
    ensures forall g :: g in files && g != r.f ==> files'[g] == files[g]
    ensures forall i :: i in files'[r.f].dirty <==> i in files[r.f].dirty && !InRange(Gone(x, r, used), i)
  {
    hide Content, OnDisk, Discarded, Coherent, Refused, StopOf;
    var g := Gone(x, r, used);
    DiscardedNone(files[r.f], Page(r.start));
    assert files[r.f := files[r.f]] == files;
    assert files' == files[r.f := Discarded(files[r.f], g.start, g.end)];
    DiscardedLoses(files[r.f], g.start, g.end);
  }

  /** When the purge goes through, the dirty bytes under the views it takes go. */
  lemma PurgeTracks(x: State, files: map<nat, Mm>, sections: map<nat, nat>, r: Range, used: nat -> bool)
    requires Bounded(files, sections) && r.f in files && r.section == sections[r.f] && GoesThrough(x, r, used)
    ensures !LosesTrack(x, r, files[r.f], Gone(x, r, used))
  {
    hide StopOf;
    PageAligned(r.start);
    forall v, i: nat | v in x.vacbs && Takes(x, r, v) && Covers(x.vacbs[v], i) && i in files[r.f].dirty
      ensures InRange(Gone(x, r, used), i)
    {
      assert Selected(x, r, v) && i < r.section;
    }
  }

  /** Dirty bytes stay tracked exactly if no view that was taken lay over one that stays. */
  lemma PurgeTracksIff(x: State, after: map<nat, Vacb>, files: map<nat, Mm>, files': map<nat, Mm>, r: Range, gone: Range)
    requires Inv(x) && Tracked(files, x.vacbs) && r.f in files && files'.Keys == files.Keys
    requires forall g :: g in files && g != r.f ==> files'[g] == files[g]
    requires forall i :: i in files'[r.f].dirty <==> i in files[r.f].dirty && !InRange(gone, i)
    requires forall v :: v in after <==> v in x.vacbs && !Takes(x, r, v)
    requires forall v :: v in after ==> after[v] == x.vacbs[v]
    ensures Tracked(files', after) <==> !LosesTrack(x, r, files[r.f], gone)
  {
    hide Inv, Takes, InRange;
    if LosesTrack(x, r, files[r.f], gone) {
      var v, i :| v in x.vacbs && Takes(x, r, v) && Covers(x.vacbs[v], i) && i in files[r.f].dirty && !InRange(gone, i);
      TakesSelected(x, r, v);
      LosesByte(x, after, r, v, i);
      assert i in files'[r.f].dirty;
    } else {
      forall f, i | f in files' && i in files'[f].dirty ensures DirtyAt(after, f, i) {
        assert i in files[f].dirty;
        var v :| v in x.vacbs && x.vacbs[v].dirty && x.vacbs[v].file == f && Covers(x.vacbs[v], i);
        if Takes(x, r, v) {
          TakesSelected(x, r, v);
        }
      }
    }
  }

  lemma TakesSelected(x: State, r: Range, v: nat)
    requires Takes(x, r, v)
    ensures v in x.vacbs && x.vacbs[v].file == r.f
  {
  }

  lemma LosesByte(x: State, after: map<nat, Vacb>, r: Range, v: nat, i: nat)
    requires Inv(x) && v in x.vacbs && x.vacbs[v].file == r.f && Covers(x.vacbs[v], i) && v !in after
    requires forall w :: w in after ==> w in x.vacbs && after[w] == x.vacbs[w]
    ensures !DirtyAt(after, r.f, i)
  {
    hide Inv;
    forall w | w in after && after[w].file == r.f && Covers(after[w], i) ensures w == v {
      OneView(x, v, w, i);
    }
  }

  lemma RangeOnDisk(x: map<nat, Mm>, y: map<nat, Mm>, f: nat, start: nat, end: nat, log: seq<Piece>)
    requires f in y && Coherent(y[f]) && Clean(y[f], start, end, log) && SameContent(x, y)
    ensures forall i: nat :: start <= i < end && !Failed(log, i) ==> OnDisk(y[f], i) == Content(x[f], i)
  {
    hide Coherent, Content, OnDisk, Failed;
    forall i: nat | start <= i < end && !Failed(log, i) ensures OnDisk(y[f], i) == Content(x[f], i) {
      CleanOnDisk(y[f], i);
    }
  }

  lemma AnswersMore(log: seq<Piece>, flushes: nat -> Answer)
    ensures Answers([], flushes)
    ensures forall p: Piece :: Answers(log, flushes) && p.bad == flushes(|log|).bad ==> Answers(log + [p], flushes)
  {
  }

  lemma WroteAll(x: map<nat, Mm>, y: map<nat, Mm>, f: nat, lo: nat, data: seq<Byte>)
    requires Wrote(x, y, f, lo, data) && f in x
    ensures y.Keys == x.Keys && forall i :: 0 <= i < |data| ==> Content(y[f], lo + i) == data[i]
  {
    hide Content;
  }

  /** The byte is under a dirty view exactly if the lookup finds one. */
  lemma FoundDirty(s: State, f: nat, current: nat, r: Option<nat>)
    requires Inv(s) && (r.None? <==> !Mapped(s, f, current))
    requires r.Some? ==> r.value in s.vacbs && s.vacbs[r.value].file == f && s.vacbs[r.value].at == Floor(current)
    ensures DirtyAt(s.vacbs, f, current) <==> r.Some? && s.vacbs[r.value].dirty
  {
    hide Inv, Floor;
    FloorAligned(current);
    if r.Some? {
      OneViewOnly(s, f, current, r.value);
      assert Covers(s.vacbs[r.value], current);
    }
  }

  lemma NoViewClean(s: State, f: nat, current: nat)
    requires Inv(s) && !Mapped(s, f, current)
    ensures NoDirtyView(s.vacbs, f, Floor(current), Floor(current) + GRANULARITY)
  {
    hide Floor, Placed, Counted, LruFits, DirtyFits, Totals, Ordered, NoDirtyView;
    BlockClean(s, f, current, Floor(current), Floor(current) + GRANULARITY);
  }

  lemma OneViewOnly(s: State, f: nat, current: nat, v: nat)
    requires Inv(s) && v in s.vacbs && s.vacbs[v].file == f && s.vacbs[v].at == Floor(current)
    ensures forall w :: w in s.vacbs && s.vacbs[w].file == f && Covers(s.vacbs[w], current) ==> w == v
  {
    hide Inv, Floor;
    FloorAligned(current);
    forall w | w in s.vacbs && s.vacbs[w].file == f && Covers(s.vacbs[w], current) ensures w == v {
      OneView(s, v, w, current);
    }
  }

  lemma ViewClean(s: State, f: nat, current: nat, v: nat)
    requires Inv(s) && v in s.vacbs && !s.vacbs[v].dirty
    requires forall w :: w in s.vacbs && s.vacbs[w].file == f && Covers(s.vacbs[w], current) ==> w == v
    ensures NoDirtyView(s.vacbs, f, Floor(current), Floor(current) + GRANULARITY)
  {
    hide Floor, Placed, Counted, LruFits, DirtyFits, Totals, Ordered, NoDirtyView;
    BlockClean(s, f, current, Floor(current), Floor(current) + GRANULARITY);
  }

  lemma EndsInBlock(current: nat, end: nat)
    requires current < end
    ensures Floor(end) <= current ==> end <= Floor(current) + GRANULARITY
    ensures Floor(end) > current ==> Floor(current) + GRANULARITY <= end
  {
  }

  lemma FlushStart(x: map<nat, Mm>, views: map<nat, Vacb>, f: nat, start: nat, end: nat)
    requires f in x
    ensures SameContent(x, x) && NoneDirtied(views, views) && NoDirtyView(views, f, start, start)
    ensures LoggedTo([], start, start, end) && Clean(x[f], start, if start < end then start else end, [])
    ensures DiskGets(x, x, f, [])
  {
  }

  lemma FlushStep(x: map<nat, Mm>, views: map<nat, Vacb>, views': map<nat, Vacb>, f: nat, log: seq<Piece>, p: Piece,
                  start: nat, current: nat, end: nat)
    requires f in x && Coherent(x[f]) && NoneDirtied(views, views') && Reaches(p, current, end) && current < end
    requires NoDirtyView(views, f, start, current) && Clean(x[f], start, current, log)
    requires NoDirtyView(views', f, Floor(current), Floor(current) + GRANULARITY)
    ensures SameContent(x, x[f := Flushed(x[f], p)])
    ensures var next := Floor(current) + GRANULARITY;
            && Clean(Flushed(x[f], p), start, if next < end then next else end, log + [p])
            && NoDirtyView(views', f, start, next)
  {
    hide Coherent, Flushed, Floor, NoDirtyView, NoneDirtied, SameContent, Clean, Reaches;
    FlushedSame(x, f, p);
    CleanMore(x[f], log, p, start, current, end);
    FloorAligned(current);
    ShorterView(views', f, Floor(current), current, Floor(current) + GRANULARITY);
    StillClean(views, views', f, start, current, Floor(current) + GRANULARITY);
  }

  lemma ShorterView(views: map<nat, Vacb>, f: nat, lo: nat, mid: nat, hi: nat)
    requires NoDirtyView(views, f, lo, hi) && lo <= mid
    ensures NoDirtyView(views, f, mid, hi)
  {
  }

  lemma NoneStill(x: map<nat, Vacb>, y: map<nat, Vacb>, z: map<nat, Vacb>)
    requires NoneDirtied(x, y) && NoneDirtied(y, z)
    ensures NoneDirtied(x, z)
  {
  }

  lemma LoggedTidy(log: seq<Piece>, start: nat, current: nat, end: nat)
    requires LoggedTo(log, start, current, end)
    ensures Tidy(log, start, end) && (current >= end ==> forall i: nat :: start <= i < end ==> Asked(log, i))
  {
    hide Tidy, Floor, Asked;
  }

  lemma FlushEnds(views: map<nat, Vacb>, f: nat, start: nat, current: nat, end: nat)
    requires current >= end && NoDirtyView(views, f, start, current)
    ensures NoDirtyView(views, f, start, end)
  {
  }

  lemma SameItself(x: map<nat, Mm>)
    ensures SameContent(x, x) && SameDisk(x, x) && NoMoreDirty(x, x)
  {
  }

  lemma WroteNothing(x: map<nat, Mm>, f: nat, lo: nat)
    ensures Wrote(x, x, f, lo, [])
  {
  }

  lemma WroteKeys(f: nat, lo: nat, data: seq<Byte>)
    ensures forall x, y :: Wrote(x, y, f, lo, data) ==> x.Keys == y.Keys
  {
  }

  lemma AllStay(x: map<nat, Vacb>, y: map<nat, Vacb>, f: nat)
    requires DirtyStays(x, y)
    ensures forall i: nat :: DirtyAt(x, f, i) ==> DirtyAt(y, f, i)
  {
    forall i: nat | DirtyAt(x, f, i) ensures DirtyAt(y, f, i) {
      StaysAt(x, y, f, i);
    }
  }

  lemma FloorOffset(i: nat)
    ensures Floor(i) + i % GRANULARITY == i
  {
  }
}
