/** What the cache asks of Mm: a file is an array of bytes of which some are resident in
    memory, some of those are dirty, and the rest lie on disk.  Mm writes, drops and takes
    back whole pages. */
module FlatFile {

  type Byte = b: int | 0 <= b < 256

  const PAGE_SIZE: nat := 0x1000
  const MAXLONGLONG: nat := 0x7FFF_FFFF_FFFF_FFFF

  datatype Mm = Mm(disk: map<nat, Byte>, resident: map<nat, Byte>, dirty: set<nat>)

  /** A request made of MmFlushSegment, and the pages Mm then failed to write. */
  datatype Piece = Piece(lo: nat, n: nat, bad: set<nat>)

  function OnDisk(m: Mm, i: nat): Byte {
    if i in m.disk then m.disk[i] else 0
  }

  /** The byte a reader of the file sees. */
  function Content(m: Mm, i: nat): Byte {
    if i in m.resident then m.resident[i] else OnDisk(m, i)
  }

  /** Only resident bytes are dirty, and clean ones agree with the disk. */
  ghost predicate Coherent(m: Mm) {
    && m.dirty <= m.resident.Keys
    && forall i :: i in m.resident && i !in m.dirty ==> m.resident[i] == OnDisk(m, i)
  }

  /** Where the page of a byte starts. */
  function Page(i: nat): nat {
    i - i % PAGE_SIZE
  }

  predicate IsPage(p: nat) {
    p % PAGE_SIZE == 0
  }

  /** The byte lies on a page that a loop from the page of `lo` up to `hi` comes to. */
  predicate OnPages(lo: nat, hi: nat, i: nat) {
    Page(lo) <= i && Page(i) < hi
  }

  /** The byte lies on a page that was asked for and written. */
  predicate Sends(p: Piece, i: nat) {
    OnPages(p.lo, p.lo + p.n, i) && Page(i) !in p.bad
  }

  predicate Within(lo: nat, n: nat, i: nat) {
    lo <= i < lo + n
  }

  function Span(lo: nat, n: nat): set<nat> {
    set i: nat | lo <= i < lo + n && Within(lo, n, i)
  }

  /** MmMakeDataSectionResident. */
  function Loaded(m: Mm, lo: nat, n: nat): Mm {
    m.(resident := map i | i in m.resident.Keys + Span(lo, n) :: Content(m, i))
  }

  /** A store through a view, followed by MmMakeSegmentDirty. */
  function Stored(m: Mm, lo: nat, data: seq<Byte>): Mm {
    m.(resident := m.resident + map i | i in Span(lo, |data|) :: data[i - lo], dirty := m.dirty + Span(lo, |data|))
  }

  /** MmFlushSegment: a page whose write fails stays dirty. */
  function Flushed(m: Mm, p: Piece): Mm {
    m.(disk := m.disk + map i: nat | i in m.dirty && i in m.resident && Sends(p, i) :: m.resident[i],
       dirty := set i | i in m.dirty && !Sends(p, i))
  }

  /** Mm takes clean pages back whenever it likes. */
  function PagedOut(m: Mm, gone: set<nat>): Mm {
    m.(resident := m.resident - (gone - m.dirty))
  }

  /** The bytes from `lo` up to `hi` are dropped, written or not. */
  function Discarded(m: Mm, lo: nat, hi: nat): Mm {
    m.(resident := map i | i in m.resident && !(lo <= i < hi) :: m.resident[i],
       dirty := set i | i in m.dirty && !(lo <= i < hi))
  }

  lemma LoadedKeeps(m: Mm, lo: nat, n: nat)
    requires Coherent(m)
    ensures Coherent(Loaded(m, lo, n)) && Span(lo, n) <= Loaded(m, lo, n).resident.Keys
    ensures forall i: nat :: Content(Loaded(m, lo, n), i) == Content(m, i) && OnDisk(Loaded(m, lo, n), i) == OnDisk(m, i)
    ensures Loaded(m, lo, n).dirty == m.dirty
  {
  }

  lemma StoredWrites(m: Mm, lo: nat, data: seq<Byte>)
    requires Coherent(m)
    ensures Coherent(Stored(m, lo, data))
    ensures forall i: nat :: Content(Stored(m, lo, data), i) == if lo <= i < lo + |data| then data[i - lo] else Content(m, i)
    ensures forall i: nat :: OnDisk(Stored(m, lo, data), i) == OnDisk(m, i)
    ensures forall i: nat :: i in Stored(m, lo, data).dirty <==> i in m.dirty || lo <= i < lo + |data|
  {
  }

  lemma FlushedKeeps(m: Mm, p: Piece)
    requires Coherent(m)
    ensures Coherent(Flushed(m, p))
    ensures forall i: nat :: Content(Flushed(m, p), i) == Content(m, i)
    ensures forall i: nat :: i in Flushed(m, p).dirty <==> i in m.dirty && !Sends(p, i)
    ensures forall i: nat :: OnDisk(Flushed(m, p), i) == if Sends(p, i) then Content(m, i) else OnDisk(m, i)
  {
    hide Sends;
  }

  lemma PagedOutKeeps(m: Mm, gone: set<nat>)
    requires Coherent(m)
    ensures Coherent(PagedOut(m, gone))
    ensures forall i: nat :: Content(PagedOut(m, gone), i) == Content(m, i) && OnDisk(PagedOut(m, gone), i) == OnDisk(m, i)
  {
  }

  lemma DiscardedLoses(m: Mm, lo: nat, hi: nat)
    requires Coherent(m)
    ensures Coherent(Discarded(m, lo, hi))
    ensures forall i: nat :: Content(Discarded(m, lo, hi), i) == if lo <= i < hi then OnDisk(m, i) else Content(m, i)
    ensures forall i: nat :: OnDisk(Discarded(m, lo, hi), i) == OnDisk(m, i)
    ensures forall i: nat :: i in Discarded(m, lo, hi).dirty <==> i in m.dirty && !(lo <= i < hi)
  {
  }

  // ----- Purging pages ----------------------------------------------------------------------------

  /** The first page from `at` on that is in use, or the first one behind the range. */
  function Stop(used: nat -> bool, at: nat, end: nat): (s: nat)
    requires IsPage(at)
    ensures at <= s && IsPage(s)
    ensures forall p: nat :: at <= p < s && IsPage(p) ==> p < end && !used(p)
    ensures s < end ==> used(s)
    decreases end - at
  {
    if at >= end || used(at) then at else NextPage(at); Stop(used, at + PAGE_SIZE, end)
  }

  lemma NextPage(at: nat)
    requires IsPage(at)
    ensures IsPage(at + PAGE_SIZE) && forall p: nat :: at < p < at + PAGE_SIZE ==> !IsPage(p)
  {
  }

  /** There is only one such page. */
  lemma StopIs(used: nat -> bool, at: nat, end: nat, s: nat)
    requires IsPage(at) && at <= s && IsPage(s) && (s < end ==> used(s))
    requires forall p: nat :: at <= p < s && IsPage(p) ==> p < end && !used(p)
    ensures Stop(used, at, end) == s
  {
    hide IsPage;
  }

  /** No page that the range touches is in use. */
  ghost predicate NoneUsed(used: nat -> bool, start: nat, end: nat) {
    forall p: nat :: Page(start) <= p < end && IsPage(p) ==> !used(p)
  }

  lemma PageAligned(i: nat)
    ensures IsPage(Page(i)) && Page(i) <= i < Page(i) + PAGE_SIZE
  {
  }

  lemma NoneUsedIff(used: nat -> bool, start: nat, end: nat)
    ensures IsPage(Page(start)) && (NoneUsed(used, start, end) <==> Stop(used, Page(start), end) >= end)
  {
    hide IsPage, Page;
    PageAligned(start);
  }

  lemma DiscardedMore(m: Mm, lo: nat, mid: nat, hi: nat)
    requires lo <= mid <= hi
    ensures Discarded(Discarded(m, lo, mid), mid, hi) == Discarded(m, lo, hi)
  {
  }

  lemma DiscardedNone(m: Mm, lo: nat)
    ensures Discarded(m, lo, lo) == m
  {
  }

  /** The loop of MmPurgeSegment.  `used` are the pages it finds mapped somewhere or being
      read: it gives up at the first of them, having let go of all in front. */
  method PurgePages(m: Mm, start: nat, end: nat, used: nat -> bool) returns (ok: bool, t: Mm)
    ensures IsPage(Page(start)) && t == Discarded(m, Page(start), Stop(used, Page(start), end))
    ensures ok <==> NoneUsed(used, start, end)
  {
    hide Discarded, NoneUsed, IsPage, Page;
    NoneUsedIff(used, start, end);
    var at := Page(start);
    t := m;
    DiscardedNone(m, at);
    while at < end
      invariant IsPage(at) && Page(start) <= at && Stop(used, at, end) == Stop(used, Page(start), end)
      invariant t == Discarded(m, Page(start), at)
    {
      if used(at) {
        return false, t;
      }
      NextPage(at);
      DiscardedMore(m, Page(start), at, at + PAGE_SIZE);
      t := Discarded(t, at, at + PAGE_SIZE);
      at := at + PAGE_SIZE;
    }
    ok := true;
  }
}
