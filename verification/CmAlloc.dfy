/** The page-grouped allocators of key control blocks and delay items.

    A page of PAGE_SIZE bytes starts with a header of `head` bytes that holds FreeCount;
    the rest is cut into items of `size` bytes.  All free items of all pages are on one
    list.  The two allocators differ in the item size, and in that the one for key control
    blocks falls back to the pool. */
module CmAlloc {
  import opened Lists

  const PAGE_SIZE: nat := 4096

  datatype Layout = Layout(head: nat, size: nat)

  ghost predicate Fits(l: Layout) {
    l.size > 0 && l.head + l.size <= PAGE_SIZE
  }

  /** CM_KCBS_PER_PAGE, CM_DELAYS_PER_PAGE. */
  function PerPage(l: Layout): nat
    requires Fits(l)
  {
    (PAGE_SIZE - l.head) / l.size
  }

  /** As many items as fit: those do, and one more would not. */
  lemma PerPageIsMost(l: Layout)
    requires Fits(l)
    ensures l.head + PerPage(l) * l.size <= PAGE_SIZE < l.head + (PerPage(l) + 1) * l.size
  {
  }

  function Item(l: Layout, page: nat, i: nat): nat {
    page + l.head + i * l.size
  }

  /** CmpGetAllocPageFromKcb: the address with its low twelve bits cleared. */
  function PageOf(a: nat): nat {
    a - a % PAGE_SIZE
  }

  predicate Aligned(page: nat) {
    page % PAGE_SIZE == 0
  }

  // ----- Where items lie --------------------------------------------------------------------

  lemma Product(i: nat, n: nat, size: nat)
    requires i < n
    ensures i * size + size <= n * size
  {
    assert (i + 1) * size <= n * size;
  }

  lemma PerPagePositive(l: Layout)
    requires Fits(l)
    ensures PerPage(l) > 0
  {
  }

  /** An item lies inside its page, behind the header. */
  lemma ItemInside(l: Layout, page: nat, i: nat)
    requires Fits(l) && i < PerPage(l)
    ensures page + l.head <= Item(l, page, i) && Item(l, page, i) + l.size <= page + PAGE_SIZE
  {
    Product(i, PerPage(l), l.size);
  }

  /** Masking an item's address gives its page back. */
  lemma PageOfItem(l: Layout, page: nat, i: nat)
    requires Fits(l) && i < PerPage(l) && Aligned(page)
    ensures PageOf(Item(l, page, i)) == page
  {
    ItemInside(l, page, i);
    MaskInside(page, Item(l, page, i) - page);
  }

  lemma MaskInside(page: nat, off: nat)
    requires Aligned(page) && off < PAGE_SIZE
    ensures PageOf(page + off) == page
  {
  }

  lemma ItemsDiffer(l: Layout, page: nat, i: nat, j: nat)
    requires Fits(l) && i < j
    ensures Item(l, page, i) + l.size <= Item(l, page, j)
  {
    Product(i, j, l.size);
  }

  /** Two different items share no byte. */
  lemma ItemsDisjoint(l: Layout, p: nat, i: nat, q: nat, j: nat)
    requires Fits(l) && Aligned(p) && Aligned(q) && i < PerPage(l) && j < PerPage(l) && (p != q || i != j)
    ensures Item(l, p, i) + l.size <= Item(l, q, j) || Item(l, q, j) + l.size <= Item(l, p, i)
  {
    hide Item;
    ItemInside(l, p, i);
    ItemInside(l, q, j);
    if p == q {
      if i < j { ItemsDiffer(l, p, i, j); } else { ItemsDiffer(l, p, j, i); }
    } else {
      PagesApart(p, q);
    }
  }

  lemma PagesApart(p: nat, q: nat)
    requires Aligned(p) && Aligned(q) && p != q
    ensures p + PAGE_SIZE <= q || q + PAGE_SIZE <= p
  {
  }

  // ----- The allocator's state -------------------------------------------------------------------

  /** `free` is the free list and `counts` FreeCount of each page held; `out` are the items
      handed out, `pooled` the blocks that came from the pool instead (PrivateAlloc clear). */
  datatype State = State(free: seq<nat>, counts: map<nat, nat>, out: set<nat>, pooled: set<nat>)

  ghost predicate IsItem(l: Layout, a: nat)
    requires Fits(l)
  {
    exists i: nat :: i < PerPage(l) && a == Item(l, PageOf(a), i)
  }

  function FreeIn(free: seq<nat>, page: nat): set<nat> {
    set a | a in free && PageOf(a) == page
  }

  /** Free items are distinct items of held pages, and FreeCount counts them. */
  ghost predicate Counted(l: Layout, s: State)
    requires Fits(l)
  {
    && NoDuplicates(s.free)
    && (forall a :: a in s.free ==> PageOf(a) in s.counts && IsItem(l, a))
    && (forall p :: p in s.counts ==> Aligned(p) && s.counts[p] == |FreeIn(s.free, p)|)
  }

  /** The items of the held pages are exactly the free ones and those handed out. */
  ghost predicate Split(l: Layout, s: State)
    requires Fits(l)
  {
    && (forall a :: a in s.out ==> PageOf(a) in s.counts && IsItem(l, a) && a !in s.free)
    && (forall p, i: nat :: p in s.counts && i < PerPage(l) ==> Item(l, p, i) in s.free || Item(l, p, i) in s.out)
  }

  /** Pool blocks are elsewhere. */
  ghost predicate PoolApart(s: State) {
    forall b :: b in s.pooled ==> PageOf(b) !in s.counts
  }

  /** Every page held has an item in use. */
  ghost predicate InUse(s: State) {
    forall p :: p in s.counts ==> exists a :: a in s.out && PageOf(a) == p
  }

  ghost predicate Inv(l: Layout, s: State)
    requires Fits(l)
  {
    Counted(l, s) && Split(l, s) && PoolApart(s) && InUse(s)
  }

  /** Everything a caller holds. */
  function Live(s: State): set<nat> {
    s.out + s.pooled
  }

  // ----- Taking an item ------------------------------------------------------------------------------

  /** RemoveHeadList and the page's FreeCount decremented. */
  function Taken(s: State): State
    requires s.free != [] && PageOf(s.free[0]) in s.counts && s.counts[PageOf(s.free[0])] > 0
  {
    var a := s.free[0];
    State(s.free[1..], s.counts[PageOf(a) := s.counts[PageOf(a)] - 1], s.out + {a}, s.pooled)
  }

  lemma HeadIn(free: seq<nat>, p: nat)
    requires free != [] && NoDuplicates(free)
    ensures FreeIn(free[1..], p) == FreeIn(free, p) - {free[0]}
    ensures free[0] !in free[1..] && NoDuplicates(free[1..])
  {
  }

  /** FreeCount of the first free item's page is not zero, so the assertion holds. */
  lemma HeadCounted(l: Layout, s: State)
    requires Fits(l) && Counted(l, s) && s.free != []
    ensures PageOf(s.free[0]) in s.counts && s.counts[PageOf(s.free[0])] > 0
  {
    hide IsItem, NoDuplicates, PageOf;
    assert s.free[0] in FreeIn(s.free, PageOf(s.free[0]));
  }

  lemma TakenCounted(l: Layout, s: State)
    requires Fits(l) && Counted(l, s) && s.free != []
    ensures PageOf(s.free[0]) in s.counts && s.counts[PageOf(s.free[0])] > 0 && Counted(l, Taken(s))
  {
    hide IsItem, NoDuplicates, PageOf, FreeIn;
    HeadCounted(l, s);
    forall p ensures FreeIn(s.free[1..], p) == FreeIn(s.free, p) - {s.free[0]} && NoDuplicates(s.free[1..]) {
      HeadIn(s.free, p);
    }
    forall p | p in s.counts ensures Taken(s).counts[p] == |FreeIn(s.free[1..], p)| {
      HeadOf(s.free, p);
    }
  }

  lemma HeadOf(free: seq<nat>, p: nat)
    requires free != []
    ensures free[0] in FreeIn(free, p) <==> PageOf(free[0]) == p
  {
  }

  lemma TakenSplit(l: Layout, s: State)
    requires Fits(l) && Counted(l, s) && Split(l, s) && PoolApart(s) && s.free != []
    requires PageOf(s.free[0]) in s.counts && s.counts[PageOf(s.free[0])] > 0
    ensures Split(l, Taken(s)) && PoolApart(Taken(s))
    ensures s.free[0] !in Live(s)
  {
    hide IsItem, PageOf, FreeIn, NoDuplicates, Item;
    HeadIn(s.free, 0);
    forall a | a in s.free && a != s.free[0] ensures a in s.free[1..] {
    }
  }

  /** Taking the head of the free list hands out an item nobody holds. */
  lemma TakenInv(l: Layout, s: State)
    requires Fits(l) && Counted(l, s) && Split(l, s) && PoolApart(s) && s.free != []
    requires forall p :: p in s.counts && p != PageOf(s.free[0]) ==> exists a :: a in s.out && PageOf(a) == p
    ensures PageOf(s.free[0]) in s.counts && s.counts[PageOf(s.free[0])] > 0 && Inv(l, Taken(s))
    ensures s.free[0] !in Live(s) && Live(Taken(s)) == Live(s) + {s.free[0]}
  {
    hide Counted, Split, PoolApart, PageOf;
    TakenCounted(l, s);
    TakenSplit(l, s);
  }

  // ----- A new page --------------------------------------------------------------------------------------

  function ItemsFrom(l: Layout, page: nat, n: nat): (q: seq<nat>)
    ensures |q| == n
  {
    seq(n, i requires 0 <= i => Item(l, page, i))
  }

  /** The page as the filling loop leaves it; the free list was empty. */
  function Grown(l: Layout, s: State, page: nat): State
    requires Fits(l)
  {
    s.(free := s.free + ItemsFrom(l, page, PerPage(l)), counts := s.counts[page := PerPage(l)])
  }

  /** The page allocator hands out a page that overlaps nothing in use. */
  ghost predicate FreshPage(s: State, page: nat) {
    Aligned(page) && page !in s.counts && forall b :: b in s.pooled ==> PageOf(b) != page
  }

  lemma {:induction false} ItemsCount(l: Layout, page: nat, n: nat)
    requires Fits(l) && Aligned(page) && n <= PerPage(l)
    ensures NoDuplicates(ItemsFrom(l, page, n))
    ensures |FreeIn(ItemsFrom(l, page, n), page)| == n
  {
    hide Item, PageOf;
    if n == 0 {
      assert FreeIn(ItemsFrom(l, page, n), page) == {};
    } else {
      ItemsCount(l, page, n - 1);
      PageOfItem(l, page, n - 1);
      var q, a := ItemsFrom(l, page, n - 1), Item(l, page, n - 1);
      assert ItemsFrom(l, page, n) == q + [a];
      forall i | 0 <= i < n - 1 ensures q[i] != a {
        ItemsDiffer(l, page, i, n - 1);
      }
      assert FreeIn(q + [a], page) == FreeIn(q, page) + {a};
    }
  }

  lemma GrownCounted(l: Layout, s: State, page: nat)
    requires Fits(l) && Counted(l, s) && s.free == [] && FreshPage(s, page)
    ensures Counted(l, Grown(l, s, page))
  {
    hide PageOf, Item, NoDuplicates;
    var q := ItemsFrom(l, page, PerPage(l));
    ItemsCount(l, page, PerPage(l));
    assert s.free + q == q;
    forall a | a in q ensures PageOf(a) == page && IsItem(l, a) {
      var i: nat :| i < PerPage(l) && q[i] == a;
      PageOfItem(l, page, i);
    }
    forall p | p in s.counts ensures FreeIn(q, p) == FreeIn(s.free, p) {
    }
  }

  lemma GrownSplit(l: Layout, s: State, page: nat)
    requires Fits(l) && Split(l, s) && PoolApart(s) && s.free == [] && FreshPage(s, page)
    ensures Split(l, Grown(l, s, page)) && PoolApart(Grown(l, s, page))
  {
    hide PageOf, Item, IsItem;
    var t := Grown(l, s, page);
    forall a | a in s.out ensures a !in t.free {
      if a in t.free {
        var i: nat :| i < PerPage(l) && t.free[i] == a;
        PageOfItem(l, page, i);
      }
    }
    forall i: nat | i < PerPage(l) ensures Item(l, page, i) in t.free {
      assert t.free[i] == Item(l, page, i);
    }
  }

  // ----- Giving an item back ----------------------------------------------------------------------------------

  function Without(q: seq<nat>, dead: set<nat>): (r: seq<nat>) {
    if q == [] then [] else if q[0] in dead then Without(q[1..], dead) else [q[0]] + Without(q[1..], dead)
  }

  function ItemSet(l: Layout, page: nat, n: nat): set<nat> {
    set i: nat | i < n :: Item(l, page, i)
  }

  /** InsertTailList and the page's FreeCount incremented. */
  function Put(s: State, a: nat): State
    requires PageOf(a) in s.counts
  {
    State(s.free + [a], s.counts[PageOf(a) := s.counts[PageOf(a)] + 1], s.out - {a}, s.pooled)
  }

  /** A page whose items are all free goes back to the pool. */
  function Retired(l: Layout, s: State, page: nat): State
    requires Fits(l)
  {
    s.(free := Without(s.free, ItemSet(l, page, PerPage(l))), counts := s.counts - {page})
  }

  lemma {:induction false} WithoutMembers(q: seq<nat>, dead: set<nat>)
    requires NoDuplicates(q)
    ensures NoDuplicates(Without(q, dead))
    ensures forall a :: a in Without(q, dead) <==> a in q && a !in dead
  {
    if q != [] {
      WithoutMembers(q[1..], dead);
      assert q == [q[0]] + q[1..];
    }
  }

  lemma {:induction false} WithoutNone(q: seq<nat>)
    ensures Without(q, {}) == q
  {
    if q != [] {
      WithoutNone(q[1..]);
    }
  }

  lemma {:induction false} WithoutMore(q: seq<nat>, dead: set<nat>, a: nat)
    requires NoDuplicates(q) && a !in dead
    ensures Remove(Without(q, dead), a) == Without(q, dead + {a})
  {
    if q != [] {
      WithoutMore(q[1..], dead, a);
      if q[0] == a {
        WithoutOther(q[1..], dead, a);
        assert ([a] + Without(q[1..], dead))[1..] == Without(q[1..], dead);
      } else if q[0] !in dead {
        assert ([q[0]] + Without(q[1..], dead))[1..] == Without(q[1..], dead);
      }
    }
  }

  lemma {:induction false} WithoutOther(q: seq<nat>, dead: set<nat>, a: nat)
    requires a !in q
    ensures Without(q, dead + {a}) == Without(q, dead)
  {
    if q != [] {
      WithoutOther(q[1..], dead, a);
    }
  }

  lemma PutCounted(l: Layout, s: State, a: nat)
    requires Fits(l) && Counted(l, s) && a !in s.free && PageOf(a) in s.counts && IsItem(l, a)
    ensures Counted(l, Put(s, a))
  {
    hide IsItem, PageOf, FreeIn, NoDuplicates;
    AppendDistinct(s.free, a);
    forall p ensures |FreeIn(s.free + [a], p)| == |FreeIn(s.free, p)| + if PageOf(a) == p then 1 else 0 {
      PutSize(s.free, a, p);
    }
  }

  lemma PutSize(q: seq<nat>, a: nat, p: nat)
    requires a !in q
    ensures |FreeIn(q + [a], p)| == |FreeIn(q, p)| + if PageOf(a) == p then 1 else 0
  {
    hide PageOf;
    assert FreeIn(q + [a], p) == if PageOf(a) == p then FreeIn(q, p) + {a} else FreeIn(q, p);
  }

  lemma PutSplit(l: Layout, s: State, a: nat)
    requires Fits(l) && Split(l, s) && PoolApart(s) && a in s.out
    ensures Split(l, Put(s, a)) && PoolApart(Put(s, a))
  {
    hide IsItem, PageOf, Item;
    forall p, i: nat | p in s.counts && i < PerPage(l)
      ensures Item(l, p, i) in Put(s, a).free || Item(l, p, i) in Put(s, a).out
    {
      assert Item(l, p, i) in s.free || Item(l, p, i) in s.out;
    }
  }

  lemma ItemSetSize(l: Layout, page: nat)
    requires Fits(l) && Aligned(page)
    ensures |ItemSet(l, page, PerPage(l))| == PerPage(l)
    ensures forall a :: a in ItemSet(l, page, PerPage(l)) ==> PageOf(a) == page && IsItem(l, a)
    ensures forall a :: IsItem(l, a) && PageOf(a) == page ==> a in ItemSet(l, page, PerPage(l))
  {
    hide PageOf, Item, NoDuplicates;
    ItemsCount(l, page, PerPage(l));
    var q := ItemsFrom(l, page, PerPage(l));
    forall i: nat | i < PerPage(l) ensures PageOf(Item(l, page, i)) == page {
      PageOfItem(l, page, i);
    }
    forall i: nat | i < PerPage(l) ensures Item(l, page, i) in FreeIn(q, page) {
      assert q[i] == Item(l, page, i);
    }
    assert FreeIn(q, page) == ItemSet(l, page, PerPage(l));
  }

  /** FreeCount reaches the number of items exactly when none of the page is in use. */
  lemma FullMeansUnused(l: Layout, s: State, page: nat)
    requires Fits(l) && Counted(l, s) && Split(l, s) && page in s.counts
    ensures s.counts[page] <= PerPage(l)
    ensures s.counts[page] == PerPage(l) <==> forall a :: a in s.out ==> PageOf(a) != page
  {
    hide PageOf, Item, NoDuplicates, IsItem;
    ItemSetSize(l, page);
    var all, free := ItemSet(l, page, PerPage(l)), FreeIn(s.free, page);
    assert free <= all;
    SubsetSize(free, all);
    if s.counts[page] == PerPage(l) {
      assert free == all;
    } else {
      var a :| a in all && a !in free;
      assert a in s.out;
    }
  }

  lemma {:induction false} SubsetSize(x: set<nat>, y: set<nat>)
    requires x <= y
    ensures |x| <= |y| && (|x| == |y| ==> x == y) && (|x| < |y| ==> exists a :: a in y && a !in x)
  {
    if x != {} {
      var a :| a in x;
      SubsetSize(x - {a}, y - {a});
    }
  }

  lemma RetiredInv(l: Layout, s: State, page: nat)
    requires Fits(l) && Counted(l, s) && Split(l, s) && PoolApart(s) && page in s.counts
    requires forall a :: a in s.out ==> PageOf(a) != page
    ensures Counted(l, Retired(l, s, page)) && Split(l, Retired(l, s, page)) && PoolApart(Retired(l, s, page))
  {
    hide PageOf, Item, NoDuplicates, IsItem;
    var dead := ItemSet(l, page, PerPage(l));
    ItemSetSize(l, page);
    WithoutMembers(s.free, dead);
    RetiredSplit(l, s, page);
    forall p | p in s.counts && p != page ensures FreeIn(Without(s.free, dead), p) == FreeIn(s.free, p) {
    }
  }

  lemma RetiredSplit(l: Layout, s: State, page: nat)
    requires Fits(l) && Counted(l, s) && Split(l, s) && PoolApart(s) && page in s.counts
    requires forall a :: a in s.out ==> PageOf(a) != page
    ensures Split(l, Retired(l, s, page)) && PoolApart(Retired(l, s, page))
  {
    hide PageOf, Item, NoDuplicates, IsItem, Without;
    var t, dead := Retired(l, s, page), ItemSet(l, page, PerPage(l));
    ItemSetSize(l, page);
    WithoutMembers(s.free, dead);
    forall p, i: nat | p in t.counts && i < PerPage(l) ensures Item(l, p, i) in t.free || Item(l, p, i) in t.out {
      PageOfItem(l, p, i);
      assert Item(l, p, i) in s.free || Item(l, p, i) in s.out;
    }
  }

  // ----- The code ------------------------------------------------------------------------------------------------

  class Allocator {
    const l: Layout
    /** Set for key control blocks: an allocation may come from the pool. */
    const fallback: bool
    var free: seq<nat>
    var counts: map<nat, nat>
    var pooled: set<nat>
    ghost var out: set<nat>

    ghost function View(): State
      reads this
    {
      State(free, counts, out, pooled)
    }

    ghost predicate Valid()
      reads this
    {
      Fits(l) && Inv(l, View())
    }

    constructor (l: Layout, fallback: bool)
      requires Fits(l)
      ensures Valid() && this.l == l && this.fallback == fallback && Live(View()) == {} && counts == map[]
    {
      this.l, this.fallback := l, fallback;
      free, counts, pooled, out := [], map[], {}, {};
    }

    /** The loop that links the items of a new page. */
    method AddPage(page: nat)
      requires Fits(l) && free == []
      modifies `free, `counts
      ensures View() == Grown(l, old(View()), page)
      ensures |free| == PerPage(l) && forall i :: 0 <= i < |free| ==> free[i] == page + l.head + i * l.size
      ensures counts == old(counts)[page := |free|]
    {
      counts := counts[page := PerPage(l)];
      var i := 0;
      while i < PerPage(l)
        invariant i <= PerPage(l) && free == ItemsFrom(l, page, i)
        invariant counts == old(counts)[page := PerPage(l)]
      {
        free := free + [Item(l, page, i)];
        i := i + 1;
      }
      assert old(free) + free == free;
    }

    method TakeHead() returns (a: nat)
      requires Fits(l) && Counted(l, View()) && Split(l, View()) && PoolApart(View()) && free != []
      requires forall p :: p in counts && p != PageOf(free[0]) ==> exists a :: a in out && PageOf(a) == p
      modifies `free, `counts, `out
      ensures Valid() && a == old(free[0]) && free == old(free[1..]) && a !in old(Live(View()))
      ensures Live(View()) == old(Live(View())) + {a} && counts.Keys == old(counts.Keys)
      ensures pooled == old(pooled) && out == old(out) + {a}
    {
      hide Counted, Split, PoolApart, InUse, PageOf;
      TakenInv(l, View());
      a := free[0];
      free := free[1..];
      counts := counts[PageOf(a) := counts[PageOf(a)] - 1];
      out := out + {a};
    }

    /** CmpAllocateKeyControlBlock and CmpAllocateDelayItem.  `page` and `block` are what the
        pool would answer to a request for a page and for a single block. */
    method Allocate(inited: bool, page: Option<nat>, block: Option<nat>) returns (r: Option<nat>)
      requires Valid() && (!inited ==> fallback)
      requires page.Some? ==> FreshPage(View(), page.value)
      requires block.Some? ==> block.value !in pooled && PageOf(block.value) !in counts
      modifies this
      ensures Valid()
      ensures r.None? <==> (!inited || (old(free) == [] && page.None?)) && (!fallback || block.None?)
      ensures r.None? ==> View() == old(View())
      ensures r.Some? ==> r.value !in old(Live(View())) && Live(View()) == old(Live(View())) + {r.value}
      ensures r.Some? ==> (r.value in out <==> inited && (old(free) != [] || page.Some?))
      ensures inited && old(free) != [] ==> r == Some(old(free[0])) && free == old(free[1..])
      ensures counts.Keys == old(counts.Keys) + if inited && old(free) == [] && page.Some? then {page.value} else {}
    {
      hide Counted, Split, PoolApart, PageOf, IsItem;
      if inited {
        if free == [] && page.Some? {
          GrowthReady(l, View(), page.value);
          AddPage(page.value);
        }
        if free != [] {
          var a := TakeHead();
          return Some(a);
        }
      }
      if fallback && block.Some? {
        PooledInv(l, View(), block.value);
        pooled := pooled + {block.value};
        return block;
      }
      return None;
    }

    /** The loop that unlinks the items of a page that is about to go. */
    method DropPage(page: nat)
      requires Fits(l) && NoDuplicates(free)
      modifies `free, `counts
      ensures View() == Retired(l, old(View()), page)
      ensures counts == old(counts) - {page} && forall b :: b in free <==> b in old(free) && b !in ItemSet(l, page, PerPage(l))
    {
      hide Item;
      WithoutMembers(free, ItemSet(l, page, PerPage(l)));
      WithoutNone(free);
      assert ItemSet(l, page, 0) == {};
      var i := 0;
      while i < PerPage(l)
        invariant i <= PerPage(l) && free == Without(old(free), ItemSet(l, page, i))
        invariant counts == old(counts)
      {
        NextItem(l, page, i);
        WithoutMore(old(free), ItemSet(l, page, i), Item(l, page, i));
        free := Remove(free, Item(l, page, i));
        i := i + 1;
      }
      counts := counts - {page};
    }

    /** CmpFreeKeyControlBlock and CmpFreeDelayItem.  A page is given back exactly when its
        last item in use is freed, and then no item of it stays on the list. */
    method Free(a: nat) returns (gone: bool)
      requires Valid() && a in Live(View())
      modifies this
      ensures Valid() && Live(View()) == old(Live(View())) - {a}
      ensures gone <==> a in old(out) && forall b :: b in old(out) && b != a ==> PageOf(b) != PageOf(a)
      ensures counts.Keys == old(counts.Keys) - if gone then {PageOf(a)} else {}
      ensures gone ==> forall b :: b in free ==> PageOf(b) != PageOf(a)
      ensures a in old(out) && !gone ==> free == old(free) + [a]
    {
      hide Counted, Split, PoolApart, PageOf, Without;
      OutAndPool(l, View());
      if a in pooled {
        UnpooledInv(l, View(), a);
        pooled := pooled - {a};
        return false;
      }
      var page := PageOf(a);
      PutReady(l, View(), a);
      free := free + [a];
      counts := counts[page := counts[page] + 1];
      out := out - {a};
      FullMeansUnused(l, View(), page);
      gone := counts[page] == PerPage(l);
      StillUsed(l, old(View()), a);
      if gone {
        RetiredInv(l, View(), page);
        CountedDistinct(l, View());
        DropPage(page);
        CountedPages(l, View());
      }
    }
  }

  lemma OutAndPool(l: Layout, s: State)
    requires Fits(l) && Inv(l, s)
    ensures s.out !! s.pooled
  {
    hide Counted, InUse, PageOf, IsItem;
  }

  lemma CountedDistinct(l: Layout, s: State)
    requires Fits(l) && Counted(l, s)
    ensures NoDuplicates(s.free)
  {
  }

  lemma CountedPages(l: Layout, s: State)
    requires Fits(l) && Counted(l, s)
    ensures forall b :: b in s.free ==> PageOf(b) in s.counts
  {
  }

  lemma NextItem(l: Layout, page: nat, i: nat)
    requires Fits(l)
    ensures Item(l, page, i) !in ItemSet(l, page, i)
    ensures ItemSet(l, page, i + 1) == ItemSet(l, page, i) + {Item(l, page, i)}
  {
    hide Item;
    forall k: nat | k < i ensures Item(l, page, k) != Item(l, page, i) {
      ItemsDiffer(l, page, k, i);
    }
  }

  lemma PutReady(l: Layout, s: State, a: nat)
    requires Fits(l) && Inv(l, s) && a in s.out
    ensures PageOf(a) in s.counts
    ensures Counted(l, Put(s, a)) && Split(l, Put(s, a)) && PoolApart(Put(s, a))
  {
    hide PageOf, IsItem;
    PutCounted(l, s, a);
    PutSplit(l, s, a);
  }

  /** Freeing `a` leaves every other page in use. */
  lemma StillUsed(l: Layout, s: State, a: nat)
    requires Fits(l) && Inv(l, s) && a in s.out
    ensures forall p :: p in s.counts && p != PageOf(a) ==> exists b :: b in s.out - {a} && PageOf(b) == p
    ensures (exists b :: b in s.out - {a} && PageOf(b) == PageOf(a))
        <==> !forall b :: b in s.out && b != a ==> PageOf(b) != PageOf(a)
  {
    hide Counted, Split, PoolApart, PageOf;
    forall p | p in s.counts && p != PageOf(a) ensures exists b :: b in s.out - {a} && PageOf(b) == p {
      var b :| b in s.out && PageOf(b) == p;
      assert b in s.out - {a};
    }
  }

  lemma GrowthReady(l: Layout, s: State, page: nat)
    requires Fits(l) && Inv(l, s) && s.free == [] && FreshPage(s, page)
    ensures var t := Grown(l, s, page);
            && Counted(l, t) && Split(l, t) && PoolApart(t) && t.free != [] && PageOf(t.free[0]) == page
            && forall p :: p in t.counts && p != page ==> exists a :: a in t.out && PageOf(a) == p
  {
    hide PageOf, Item, IsItem;
    GrownCounted(l, s, page);
    GrownSplit(l, s, page);
    PerPagePositive(l);
    PageOfItem(l, page, 0);
    assert Grown(l, s, page).free[0] == Item(l, page, 0);
  }

  lemma PooledInv(l: Layout, s: State, b: nat)
    requires Fits(l) && Inv(l, s) && PageOf(b) !in s.counts
    ensures Inv(l, s.(pooled := s.pooled + {b})) && b !in s.out
  {
    hide PageOf, IsItem, NoDuplicates, Item;
  }

  lemma UnpooledInv(l: Layout, s: State, b: nat)
    requires Fits(l) && Inv(l, s)
    ensures Inv(l, s.(pooled := s.pooled - {b}))
  {
    hide PageOf, IsItem, NoDuplicates, Item;
  }

  /** Two blocks a caller holds from the allocator's pages never overlap. */
  lemma HeldApart(l: Layout, s: State, a: nat, b: nat)
    requires Fits(l) && Inv(l, s) && a in s.out && b in s.out && a != b
    ensures a + l.size <= b || b + l.size <= a
  {
    hide Item, PageOf, InUse, NoDuplicates;
    var i: nat :| i < PerPage(l) && a == Item(l, PageOf(a), i);
    var j: nat :| j < PerPage(l) && b == Item(l, PageOf(b), j);
    ItemsDisjoint(l, PageOf(a), i, PageOf(b), j);
  }
}
