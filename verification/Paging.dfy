/** The page tables the loader builds, and how the processor reads them: 32-bit paging,
    section 4.3 of volume 3A of the Intel 64 and IA-32 Architectures Software Developer's
    Manual.  Physical memory is an array of 32-bit words. */
module Paging {
  import opened Lists

  const PAGE_SIZE: nat := 0x1000
  const TABLE: nat := 1024
  /** Words in 128 MB. */
  const RAM_WORDS: nat := 0x200_0000

  const PD_PA: nat := 0xF000
  const PT_LOW_PA: nat := 0x07F0_0000
  const PT_KSEG0_PA: nat := 0x07F0_4000
  const PT_KSEG0_COUNT: nat := 17
  const PT_PCR_PA: nat := 0x07F1_5000
  const PCR_REGION_PA: nat := 0x3_0000
  const PCR_REGION_VA: nat := 0xFFDF_0000
  const PCR_REGION_PAGES: nat := 16
  const KSEG0_BASE: nat := 0x8000_0000
  const SELF_INDEX: nat := 0x300
  const PTE_BASE: nat := 0xC000_0000

  /** `x | PTE_FLAGS`: present and writable. */
  function WithFlags(x: nat): nat {
    x - x % 4 + 3
  }

  function PdIndex(va: nat): nat {
    va / 0x40_0000 % TABLE
  }

  function PtIndex(va: nat): nat {
    va / PAGE_SIZE % TABLE
  }

  // ----- What the processor does ----------------------------------------------------------------

  function Read(mem: seq<nat>, pa: nat): nat {
    if pa / 4 < |mem| then mem[pa / 4] else 0
  }

  predicate Present(entry: nat) {
    entry % 2 == 1
  }

  /** Bit 7 of a directory entry: it maps 4 MB itself (CR4.PSE is set). */
  predicate Large(pde: nat) {
    pde / 128 % 2 == 1
  }

  /** The bits of an entry above the low twelve. */
  function Frame(entry: nat): nat {
    entry - entry % PAGE_SIZE
  }

  function Pde(mem: seq<nat>, va: nat): nat {
    Read(mem, PD_PA + 4 * PdIndex(va))
  }

  /** Where the entry that maps `va` lies, below a directory entry that points to a table. */
  function PteAddress(mem: seq<nat>, va: nat): nat {
    Frame(Pde(mem, va)) + 4 * PtIndex(va)
  }

  function Walk(mem: seq<nat>, va: nat): Option<nat> {
    var pde := Pde(mem, va);
    if !Present(pde) then None
    else if Large(pde) then Some(pde - pde % 0x40_0000 + va % 0x40_0000)
    else
      var pte := Read(mem, PteAddress(mem, va));
      if !Present(pte) then None else Some(Frame(pte) + va % PAGE_SIZE)
  }

  // ----- What the loader leaves behind ------------------------------------------------------------

  /** The directory: 4 tables for the low 16 MB, 17 for KSEG0, itself, and one for the PCR. */
  function Directory(i: nat): nat {
    if i < 4 then PT_LOW_PA + i * PAGE_SIZE + 3
    else if 0x200 <= i < 0x200 + PT_KSEG0_COUNT then PT_KSEG0_PA + (i - 0x200) * PAGE_SIZE + 3
    else if i == SELF_INDEX then PD_PA + 3
    else if i == 0x3FF then PT_PCR_PA + 3
    else 0
  }

  function PcrTable(j: nat): nat {
    if 0x1F0 <= j < 0x1F0 + PCR_REGION_PAGES then PCR_REGION_PA + (j - 0x1F0) * PAGE_SIZE + 3 else 0
  }

  /** The four regions of words that make up the tables. */
  ghost predicate Tables(mem: seq<nat>) {
    && |mem| == RAM_WORDS
    && (forall w :: PD_PA / 4 <= w < PD_PA / 4 + TABLE ==> mem[w] == Directory(w - PD_PA / 4))
    && (forall w :: PT_LOW_PA / 4 <= w < PT_LOW_PA / 4 + 4 * TABLE ==> mem[w] == (w - PT_LOW_PA / 4) * PAGE_SIZE + 3)
    && (forall w :: PT_KSEG0_PA / 4 <= w < PT_KSEG0_PA / 4 + PT_KSEG0_COUNT * TABLE ==>
          mem[w] == (w - PT_KSEG0_PA / 4) * PAGE_SIZE + 3)
    && (forall w :: PT_PCR_PA / 4 <= w < PT_PCR_PA / 4 + TABLE ==> mem[w] == PcrTable(w - PT_PCR_PA / 4))
  }

  /** The map the loader means to set up. */
  function Intended(va: nat): Option<nat> {
    if va < 0x100_0000 then Some(va)
    else if KSEG0_BASE <= va < KSEG0_BASE + 0x440_0000 then Some(va - KSEG0_BASE)
    else if PTE_BASE <= va < PTE_BASE + 0x40_0000 then
      var pde := Directory((va - PTE_BASE) / PAGE_SIZE);
      if pde == 0 then None else Some(pde - 3 + va % PAGE_SIZE)
    else if PCR_REGION_VA <= va < PCR_REGION_VA + PCR_REGION_PAGES * PAGE_SIZE then Some(va - PCR_REGION_VA + PCR_REGION_PA)
    else None
  }

  /** The two indices and the offset make up the address. */
  lemma Decompose(va: nat)
    requires va < 0x1_0000_0000
    ensures PdIndex(va) < TABLE && PtIndex(va) < TABLE
    ensures va == PdIndex(va) * 0x40_0000 + PtIndex(va) * PAGE_SIZE + va % PAGE_SIZE
  {
  }

  lemma EntryFacts(frame: nat)
    requires frame % PAGE_SIZE == 0
    ensures Present(frame + 3) && !Large(frame + 3) && Frame(frame + 3) == frame
  {
  }

  lemma WalkVia(mem: seq<nat>, va: nat, table: nat, pte: nat)
    requires Pde(mem, va) == table + 3 && table % PAGE_SIZE == 0 && Read(mem, table + 4 * PtIndex(va)) == pte
    ensures PteAddress(mem, va) == table + 4 * PtIndex(va)
    ensures pte == 0 ==> Walk(mem, va) == None
    ensures pte >= 3 && (pte - 3) % PAGE_SIZE == 0 ==> Walk(mem, va) == Some(pte - 3 + va % PAGE_SIZE)
  {
    hide Pde, Read, PtIndex, Present, Large, Frame;
    EntryFacts(table);
    if pte >= 3 && (pte - 3) % PAGE_SIZE == 0 {
      EntryFacts(pte - 3);
    } else if pte == 0 {
      ZeroAbsent();
    }
  }

  lemma ZeroAbsent()
    ensures !Present(0)
  {
  }

  lemma PdeIs(mem: seq<nat>, va: nat)
    requires Tables(mem) && va < 0x1_0000_0000
    ensures Pde(mem, va) == Directory(PdIndex(va))
  {
    hide PdIndex, Directory, PcrTable;
    Decompose(va);
  }

  lemma WalkLow(mem: seq<nat>, va: nat)
    requires Tables(mem) && va < 0x100_0000
    ensures Walk(mem, va) == Some(va)
  {
    hide PdIndex, PtIndex, Walk, PcrTable, Pde;
    Decompose(va);
    PdeIs(mem, va);
    var i, j := PdIndex(va), PtIndex(va);
    WalkVia(mem, va, PT_LOW_PA + i * PAGE_SIZE, (i * TABLE + j) * PAGE_SIZE + 3);
  }

  lemma WalkKseg0(mem: seq<nat>, va: nat)
    requires Tables(mem) && KSEG0_BASE <= va < KSEG0_BASE + 0x440_0000
    ensures Walk(mem, va) == Some(va - KSEG0_BASE)
  {
    hide PdIndex, PtIndex, Walk, PcrTable, Pde;
    Decompose(va);
    PdeIs(mem, va);
    var i, j := PdIndex(va) - 0x200, PtIndex(va);
    WalkVia(mem, va, PT_KSEG0_PA + i * PAGE_SIZE, (i * TABLE + j) * PAGE_SIZE + 3);
  }

  lemma DirectoryEntry(i: nat)
    requires i < TABLE
    ensures Directory(i) == 0 || (Directory(i) >= 3 && (Directory(i) - 3) % PAGE_SIZE == 0)
  {
  }

  lemma WalkSelf(mem: seq<nat>, va: nat)
    requires Tables(mem) && PTE_BASE <= va < PTE_BASE + 0x40_0000
    ensures Walk(mem, va) == Intended(va)
  {
    hide PdIndex, PtIndex, Walk, PcrTable, Pde;
    Decompose(va);
    PdeIs(mem, va);
    var j := PtIndex(va);
    DirectoryEntry(j);
    WalkVia(mem, va, PD_PA, Directory(j));
    assert j == (va - PTE_BASE) / PAGE_SIZE;
  }

  /** The last 4 MB: the PCR's window and nothing else. */
  lemma WalkPcr(mem: seq<nat>, va: nat)
    requires Tables(mem) && 0xFFC0_0000 <= va < 0x1_0000_0000
    ensures Walk(mem, va) == Intended(va)
  {
    hide PdIndex, PtIndex, Walk, Pde;
    Decompose(va);
    PdeIs(mem, va);
    WalkVia(mem, va, PT_PCR_PA, PcrTable(PtIndex(va)));
  }

  lemma WalkElsewhere(mem: seq<nat>, va: nat)
    requires Tables(mem) && va < 0x1_0000_0000 && Directory(PdIndex(va)) == 0
    ensures Walk(mem, va) == None
  {
    hide Tables, Directory, PdIndex;
    PdeIs(mem, va);
  }

  /** Every 32-bit virtual address walks to the physical address it is meant to, or nowhere. */
  lemma WalksAsIntended(mem: seq<nat>, va: nat)
    requires Tables(mem) && va < 0x1_0000_0000
    ensures Walk(mem, va) == Intended(va)
  {
    hide Tables, Walk, PdIndex;
    Decompose(va);
    if va < 0x100_0000 {
      WalkLow(mem, va);
    } else if KSEG0_BASE <= va < KSEG0_BASE + 0x440_0000 {
      WalkKseg0(mem, va);
    } else if PTE_BASE <= va < PTE_BASE + 0x40_0000 {
      WalkSelf(mem, va);
    } else if 0xFFC0_0000 <= va {
      WalkPcr(mem, va);
    } else {
      WalkElsewhere(mem, va);
    }
  }

  /** Present and writable. */
  predicate Writable(entry: nat) {
    entry % 4 == 3
  }

  /** The entries that map `va`, in the directory and in its table. */
  predicate MapsWritable(mem: seq<nat>, va: nat) {
    Writable(Pde(mem, va)) && (Writable(Read(mem, PteAddress(mem, va))) || !Present(Read(mem, PteAddress(mem, va))))
  }

  lemma WritableVia(mem: seq<nat>, va: nat, table: nat, pte: nat)
    requires Pde(mem, va) == table + 3 && table % PAGE_SIZE == 0 && Read(mem, table + 4 * PtIndex(va)) == pte
    requires pte == 0 || (pte >= 3 && (pte - 3) % PAGE_SIZE == 0)
    ensures MapsWritable(mem, va)
  {
    hide Pde, Read, PtIndex, Frame;
    assert PteAddress(mem, va) == table + 4 * PtIndex(va) by { WalkVia(mem, va, table, pte); }
    FlagBits(table);
    if pte != 0 {
      FlagBits(pte - 3);
    }
  }

  lemma FlagBits(frame: nat)
    requires frame % PAGE_SIZE == 0
    ensures Writable(frame + 3)
  {
  }

  lemma WritableTables(mem: seq<nat>, va: nat)
    requires Tables(mem) && va < 0x1_0000_0000 && (PdIndex(va) < 4 || 0x200 <= PdIndex(va) < 0x200 + PT_KSEG0_COUNT)
    ensures MapsWritable(mem, va)
  {
    hide PdIndex, PtIndex, MapsWritable, PcrTable, Pde;
    Decompose(va);
    PdeIs(mem, va);
    var i, j := PdIndex(va), PtIndex(va);
    if i < 4 {
      WritableVia(mem, va, PT_LOW_PA + i * PAGE_SIZE, (i * TABLE + j) * PAGE_SIZE + 3);
    } else {
      WritableVia(mem, va, PT_KSEG0_PA + (i - 0x200) * PAGE_SIZE, ((i - 0x200) * TABLE + j) * PAGE_SIZE + 3);
    }
  }

  lemma WritableTop(mem: seq<nat>, va: nat)
    requires Tables(mem) && va < 0x1_0000_0000 && (PdIndex(va) == SELF_INDEX || PdIndex(va) == 0x3FF)
    ensures MapsWritable(mem, va)
  {
    hide PdIndex, PtIndex, MapsWritable, Pde;
    Decompose(va);
    PdeIs(mem, va);
    var j := PtIndex(va);
    DirectoryEntry(j);
    if PdIndex(va) == SELF_INDEX {
      WritableVia(mem, va, PD_PA, Directory(j));
    } else {
      WritableVia(mem, va, PT_PCR_PA, PcrTable(j));
    }
  }

  /** Whatever is mapped is mapped writable, in the directory and in the table. */
  lemma AllWritable(mem: seq<nat>, va: nat)
    requires Tables(mem) && va < 0x1_0000_0000 && Walk(mem, va).Some?
    ensures Pde(mem, va) % 4 == 3 && Read(mem, PteAddress(mem, va)) % 4 == 3
  {
    hide Tables, PdIndex, PteAddress, Pde;
    PdeIs(mem, va);
    var i := PdIndex(va);
    if i < 4 || 0x200 <= i < 0x200 + PT_KSEG0_COUNT {
      WritableTables(mem, va);
    } else if i == SELF_INDEX || i == 0x3FF {
      WritableTop(mem, va);
    }
    SmallPages(mem, va);
  }

  lemma SmallPages(mem: seq<nat>, va: nat)
    requires Tables(mem) && va < 0x1_0000_0000 && Walk(mem, va).Some?
    ensures Present(Pde(mem, va)) && Present(Read(mem, PteAddress(mem, va)))
  {
    hide Tables, Pde, PteAddress, Large;
    SelfMapShowsPte(mem, va);
  }

  /** MiAddressToPte: for every address below a table, the word seen at PTE_BASE plus four
      times the page number is the very entry the processor uses for that address. */
  lemma SelfMapShowsPte(mem: seq<nat>, va: nat)
    requires Tables(mem) && va < 0x1_0000_0000
    ensures Present(Pde(mem, va)) ==> !Large(Pde(mem, va))
    ensures Walk(mem, PTE_BASE + va / PAGE_SIZE * 4) == if Present(Pde(mem, va)) then Some(PteAddress(mem, va)) else None
  {
    hide Tables, Walk, PdIndex, PtIndex, Pde, Directory, Large, Present, Frame;
    var at := PTE_BASE + va / PAGE_SIZE * 4;
    Decompose(va);
    Aperture(va);
    PdeIs(mem, va);
    WalkSelf(mem, at);
    var pde := Directory(PdIndex(va));
    DirectoryEntry(PdIndex(va));
    ZeroAbsent();
    if pde != 0 {
      EntryFacts(pde - 3);
    }
  }

  lemma Aperture(va: nat)
    requires va < 0x1_0000_0000
    ensures var at := PTE_BASE + va / PAGE_SIZE * 4;
            at < PTE_BASE + 0x40_0000 && (at - PTE_BASE) / PAGE_SIZE == PdIndex(va) && at % PAGE_SIZE == 4 * PtIndex(va)
  {
    hide PdIndex, PtIndex;
    Decompose(va);
    var i, j := PdIndex(va), PtIndex(va);
    Quotient(i * TABLE + j, va % PAGE_SIZE);
    Quotient(i, 4 * j);
    Quotient(PTE_BASE / PAGE_SIZE + i, 4 * j);
  }

  lemma Quotient(q: nat, r: nat)
    requires r < PAGE_SIZE
    ensures (q * PAGE_SIZE + r) / PAGE_SIZE == q && (q * PAGE_SIZE + r) % PAGE_SIZE == r
  {
  }

  // ----- The loops -----------------------------------------------------------------------------------

  /** A table of 1024 words from word `at` on that maps 4 MB from `pa` on. */
  method FillTable(mem: array<nat>, at: nat, pa: nat)
    requires at + TABLE <= mem.Length && pa % PAGE_SIZE == 0
    modifies mem
    ensures forall w :: 0 <= w < mem.Length ==>
              mem[w] == if at <= w < at + TABLE then pa + (w - at) * PAGE_SIZE + 3 else old(mem[w])
  {
    for j := 0 to TABLE
      invariant forall w :: 0 <= w < mem.Length ==>
                  mem[w] == if at <= w < at + j then pa + (w - at) * PAGE_SIZE + 3 else old(mem[w])
    {
      mem[at + j] := WithFlags(pa + j * PAGE_SIZE);
    }
  }

  /** memset to zero. */
  method Clear(mem: array<nat>, at: nat, words: nat)
    requires at + words <= mem.Length
    modifies mem
    ensures forall w :: 0 <= w < mem.Length ==> mem[w] == if at <= w < at + words then 0 else old(mem[w])
  {
    for i := 0 to words
      invariant forall w :: 0 <= w < mem.Length ==> mem[w] == if at <= w < at + i then 0 else old(mem[w])
    {
      mem[at + i] := 0;
    }
  }

  /** What word `w` is once `count` tables stand from word `at` on, entered in the directory
      from `first` on; `was` is what it was. */
  function Mapped(w: nat, at: nat, count: nat, first: nat, was: nat): nat {
    if at <= w < at + count * TABLE then (w - at) * PAGE_SIZE + 3
    else if PD_PA / 4 + first <= w < PD_PA / 4 + first + count then 4 * at + (w - PD_PA / 4 - first) * PAGE_SIZE + 3
    else was
  }

  lemma MappedStep(w: nat, at: nat, i: nat, first: nat, was: nat)
    requires first + i < TABLE && PD_PA / 4 + TABLE <= at
    ensures Mapped(w, at, i + 1, first, was) ==
              if at + i * TABLE <= w < at + i * TABLE + TABLE then i * 0x40_0000 + (w - at - i * TABLE) * PAGE_SIZE + 3
              else if w == PD_PA / 4 + first + i then 4 * (at + i * TABLE) + 3
              else Mapped(w, at, i, first, was)
  {
  }

  lemma MappedNone(at: nat, first: nat)
    ensures forall w: nat, was: nat :: Mapped(w, at, 0, first, was) == was
  {
  }

  lemma FlagsOf(x: nat)
    ensures WithFlags(4 * x) == 4 * x + 3
  {
  }

  /** `count` tables from word `at` on, entered in the directory from `first` on. */
  method MapLow(mem: array<nat>, at: nat, count: nat, first: nat)
    requires mem.Length == RAM_WORDS && first + count <= TABLE
    requires PD_PA / 4 + TABLE <= at && at + count * TABLE <= RAM_WORDS
    modifies mem
    ensures forall w :: 0 <= w < RAM_WORDS ==> mem[w] == Mapped(w, at, count, first, old(mem[w]))
  {
    hide Mapped, WithFlags;
    MappedNone(at, first);
    for i := 0 to count
      invariant forall w :: 0 <= w < RAM_WORDS ==> mem[w] == Mapped(w, at, i, first, old(mem[w]))
    {
      FillTable(mem, at + i * TABLE, i * 0x40_0000);
      FlagsOf(at + i * TABLE);
      mem[PD_PA / 4 + first + i] := WithFlags(4 * (at + i * TABLE));
      forall w | 0 <= w < RAM_WORDS ensures mem[w] == Mapped(w, at, i + 1, first, old(mem[w])) {
        MappedStep(w, at, i, first, old(mem[w]));
      }
    }
  }

  /** The PCR's table. */
  method MapPcr(mem: array<nat>)
    requires mem.Length == RAM_WORDS
    modifies mem
    ensures forall w :: 0 <= w < RAM_WORDS ==>
              mem[w] == if PT_PCR_PA / 4 <= w < PT_PCR_PA / 4 + TABLE then PcrTable(w - PT_PCR_PA / 4)
                        else if w == PD_PA / 4 + 0x3FF then PT_PCR_PA + 3 else old(mem[w])
  {
    Clear(mem, PT_PCR_PA / 4, TABLE);
    for i := 0 to PCR_REGION_PAGES
      invariant forall w :: 0 <= w < RAM_WORDS ==>
                  mem[w] == if PT_PCR_PA / 4 <= w < PT_PCR_PA / 4 + 0x1F0 + i then PcrTable(w - PT_PCR_PA / 4)
                            else if PT_PCR_PA / 4 + 0x1F0 + i <= w < PT_PCR_PA / 4 + TABLE then 0 else old(mem[w])
    {
      mem[PT_PCR_PA / 4 + PtIndex(PCR_REGION_VA) + i] := WithFlags(PCR_REGION_PA + i * PAGE_SIZE);
    }
    mem[PD_PA / 4 + PdIndex(PCR_REGION_VA)] := WithFlags(PT_PCR_PA);
  }

  /** Word `w` is not one that PagingInit writes. */
  predicate Untouched(w: nat) {
    && !(PD_PA / 4 <= w < PD_PA / 4 + TABLE)
    && !(PT_LOW_PA / 4 <= w < PT_PCR_PA / 4 + TABLE)
    && !(PCR_REGION_PA / 4 <= w < PCR_REGION_PA / 4 + PCR_REGION_PAGES * TABLE)
  }

  /** PagingInit: the tables stand, the PCR's pages are zero, and all else is as it was. */
  method PagingInit(mem: array<nat>)
    requires mem.Length == RAM_WORDS
    modifies mem
    ensures Tables(mem[..])
    ensures forall w :: PCR_REGION_PA / 4 <= w < PCR_REGION_PA / 4 + PCR_REGION_PAGES * TABLE ==> mem[w] == 0
    ensures forall w :: 0 <= w < RAM_WORDS && Untouched(w) ==> mem[w] == old(mem[w])
  {
    Clear(mem, PD_PA / 4, TABLE);
    MapLow(mem, PT_LOW_PA / 4, 4, 0);
    MapLow(mem, PT_KSEG0_PA / 4, PT_KSEG0_COUNT, PdIndex(KSEG0_BASE));
    mem[PD_PA / 4 + SELF_INDEX] := WithFlags(PD_PA);
    MapPcr(mem);
    Clear(mem, PCR_REGION_PA / 4, PCR_REGION_PAGES * TABLE);
  }
}
