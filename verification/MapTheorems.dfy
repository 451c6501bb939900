/** What one mapping call means: the translations it creates, what it leaves alone,
    repetition, independence of disjoint calls, its page budget, and exactly when
    writing pages into a slot takes effect. */
module MapTheorems {
  import opened Bits
  import opened PgTable
  import opened Translation
  import opened TreeUpdate
  import opened PageAlloc
  import opened MapSpec
  import opened MapSteps
  import opened Mmu
  import opened StrayStores
  import opened Walkers

  /** A whole call on a request, as CreatePgdMapping promises it. */
  ghost predicate Call(s0: State, s1: State, pgd: nat, r: Request)
    requires r.Ok()
  {
    Step(s0, s1, pgd, r, AllKeys(r, r.lo, r.hi), r.lo, r.hi)
  }

  // ----- translations -----

  /** Page or section, the wanted leaf decodes to the requested address and attributes. */
  lemma WantDecodes(r: Request, va: nat)
    requires r.Ok() && r.lo <= va < r.hi
    ensures Decode(Some(r.Want(va)), va) == Mapped(va + r.delta, r.prot / VA_LIMIT, r.prot % 0x1000 / 4)
  {
    r.WantBounds(va);
    if r.Section(va / 0x20_0000) {
      SectionDecodes(va - va % 0x20_0000 + r.delta, r.prot);
    } else {
      PageDecodes(va - va % 0x1000 + r.delta, r.prot);
    }
  }

  /** A descriptor's address field at 4 KB and at 2 MB, and its attributes. */
  lemma PageDecodes(out: nat, prot: Word)
    requires PageAddress(out) && ValidProt(prot)
    ensures (out + prot) % VA_LIMIT / 0x1000 * 0x1000 == out
    ensures (out + prot) / VA_LIMIT == prot / VA_LIMIT && (out + prot) % 0x1000 == prot % 0x1000
  {
    var p, hi, lo := out / 0x1000, prot / VA_LIMIT, prot % VA_LIMIT;
    Fields(p, hi, lo);
    assert out + prot == p * 0x1000 + hi * 0x1_0000_0000_0000 + lo;
    assert (p * 0x1000 + lo) / 0x1000 == p;
  }

  /** The three fields of a descriptor: bits 63..48, 47..12 and 11..0. */
  lemma Fields(p: nat, hi: nat, lo: nat)
    requires p < 0x10_0000_0000 && lo < 0x1000
    ensures (p * 0x1000 + hi * 0x1_0000_0000_0000 + lo) % 0x1_0000_0000_0000 == p * 0x1000 + lo
    ensures (p * 0x1000 + hi * 0x1_0000_0000_0000 + lo) / 0x1_0000_0000_0000 == hi
    ensures (p * 0x1000 + hi * 0x1_0000_0000_0000 + lo) % 0x1000 == lo
    ensures (hi * 0x1_0000_0000_0000 + lo) % 0x1000 == lo
  {
    LowField(p + hi * 0x10_0000_0000, lo);
    LowField(hi * 0x10_0000_0000, lo);
    HighField(hi, p * 0x1000 + lo);
  }

  lemma SectionDecodes(out: nat, prot: Word)
    requires out % 0x20_0000 == 0 && out < VA_LIMIT && ValidProt(prot)
    ensures prot >= 3
    ensures (out + prot - 2) % VA_LIMIT / 0x20_0000 * 0x20_0000 == out
    ensures (out + prot - 2) / VA_LIMIT == prot / VA_LIMIT
    ensures (out + prot - 2) % 0x1000 / 4 == prot % 0x1000 / 4
  {
    LowerProt(prot);
    AlignedDown(out);
    var q, p, hi, lo := out / 0x20_0000, out / 0x1000, prot / VA_LIMIT, prot % VA_LIMIT;
    LowBits(prot);
    Fields(p, hi, lo - 2);
    Fields(p, hi, lo);
    assert out + prot - 2 == p * 0x1000 + hi * 0x1_0000_0000_0000 + (lo - 2);
    assert (q * 0x20_0000 + (lo - 2)) / 0x20_0000 == q;
  }

  lemma LowBits(prot: Word)
    requires ValidProt(prot)
    ensures prot % VA_LIMIT % 4 == 3 && prot % 0x1000 == prot % VA_LIMIT
  {
    Fields(0, prot / VA_LIMIT, prot % VA_LIMIT);
    assert prot == prot / VA_LIMIT * 0x4000_0000_0000 * 4 + prot % VA_LIMIT;
  }

  /** Every address of the range translates as requested; every other address as before. */
  lemma CallTranslates(m0: Memory, m1: Memory, pgd: nat, r: Request, va: nat)
    requires r.Ok() && Installs(m0, m1, pgd, r, r.lo, r.hi) && va < VA_LIMIT
    ensures Translate(m1, pgd, va)
            == if r.lo <= va < r.hi then Mapped(va + r.delta, r.prot / VA_LIMIT, r.prot % 0x1000 / 4)
               else Translate(m0, pgd, va)
  {
    hide LeafOf, Decode;
    if r.lo <= va < r.hi { WantDecodes(r, va); }
  }

  /** A call in terms of its arguments alone: exactly the pages it touches are mapped, each to
      the page of phys as far on; by a 2 MB section exactly where all 512 pages of the slot are
      touched, the two addresses lie alike in their 2 MB, and bit 0 of the flags is clear. */
  lemma CallByPages(m0: Memory, m1: Memory, pgd: nat, phys: Word, virt: Word, size: Word, prot: Word, flags: Word,
                    va: nat)
    requires size > 0 && virt + size <= VA_LIMIT && RequestFor(phys, virt, size, prot, flags).Ok() && va < VA_LIMIT
    requires var r := RequestFor(phys, virt, size, prot, flags); Installs(m0, m1, pgd, r, r.lo, r.hi)
    ensures var first, last := virt / 0x1000, (virt + size - 1) / 0x1000;
            && (!(first <= va / 0x1000 <= last) ==> LeafOf(m1, pgd, va) == LeafOf(m0, pgd, va))
            && (first <= va / 0x1000 <= last ==>
                  && LeafOf(m1, pgd, va).Some?
                  && LeafOf(m1, pgd, va).value.level ==
                       (if first <= va / 0x20_0000 * 512 && va / 0x20_0000 * 512 + 511 <= last
                           && (phys / 0x1000 - first) % 512 == 0 && flags % 2 == 0 then 2 else 3)
                  && Translate(m1, pgd, va)
                     == Mapped((phys / 0x1000 - first) * 0x1000 + va, prot / 0x1_0000_0000_0000, prot % 0x1000 / 4))
  {
    hide LeafOf, Decode, Request.Want, Request.Section, Request.Ok;
    var r := RequestFor(phys, virt, size, prot, flags);
    var first, last := virt / 0x1000, (virt + size - 1) / 0x1000;
    CallFields(phys, virt, size, prot, flags);
    WithinPages(first, last, va);
    if first <= va / 0x1000 <= last {
      WantDecodes(r, va);
      WantLevel(r, va);
      SectionByPages(r, first, last, phys / 0x1000 - first, va / 0x20_0000);
    }
  }

  lemma WantLevel(r: Request, va: nat)
    requires r.Ok() && r.lo <= va < r.hi
    ensures r.Want(va).level == if r.Section(va / 0x20_0000) then 2 else 3
  {
    hide Request.Ok, Request.Section;
  }

  lemma SectionByPages(r: Request, first: nat, last: nat, d: int, m: nat)
    requires r.lo == first * 0x1000 && r.hi == (last + 1) * 0x1000 && r.delta == d * 0x1000
    ensures r.Section(m) <==> first <= m * 512 && m * 512 + 511 <= last && d % 512 == 0 && r.flags % 2 == 0
  {
    PagesInSection(d);
  }

  lemma PagesInSection(d: int)
    ensures d * 0x1000 % 0x20_0000 == 0 <==> d % 512 == 0
  {
    DivisionParts(d, 512);
    Quotient(d * 0x1000, 0x20_0000, d / 512, d % 512 * 0x1000);
  }

  lemma WithinPages(first: nat, last: nat, va: nat)
    ensures first * 0x1000 <= va < (last + 1) * 0x1000 <==> first <= va / 0x1000 <= last
  {
  }

  lemma CallFields(phys: Word, virt: Word, size: Word, prot: Word, flags: Word)
    requires size > 0 && virt + size <= VA_LIMIT
    ensures var r := RequestFor(phys, virt, size, prot, flags);
            && r.lo == virt / 0x1000 * 0x1000 && r.hi == ((virt + size - 1) / 0x1000 + 1) * 0x1000
            && r.delta == (phys / 0x1000 - virt / 0x1000) * 0x1000 && r.prot == prot && r.flags == flags
  {
    hide PageMask, PageAlign;
    PageRounding(virt);
    PageRounding(phys);
    PageRounding(virt + size);
    DivisionParts(virt, 0x1000);
    DivisionParts(phys, 0x1000);
    RoundUp(PageAlign(virt + size), virt + size);
  }

  lemma RoundUp(p: nat, x: nat)
    requires p % 0x1000 == 0 && x > 0 && x <= p < x + 0x1000
    ensures p == ((x - 1) / 0x1000 + 1) * 0x1000
  {
    DivisionParts(p, 0x1000);
    Quotient(x - 1, 0x1000, p / 0x1000 - 1, x - 1 - (p - 0x1000));
  }

  /** Mappings of disjoint ranges commute, as far as any translation can tell. */
  lemma DisjointCallsCommute(m0: Memory, m1: Memory, m12: Memory, m2: Memory, m21: Memory,
                             pgd: nat, r1: Request, r2: Request, va: nat)
    requires r1.Ok() && r2.Ok() && (r1.hi <= r2.lo || r2.hi <= r1.lo) && va < VA_LIMIT
    requires Installs(m0, m1, pgd, r1, r1.lo, r1.hi) && Installs(m1, m12, pgd, r2, r2.lo, r2.hi)
    requires Installs(m0, m2, pgd, r2, r2.lo, r2.hi) && Installs(m2, m21, pgd, r1, r1.lo, r1.hi)
    ensures LeafOf(m12, pgd, va) == LeafOf(m21, pgd, va)
    ensures Translate(m12, pgd, va) == Translate(m21, pgd, va)
  {
    hide LeafOf, Decode, Request.Want;
    assert LeafOf(m12, pgd, va) == LeafOf(m21, pgd, va);
  }

  /** What a whole call does, apart from the number of pages it takes. */
  ghost predicate CallEffect(s0: State, s1: State, pgd: nat, r: Request)
    requires r.Ok()
  {
    Effect(s0, s1, pgd, r, AllKeys(r, r.lo, r.hi), r.lo, r.hi)
  }

  /** Repeating a call allocates nothing and leaves memory as it is. */
  lemma CallAgain(s0: State, s1: State, s2: State, pgd: nat, r: Request)
    requires r.Ok() && CallEffect(s0, s1, pgd, r) && CallEffect(s1, s2, pgd, r)
    ensures s2 == s1
  {
    hide Good, Footprint, LeafOf, AllKeys, SectionKeys;
    AllKeysNotSections(r);
    assert AllKeys(r, r.lo, r.hi) <= s1.tab.Keys;
    assert Installed(s1.mem, pgd, r, r.lo, r.hi);
  }

  /** After a call its range holds no section where it needs pages, and no table is missing. */
  lemma CallReady(s0: State, s1: State, pgd: nat, r: Request)
    requires r.Ok() && Call(s0, s1, pgd, r)
    ensures NoConflict(s1.mem, pgd, r, r.lo, r.hi) && |AllKeys(r, r.lo, r.hi) - s1.tab.Keys| == 0
  {
    hide Good, Footprint, LeafOf, TakesPages, AllKeys, SectionKeys;
    AllKeysNotSections(r);
    assert AllKeys(r, r.lo, r.hi) - s1.tab.Keys == {};
    assert Installed(s1.mem, pgd, r, r.lo, r.hi);
  }

  lemma AllKeysNotSections(r: Request)
    ensures AllKeys(r, r.lo, r.hi) !! SectionKeys(r, r.lo, r.hi)
  {
    KeysByLevel(r, r.lo, r.hi, r.lo, r.hi);
    assert PteKeys(r, r.lo, r.hi) !! SectionKeys(r, r.lo, r.hi);
  }

  /** The same call twice: the second is possible wherever the first was, and changes nothing. */
  method MapTwice(t: PageTables, phys: Word, virt: Word, size: Word, prot: Word, flags: Word)
    returns (ghost once: State)
    requires t.Valid() && virt + size <= VA_LIMIT && RequestFor(phys, virt, size, prot, flags).Ok()
    requires var r := RequestFor(phys, virt, size, prot, flags);
             && NoConflict(t.mem, t.pgd, r, r.lo, r.hi)
             && |t.Now().free| >= |AllKeys(r, r.lo, r.hi) - t.tab.Keys|
    modifies t, t.alloc.memMap
    ensures t.Valid() && Call(old(t.Now()), once, t.pgd, RequestFor(phys, virt, size, prot, flags))
    ensures t.Now() == once
  {
    hide Good, Step, NoConflict, AllKeys, RequestFor, Request.Ok, Takeable, Usable, FreeIn, Call, TopTable;
    ghost var r, s0 := RequestFor(phys, virt, size, prot, flags), t.Now();
    t.CreatePgdMapping(phys, virt, size, prot, flags);
    once := t.Now();
    IsCall(s0, once, t.pgd, r);
    CallReady(s0, once, t.pgd, r);
    t.CreatePgdMapping(phys, virt, size, prot, flags);
    IsCall(once, t.Now(), t.pgd, r);
    IsCallEffect(s0, once, t.pgd, r);
    IsCallEffect(once, t.Now(), t.pgd, r);
    CallAgain(s0, once, t.Now(), t.pgd, r);
  }

  lemma IsCallEffect(s0: State, s1: State, pgd: nat, r: Request)
    requires r.Ok() && Call(s0, s1, pgd, r)
    ensures CallEffect(s0, s1, pgd, r)
  {
    hide Effect, AllKeys;
  }

  // ----- page budget -----

  /** How many level-L entries [a, e) touches: 512 GB each at level 0, 1 GB at level 1. */
  function SlotsTouched(level: nat, a: nat, e: nat): int
    requires a < e
  {
    Slot(level, e - 1) - Slot(level, a) + 1
  }

  ghost function LevelKeys(level: nat, lo: int, hi: int): set<Key> {
    set n: nat | lo <= n <= hi :: Key(level, n)
  }

  lemma {:induction false} LevelKeysSize(level: nat, lo: nat, hi: int)
    requires lo <= hi + 1
    ensures |LevelKeys(level, lo, hi)| == hi + 1 - lo
    decreases hi + 1 - lo
  {
    if lo == hi + 1 {
      assert LevelKeys(level, lo, hi) == {};
    } else {
      LevelKeysSize(level, lo, hi - 1);
      assert LevelKeys(level, lo, hi) == LevelKeys(level, lo, hi - 1) + {Key(level, hi)};
    }
  }

  /** Where blocks are allowed and the offset is a multiple of 2 MB, only the two ends need pages. */
  lemma PteKeysAtEnds(r: Request)
    requires r.Ok() && r.delta % 0x20_0000 == 0 && r.flags % 2 == 0
    ensures PteKeys(r, r.lo, r.hi) <= {Key(3, r.lo / 0x20_0000), Key(3, (r.hi - 1) / 0x20_0000)}
  {
    forall m | r.lo / 0x20_0000 < m < (r.hi - 1) / 0x20_0000 ensures r.Section(m) {
    }
  }

  lemma KeyCounts(a: nat, e: nat)
    requires a < e
    ensures |PudKeys(a, e)| == SlotsTouched(0, a, e)
    ensures |PmdKeys(a, e)| == SlotsTouched(1, a, e)
  {
    LevelKeysSize(1, a / 0x80_0000_0000, (e - 1) / 0x80_0000_0000);
    LevelKeysSize(2, a / 0x4000_0000, (e - 1) / 0x4000_0000);
    assert PudKeys(a, e) == LevelKeys(1, a / 0x80_0000_0000, (e - 1) / 0x80_0000_0000);
    assert PmdKeys(a, e) == LevelKeys(2, a / 0x4000_0000, (e - 1) / 0x4000_0000);
  }

  /** One call takes at most a page per 512 GB slot, a page per 1 GB slot, and two more. */
  lemma CallBudget(s0: State, s1: State, r: Request)
    requires r.Ok() && TakesPages(s0, s1, AllKeys(r, r.lo, r.hi)) && r.delta % 0x20_0000 == 0 && r.flags % 2 == 0
    ensures |s0.free| - |s1.free| <= SlotsTouched(0, r.lo, r.hi) + SlotsTouched(1, r.lo, r.hi) + 2
  {
    hide SlotsTouched, PteKeys, PmdKeys, PudKeys, Request.Section;
    PteKeysAtEnds(r);
    KeyCounts(r.lo, r.hi);
    BudgetSets(AllKeys(r, r.lo, r.hi), PudKeys(r.lo, r.hi), PmdKeys(r.lo, r.hi), PteKeys(r, r.lo, r.hi), s0.tab.Keys,
               Key(3, r.lo / 0x20_0000), Key(3, (r.hi - 1) / 0x20_0000));
  }

  lemma BudgetSets(all: set<Key>, x: set<Key>, y: set<Key>, z: set<Key>, t: set<Key>, first: Key, last: Key)
    requires all == x + y + z && z <= {first, last}
    ensures |all - t| <= |x| + |y| + 2
  {
    SubsetSize(all - t, x + y + {first, last});
    assert |x + y + {first, last}| <= |x| + |y| + |{first, last}|;
    if first == last { assert {first, last} == {first}; }
  }

  /** A call takes exactly one page for each table it needs and does not find. */
  lemma CallPages(s0: State, s1: State, pgd: nat, r: Request)
    requires r.Ok() && Call(s0, s1, pgd, r)
    ensures r.lo < r.hi && |s0.free| - |s1.free| == |AllKeys(r, r.lo, r.hi) - s0.tab.Keys|
    ensures AllKeys(r, r.lo, r.hi) == PudKeys(r.lo, r.hi) + PmdKeys(r.lo, r.hi) + PteKeys(r, r.lo, r.hi)
  {
    hide Good, Footprint, Installs, Installed, SectionKeys, PteKeys, PmdKeys, PudKeys;
  }

  // ----- when pages take effect -----

  /** A level-2 entry that is not empty is a table pointer exactly when its table exists. */
  lemma PmdEntry(s: State, pgd: nat, k: Key, i: nat)
    requires Good(s, pgd) && k in s.tab && k.level == 2 && i < 512 && Entry(s.mem, s.tab, k, i) != 0
    ensures DescType(Entry(s.mem, s.tab, k, i)) == TYPE_TABLE <==> Child(k, i) in s.tab
    ensures Child(k, i) in s.tab ==> PagePaddr(Entry(s.mem, s.tab, k, i)) == s.tab[Child(k, i)]
  {
    assert SlotOk(s.mem, s.tab, k, i);
    if Child(k, i) in s.tab {
      assert KeyOk(s.tab, Child(k, i));
      TableAddress(s.tab[Child(k, i)]);
    }
  }

  lemma PaddrAligned(d: Word)
    ensures PagePaddr(d) % 0x1000 == 0
  {
    hide PagePaddr;
    var hi, rest := d / 0x1_0000_0000_0000, d % 0x1_0000_0000_0000;
    Fields(rest / 0x1000, hi, rest % 0x1000);
  }

  /** The stores of alloc_init_pte's loop, n pages from ptep on. */
  ghost function PteStores(mem: Memory, ptep: nat, phys: nat, prot: Word, n: nat): Memory
    requires phys + n * 0x1000 <= VA_LIMIT
  {
    if n == 0 then mem
    else PteStores(mem, ptep, phys, prot, n - 1)[ptep + 8 * (n - 1) := PfnPte(Shr(phys + (n - 1) * 0x1000, 12), prot)]
  }

  lemma {:induction false} StoresInside(mem: Memory, ptep: nat, phys: nat, prot: Word, n: nat, at: nat)
    requires phys + n * 0x1000 <= VA_LIMIT && !(ptep <= at < ptep + 8 * n)
    ensures Load(PteStores(mem, ptep, phys, prot, n), at) == Load(mem, at)
  {
    hide PfnPte, Shr;
    if n > 0 { StoresInside(mem, ptep, phys, prot, n - 1, at); }
  }

  lemma {:induction false} StoreAt(mem: Memory, ptep: nat, phys: nat, prot: Word, n: nat, j: nat)
    requires phys % 0x1000 == 0 && phys + n * 0x1000 <= VA_LIMIT && ValidProt(prot) && j < n
    ensures PageAddress(phys + j * 0x1000) && phys + j * 0x1000 + prot < 0x1_0000_0000_0000_0000
    ensures Load(PteStores(mem, ptep, phys, prot, n), ptep + 8 * j) == phys + j * 0x1000 + prot
  {
    hide PfnPte, Shr;
    NthPage(phys, j);
    PageDescriptor(phys + j * 0x1000, prot);
    if j < n - 1 { StoreAt(mem, ptep, phys, prot, n - 1, j); }
  }

  lemma NthPage(phys: nat, j: nat)
    requires phys % 0x1000 == 0
    ensures (phys + j * 0x1000) % 0x1000 == 0
  {
    DivisionParts(phys, 0x1000);
    Quotient(phys + j * 0x1000, 0x1000, phys / 0x1000 + j, 0);
  }

  /** A page descriptor in a table of level L: a leaf at level 3, above it the address of a table. */
  function PageAsTable(m: Memory, level: nat, page: nat, prot: Word, va: nat): Option<Leaf>
    requires level <= 3
  {
    if level == 3 then Some(Leaf(3, U64(page + prot))) else ReadLeaf(m, Walk(m, page, level + 1, va))
  }

  /** A page descriptor, taken for a table descriptor, leads to the page. */
  lemma PageAsPointer(page: nat, prot: Word)
    requires PageAddress(page) && ValidProt(prot) && page + prot < 0x1_0000_0000_0000_0000
    ensures (page + prot) % 4 == 3 && PagePaddr(page + prot) == page
  {
    hide PagePaddr;
    PageDecodes(page, prot);
    SumMod4(page, prot);
    var d := page + prot;
    LowBits(prot);
    Fields(page / 0x1000, prot / VA_LIMIT, prot % VA_LIMIT);
    assert d == page / 0x1000 * 0x1000 + prot / VA_LIMIT * 0x1_0000_0000_0000 + prot % VA_LIMIT;
  }

  /** Stores into a page that holds table k. */
  lemma StoresIntoTable(s: State, pgd: nat, k: Key, first: nat, phys: nat, prot: Word, n: nat, va: nat)
    requires Good(s, pgd) && k in s.tab && k.level <= 3 && first + n <= 512 && va < VA_LIMIT
    requires phys % 0x1000 == 0 && phys + n * 0x1000 <= VA_LIMIT && ValidProt(prot)
    ensures var m1 := PteStores(s.mem, s.tab[k] + 8 * first, phys, prot, n);
            LeafOf(m1, pgd, va)
            == if Through(k, first, n, va)
               then PageAsTable(m1, k.level, phys + (Index(k.level, va) - first) * 0x1000, prot, va)
               else LeafOf(s.mem, pgd, va)
  {
    hide WellFormed, Owned, Walk, PagePaddr, Slot, PteStores, ValidProt, Load;
    var m1 := PteStores(s.mem, s.tab[k] + 8 * first, phys, prot, n);
    StoresOverwrite(s, pgd, k, first, phys, prot, n);
    OverwrittenWalk(s.mem, m1, s.tab, pgd, k, first, n, va);
    if Through(k, first, n, va) {
      var j := Index(k.level, va) - first;
      StoreAt(s.mem, s.tab[k] + 8 * first, phys, prot, n, j);
      PageAsPointer(phys + j * 0x1000, prot);
      assert s.tab[k] + 8 * first + 8 * j == s.tab[k] + 8 * Index(k.level, va);
      PointerWalk(m1, s.tab[k], k.level, phys + j * 0x1000, prot, va);
    }
  }

  lemma PointerWalk(m: Memory, base: nat, level: nat, page: nat, prot: Word, va: nat)
    requires level <= 3 && page + prot < 0x1_0000_0000_0000_0000
    requires Load(m, base + 8 * Index(level, va)) == page + prot
    requires (page + prot) % 4 == 3 && PagePaddr(page + prot) == page
    ensures ReadLeaf(m, Walk(m, base, level, va)) == PageAsTable(m, level, page, prot, va)
  {
    hide Index, PagePaddr, Load;
  }

  lemma StoresOverwrite(s: State, pgd: nat, k: Key, first: nat, phys: nat, prot: Word, n: nat)
    requires Good(s, pgd) && k in s.tab && first + n <= 512 && phys + n * 0x1000 <= VA_LIMIT
    ensures Overwritten(s.mem, PteStores(s.mem, s.tab[k] + 8 * first, phys, prot, n), s.tab, k, first, n)
  {
    hide Owned, Load, PteStores;
    var m1 := PteStores(s.mem, s.tab[k] + 8 * first, phys, prot, n);
    forall l, j | l in s.tab && 0 <= j < 512 && !(l == k && first <= j < first + n)
      ensures Entry(m1, s.tab, l, j) == Entry(s.mem, s.tab, l, j)
    {
      assert KeyOk(s.tab, l) && KeyOk(s.tab, k);
      if l != k { EntryOutside(s.tab[l], s.tab[k], j); }
      StoresInside(s.mem, s.tab[k] + 8 * first, phys, prot, n, s.tab[l] + 8 * j);
    }
  }

  /** Any stores into a page that holds no table change no translation. */
  lemma StoresOutside(s: State, m1: Memory, pgd: nat, page: nat)
    requires Good(s, pgd) && page % 0x1000 == 0 && page !in s.tab.Values
    requires forall at: nat :: !(page <= at < page + 0x1000) ==> Load(m1, at) == Load(s.mem, at)
    ensures forall va: nat :: va < VA_LIMIT ==> LeafOf(m1, pgd, va) == LeafOf(s.mem, pgd, va)
    ensures Good(s.(mem := m1), pgd)
  {
    forall l, j | l in s.tab && 0 <= j < 512 ensures Entry(m1, s.tab, l, j) == Entry(s.mem, s.tab, l, j) {
      assert KeyOk(s.tab, l);
      EntryOutside(s.tab[l], page, j);
    }
    SameTablesSameTree(s.mem, m1, s.tab, pgd);
  }

  /** Below a section the whole loop stores into the section's own first page. */
  lemma LoopIntoSection(s: State, pgd: nat, base: nat, i: nat, phys: nat, prot: Word, n: nat)
    requires Good(s, pgd) && base % 0x1000 == 0 && base !in s.tab.Values && i + n <= 512
             && phys + n * 0x1000 <= VA_LIMIT
    ensures forall va: nat :: va < VA_LIMIT ==>
              LeafOf(PteStores(s.mem, base + 8 * i, phys, prot, n), pgd, va) == LeafOf(s.mem, pgd, va)
    ensures Good(s.(mem := PteStores(s.mem, base + 8 * i, phys, prot, n)), pgd)
  {
    hide Good, LeafOf, Load;
    var m1 := PteStores(s.mem, base + 8 * i, phys, prot, n);
    forall at: nat | !(base <= at < base + 0x1000) ensures Load(m1, at) == Load(s.mem, at) {
      StoresInside(s.mem, base + 8 * i, phys, prot, n, at);
    }
    StoresOutside(s, m1, pgd, base);
  }

  /** Through a table it maps its pages: what AllocInitPte's loop does. */
  lemma {:induction false} LoopThroughTable(s: State, pgd: nat, r: Request, a: nat, n: nat)
    requires r.Ok() && Good(s, pgd) && r.lo <= a < r.hi && a % 0x1000 == 0 && a + n * 0x1000 <= r.hi
    requires !r.Section(a / 0x20_0000) && a / 0x1000 % 512 + n <= 512
    requires Key(2, a / 0x4000_0000) in s.tab && Key(3, a / 0x20_0000) in s.tab && a + r.delta >= 0
    requires a + r.delta + n * 0x1000 <= VA_LIMIT
    ensures Step(s, s.(mem := PteStores(s.mem, s.tab[Key(3, a / 0x20_0000)] + 8 * (a / 0x1000 % 512),
            a + r.delta, r.prot, n)),
                 pgd, r, {Key(3, a / 0x20_0000)}, a, a + n * 0x1000)
  {
    hide Good, Step, Request.Section, Request.Want, Shr, PfnPte;
    var k := Key(3, a / 0x20_0000);
    var ptep := s.tab[k] + 8 * (a / 0x1000 % 512);
    if n == 0 {
      ChildOfPmd(a);
      TableThere(s, pgd, r, Key(2, a / 0x4000_0000), a / 0x20_0000 % 512, a);
    } else {
      LoopThroughTable(s, pgd, r, a, n - 1);
      var s1 := s.(mem := PteStores(s.mem, ptep, a + r.delta, r.prot, n - 1));
      var b := a + (n - 1) * 0x1000;
      StepGood(s, s1, pgd, r, {k}, a, b);
      PageNumber(a, n - 1);
      PageStep(s1, pgd, r, b);
      PteWord(r, b);
      PteCompose(s, s1, s.(mem := PteStores(s.mem, ptep, a + r.delta, r.prot, n)), pgd, r, a, b);
    }
  }

  /** The n-th page after a, in the same 2 MB slot. */
  lemma PageNumber(a: nat, n: nat)
    requires a % 0x1000 == 0 && a / 0x1000 % 512 + n < 512
    ensures (a + n * 0x1000) % 0x1000 == 0 && (a + n * 0x1000) / 0x20_0000 == a / 0x20_0000
    ensures (a + n * 0x1000) / 0x1000 % 512 == a / 0x1000 % 512 + n
    ensures (a + n * 0x1000 + 0xFFF) / 0x20_0000 == a / 0x20_0000
    ensures n > 0 ==> (a + n * 0x1000 - 1) / 0x20_0000 == a / 0x20_0000
  {
    var q := a / 0x1000;
    DivisionParts(a, 0x1000);
    DivisionParts(q, 512);
    PageFields(q / 512, q % 512, n);
  }

  lemma PageFields(m: nat, i: nat, n: nat)
    requires i + n < 512
    ensures var a, b := (m * 512 + i) * 0x1000, (m * 512 + i + n) * 0x1000;
            && b % 0x1000 == 0 && b / 0x1000 % 512 == i + n && a / 0x20_0000 == m
            && b / 0x20_0000 == m && (b + 0xFFF) / 0x20_0000 == m && (n > 0 ==> (b - 1) / 0x20_0000 == m)
  {
    var a, b := (m * 512 + i) * 0x1000, (m * 512 + i + n) * 0x1000;
    Quotient(a, 0x20_0000, m, i * 0x1000);
    Quotient(b, 0x1000, m * 512 + i + n, 0);
    Quotient(m * 512 + i + n, 512, m, i + n);
    Quotient(b, 0x20_0000, m, (i + n) * 0x1000);
    Quotient(b + 0xFFF, 0x20_0000, m, (i + n) * 0x1000 + 0xFFF);
    if n > 0 { Quotient(b - 1, 0x20_0000, m, (i + n) * 0x1000 - 1); }
  }

  /** The entry alloc_init_pte finds, and the pages its loop would fill. */
  ghost predicate PteCall(s: State, pgd: nat, r: Request, a: nat, n: nat) {
    && r.Ok() && Good(s, pgd) && r.lo <= a < r.hi && a % 0x1000 == 0 && n > 0 && a + n * 0x1000 <= r.hi
    && !r.Section(a / 0x20_0000) && a / 0x1000 % 512 + n <= 512
    && 0 <= a + r.delta && a + r.delta + n * 0x1000 <= VA_LIMIT
    && Key(2, a / 0x4000_0000) in s.tab
    && Entry(s.mem, s.tab, Key(2, a / 0x4000_0000), a / 0x20_0000 % 512) != 0
  }

  /** What alloc_init_pte leaves when the entry is not empty. */
  ghost function AfterPtes(s: State, pgd: nat, r: Request, a: nat, n: nat): Memory
    requires PteCall(s, pgd, r, a, n)
  {
    PteStores(s.mem, PagePaddr(PmdOf(s, a)) + 8 * (a / 0x1000 % 512), a + r.delta, r.prot, n)
  }

  ghost function PmdOf(s: State, a: nat): Word
    requires Key(2, a / 0x4000_0000) in s.tab
  {
    Entry(s.mem, s.tab, Key(2, a / 0x4000_0000), a / 0x20_0000 % 512)
  }

  /** On a table: exactly the pages asked for are mapped. */
  lemma PteLoopOnTable(s: State, pgd: nat, r: Request, a: nat, n: nat)
    requires PteCall(s, pgd, r, a, n) && DescType(PmdOf(s, a)) == TYPE_TABLE
    ensures Installs(s.mem, AfterPtes(s, pgd, r, a, n), pgd, r, a, a + n * 0x1000)
    ensures Installed(AfterPtes(s, pgd, r, a, n), pgd, r, a, a + n * 0x1000)
  {
    hide Good, Step, Installs, Installed, LeafOf, Request.Section, Request.Want, PagePaddr, DescType, PteStores;
    ChildOfPmd(a);
    PmdEntry(s, pgd, Key(2, a / 0x4000_0000), a / 0x20_0000 % 512);
    LoopThroughTable(s, pgd, r, a, n);
    LoopInstalls(s, s.(mem := AfterPtes(s, pgd, r, a, n)), pgd, r, {Key(3, a / 0x20_0000)}, a, a + n * 0x1000);
  }

  /** On a section: its first page is written. If a table k lies there, n of its entries become
      page descriptors; whatever is translated through them is translated to the pages asked for
      if k is a last-level table, and else takes those pages for the next tables. Every other
      address keeps its translation. */
  lemma PteLoopOnSection(s: State, pgd: nat, r: Request, a: nat, n: nat, va: nat)
    requires PteCall(s, pgd, r, a, n) && DescType(PmdOf(s, a)) != TYPE_TABLE && va < VA_LIMIT
    ensures var m1, base, first := AfterPtes(s, pgd, r, a, n), PagePaddr(PmdOf(s, a)), a / 0x1000 % 512;
            && ((forall k :: k in s.tab && s.tab[k] == base ==> !Through(k, first, n, va)) ==>
                  LeafOf(m1, pgd, va) == LeafOf(s.mem, pgd, va))
            && (forall k :: k in s.tab && s.tab[k] == base && Through(k, first, n, va) ==>
                  LeafOf(m1, pgd, va) == PageAsTable(m1, k.level,
                      a + r.delta + (Index(k.level, va) - first) * 0x1000, r.prot, va))
  {
    hide Good, LeafOf, Request.Section, PagePaddr, DescType, PteStores, Through, PageAsTable, Slot;
    var base, first := PagePaddr(PmdOf(s, a)), a / 0x1000 % 512;
    PaddrAligned(PmdOf(s, a));
    SumAligned(a, r.delta, 0x1000);
    if k :| k in s.tab && s.tab[k] == base {
      GoodKeys(s, pgd, k);
      StoresIntoTable(s, pgd, k, first, a + r.delta, r.prot, n, va);
    } else {
      LoopIntoSection(s, pgd, base, first, a + r.delta, r.prot, n);
    }
  }

  /** A whole call of alloc_init_pte on an entry that is not empty, some of whose pages are not
      mapped as wanted yet, and which does not overwrite the way to them: they all are
      afterwards if and only if the entry is a table. */
  lemma PteLoopMapsIff(s: State, pgd: nat, r: Request, a: nat, n: nat)
    requires PteCall(s, pgd, r, a, n) && !Installed(s.mem, pgd, r, a, a + n * 0x1000)
    requires DescType(PmdOf(s, a)) == TYPE_TABLE
             || forall k :: k in s.tab && s.tab[k] == PagePaddr(PmdOf(s, a)) ==> !Through(k, a / 0x1000 % 512, n, a)
    ensures Installed(AfterPtes(s, pgd, r, a, n), pgd, r, a, a + n * 0x1000) <==> DescType(PmdOf(s, a)) == TYPE_TABLE
  {
    hide Good, Installed, LeafOf, Request.Section, PagePaddr, DescType, PteStores, Through, AfterPtes, PmdOf, PteCall;
    CallRange(s, pgd, r, a, n);
    if DescType(PmdOf(s, a)) == TYPE_TABLE {
      PteLoopOnTable(s, pgd, r, a, n);
    } else {
      var m1, base, first := AfterPtes(s, pgd, r, a, n), PagePaddr(PmdOf(s, a)), a / 0x1000 % 512;
      forall va: nat | a <= va < a + n * 0x1000 ensures LeafOf(m1, pgd, va) == LeafOf(s.mem, pgd, va) {
        forall k | k in s.tab && s.tab[k] == base ensures !Through(k, first, n, va) {
          SameThrough(s, pgd, r, a, n, k, va);
        }
        PteLoopOnSection(s, pgd, r, a, n, va);
      }
      SameNotInstalled(s.mem, m1, pgd, r, a, a + n * 0x1000);
    }
  }

  lemma GoodKeys(s: State, pgd: nat, k: Key)
    requires Good(s, pgd) && k in s.tab
    ensures k.level <= 3 && forall l :: l in s.tab && s.tab[l] == s.tab[k] ==> l == k
  {
    assert KeyOk(s.tab, k);
  }

  lemma CallRange(s: State, pgd: nat, r: Request, a: nat, n: nat)
    requires PteCall(s, pgd, r, a, n)
    ensures r.Ok() && r.lo <= a && a + n * 0x1000 <= r.hi && a % 0x1000 == 0 && Key(2, a / 0x4000_0000) in s.tab
    ensures a + n * 0x1000 <= VA_LIMIT
  {
    hide Good, Request.Section;
  }

  /** The pages of a call share their way down to the entry. */
  lemma SameThrough(s: State, pgd: nat, r: Request, a: nat, n: nat, k: Key, va: nat)
    requires PteCall(s, pgd, r, a, n) && DescType(PmdOf(s, a)) != TYPE_TABLE && k in s.tab
    requires a <= va < a + n * 0x1000
    ensures Through(k, a / 0x1000 % 512, n, va) ==> Through(k, a / 0x1000 % 512, n, a)
  {
    hide Good, WellFormed, Request.Section, Request.Ok, DescType, Entry;
    GoodKeys(s, pgd, k);
    ChildOfPmd(a);
    PmdEntry(s, pgd, Key(2, a / 0x4000_0000), a / 0x20_0000 % 512);
    SameSlotOfCall(a, n, va);
    SameGigOfSlot(a, va);
  }

  lemma SameSlotOfCall(a: nat, n: nat, va: nat)
    requires a % 0x1000 == 0 && a / 0x1000 % 512 + n <= 512 && a <= va < a + n * 0x1000
    ensures va / 0x20_0000 == a / 0x20_0000
  {
    var q := a / 0x1000;
    DivisionParts(a, 0x1000);
    DivisionParts(q, 512);
    Quotient(a, 0x20_0000, q / 512, q % 512 * 0x1000);
    Quotient(va, 0x20_0000, q / 512, va - q / 512 * 0x20_0000);
  }

  lemma SameGigOfSlot(a: nat, va: nat)
    requires va / 0x20_0000 == a / 0x20_0000
    ensures Slot(0, va) == Slot(0, a) && Slot(1, va) == Slot(1, a) && Slot(2, va) == Slot(2, a)
  {
    SlotSplit(0, a); SlotSplit(0, va);
    SlotSplit(1, a); SlotSplit(1, va);
  }

  lemma LoopInstalls(s0: State, s1: State, pgd: nat, r: Request, keys: set<Key>, a: nat, e: nat)
    requires r.Ok() && r.lo <= a <= e <= r.hi && Step(s0, s1, pgd, r, keys, a, e)
    ensures Installs(s0.mem, s1.mem, pgd, r, a, e) && Installed(s1.mem, pgd, r, a, e)
  {
    hide Good, Footprint, LeafOf, Request.Want, SectionKeys;
  }

  lemma SameNotInstalled(m0: Memory, m1: Memory, pgd: nat, r: Request, a: nat, e: nat)
    requires r.Ok() && r.lo <= a <= e <= r.hi && !Installed(m0, pgd, r, a, e)
    requires forall va: nat :: a <= va < e ==> LeafOf(m1, pgd, va) == LeafOf(m0, pgd, va)
    ensures !Installed(m1, pgd, r, a, e)
  {
    hide LeafOf, Request.Want, Request.Section;
  }

  // ----- a conflict on a run -----

  /** alloc_init_pte on an entry that is not empty: it is taken for a table, whatever it is. */
  method StorePtes(t: PageTables, pmdp: nat, addr0: Word, end: Word, phys0: Word, prot: Word, ghost n: nat)
    requires n > 0 && end == addr0 + n * 0x1000 && phys0 + n * 0x1000 <= VA_LIMIT
    modifies t`mem
    ensures t.mem == PteStores(old(t.mem), PagePaddr(Load(old(t.mem), pmdp)) + 8 * PteIndex(addr0), phys0, prot, n)
  {
    hide PagePaddr, PteIndex, Load, PfnPte, Shr;
    var ptep := PagePaddr(Load(t.mem, pmdp)) + 8 * PteIndex(addr0);
    ghost var first, i := ptep, 0;
    var addr, phys := addr0, phys0;
    while true
      invariant 0 <= i < n && addr == addr0 + i * 0x1000 && phys == phys0 + i * 0x1000 && ptep == first + 8 * i
      invariant t.mem == PteStores(old(t.mem), first, phys0, prot, i)
      decreases n - i
    {
      t.mem := t.mem[ptep := PfnPte(Shr(phys, 12), prot)];
      phys := phys + 0x1000;
      ptep := ptep + 8;
      addr := addr + 0x1000;
      i := i + 1;
      if addr == end { break; }
    }
  }

  /** The entries on the way to a 2 MB entry that is there. */
  lemma WayDown(s: State, pgd: nat, virt: Word)
    requires Good(s, pgd) && virt < VA_LIMIT && Key(2, virt / 0x4000_0000) in s.tab
    ensures Key(1, virt / 0x80_0000_0000) in s.tab
    ensures PagePaddr(Load(s.mem, pgd + 8 * PgdIndex(virt))) == s.tab[Key(1, virt / 0x80_0000_0000)]
    ensures PagePaddr(Load(s.mem, s.tab[Key(1, virt / 0x80_0000_0000)] + 8 * PudIndex(virt)))
            == s.tab[Key(2, virt / 0x4000_0000)]
    ensures Load(s.mem, s.tab[Key(2, virt / 0x4000_0000)] + 8 * PmdIndex(virt)) == PmdOf(s, virt)
  {
    hide Good, Index, PgdIndex, PudIndex, PmdIndex, PteIndex, PagePaddr, Load;
    Indices(virt);
    PathParents(s, pgd, virt);
    PathEntry(s, pgd, 0, virt);
    PathEntry(s, pgd, 1, virt);
    assert PathKey(2, virt) == Key(2, virt / 0x4000_0000) && PathKey(1, virt) == Key(1, virt / 0x80_0000_0000);
  }

  /** __create_pgd_mapping of one page where no entry on the way is empty: nothing is
      allocated, and the loops make one turn each. */
  method MapOnePage(t: PageTables, virt: Word, phys: Word, prot: Word)
    requires t.Valid() && virt % 0x1000 == 0 && virt + 0x1000 <= VA_LIMIT && phys + 0x1000 <= VA_LIMIT
    requires Key(2, virt / 0x4000_0000) in t.tab && PmdOf(t.Now(), virt) != 0
    modifies t`mem
    ensures t.mem == PteStores(old(t.mem), PagePaddr(PmdOf(old(t.Now()), virt)) + 8 * PteIndex(virt), phys, prot, 1)
  {
    hide Good, PgdIndex, PudIndex, PmdIndex, PteIndex, PagePaddr, Load, PteStores, Takeable, Usable, FreeIn;
    WayDown(t.Now(), t.pgd, virt);
    var pgdp := t.pgd + 8 * PgdIndex(virt);
    var pudp := PagePaddr(Load(t.mem, pgdp)) + 8 * PudIndex(virt);
    var pmdp := PagePaddr(Load(t.mem, pudp)) + 8 * PmdIndex(virt);
    StorePtes(t, pmdp, virt, virt + 0x1000, phys, prot, 1);
  }

  const MB2: nat := 0x20_0000

  function SectionRequest(prot: Word): Request { Request(MB2, 2 * MB2, 0, prot, 0) }

  function PageInside(prot: Word): Request { Request(MB2 + 0x1000, MB2 + 0x2000, 0xF_F000, prot, 0) }

  method MapSection(t: PageTables, prot: Word)
    requires t.Valid() && ValidProt(prot) && |t.Now().free| >= 2
    requires forall va: nat :: MB2 <= va < 2 * MB2 ==> LeafOf(t.mem, t.pgd, va) == None
    modifies t, t.alloc.memMap
    ensures t.Valid() && SectionRequest(prot).Ok() && Call(old(t.Now()), t.Now(), t.pgd, SectionRequest(prot))
  {
    hide Good, Step, NoConflict, AllKeys, RequestFor, Request.Ok, SectionRequest, Usable, Takeable, FreeIn,
         LeafOf, ValidProt, Call;
    ghost var s0, r := t.Now(), SectionRequest(prot);
    SectionRequestFor(prot);
    SectionRoom(s0, r, prot);
    FreshSlot(t.mem, t.pgd, r, prot);
    t.CreatePgdMapping(MB2, MB2, MB2, prot, 0);
    IsCall(s0, t.Now(), t.pgd, r);
  }

  lemma IsCall(s0: State, s1: State, pgd: nat, r: Request)
    requires r.Ok() && Step(s0, s1, pgd, r, AllKeys(r, r.lo, r.hi), r.lo, r.hi)
    ensures Call(s0, s1, pgd, r)
  {
    hide Step, AllKeys;
  }

  /** A 2 MB section, then one page inside it sent to 3 MB: the page stays where the section
      put it, and the descriptor lands in the section's memory. */
  method PageIntoSection(t: PageTables, prot: Word) returns (ghost before: Memory)
    requires t.Valid() && ValidProt(prot) && t.pgd != MB2 && |t.Now().free| >= 2
    requires forall va: nat :: MB2 <= va < 2 * MB2 ==> LeafOf(t.mem, t.pgd, va) == None
    modifies t, t.alloc.memMap
    ensures t.Valid() && Key(2, 0) in t.tab && PagePaddr(Load(before, t.tab[Key(2, 0)] + 8)) == MB2
    ensures t.mem == PteStores(before, MB2 + 8 * PteIndex(MB2 + 0x1000), 0x30_0000, prot, 1)
    ensures forall va: nat :: va < VA_LIMIT ==> Translate(t.mem, t.pgd, va) == Translate(before, t.pgd, va)
    ensures Translate(t.mem, t.pgd, MB2 + 0x1000) == Mapped(MB2 + 0x1000, prot / VA_LIMIT, prot % 0x1000 / 4)
  {
    hide Good, Call, LeafOf, PteStores, Usable, Takeable, FreeIn, PagePaddr, PteIndex, Translate, Load, Request.Ok,
         ValidProt;
    ghost var s0 := t.Now();
    MapSection(t, prot);
    ghost var s1 := t.Now();
    before := t.mem;
    SectionThere(s0, s1, t.pgd, prot);
    SectionBase(MB2, prot);
    SectionPmd(s1);
    StoreMisses(s1, t.pgd, prot);
    MapOnePage(t, MB2 + 0x1000, 0x30_0000, prot);
  }

  lemma SectionPmd(s: State)
    requires Key(2, 0) in s.tab
    ensures (MB2 + 0x1000) / 0x4000_0000 == 0 && PmdOf(s, MB2 + 0x1000) == Entry(s.mem, s.tab, Key(2, 0), 1)
    ensures PteIndex(MB2 + 0x1000) == 1
  {
    hide PteIndex;
  }

  lemma SectionRequestFor(prot: Word)
    requires ValidProt(prot)
    ensures RequestFor(MB2, MB2, MB2, prot, 0) == SectionRequest(prot) && SectionRequest(prot).Ok()
            && PageInside(prot).Ok()
    ensures SectionRequest(prot).Section(1) && !PageInside(prot).Section(1)
    ensures SectionRequest(prot).lo == MB2 && SectionRequest(prot).hi == 2 * MB2
  {
    hide ValidProt, PageMask, PageAlign;
    PageRounding(MB2);
    PageRounding(2 * MB2);
  }

  lemma FreshSlot(m: Memory, pgd: nat, r: Request, prot: Word)
    requires r == SectionRequest(prot) && forall va: nat :: MB2 <= va < 2 * MB2 ==> LeafOf(m, pgd, va) == None
    ensures NoConflict(m, pgd, r, r.lo, r.hi)
  {
    hide LeafOf;
  }

  lemma SectionRoom(s: State, r: Request, prot: Word)
    requires ValidProt(prot) && r == SectionRequest(prot) && |s.free| >= 2
    ensures |s.free| >= |AllKeys(r, r.lo, r.hi) - s.tab.Keys|
  {
    assert r.Section(1);
    assert AllKeys(r, r.lo, r.hi) <= {Key(1, 0), Key(2, 0)};
    SubsetSize(AllKeys(r, r.lo, r.hi) - s.tab.Keys, {Key(1, 0), Key(2, 0)});
  }

  /** The section's entry, and that its memory holds no table. */
  lemma SectionThere(s0: State, s1: State, pgd: nat, prot: Word)
    requires ValidProt(prot) && SectionRequest(prot).Ok() && Call(s0, s1, pgd, SectionRequest(prot)) && pgd != MB2
    ensures Good(s1, pgd) && Key(2, 0) in s1.tab && Entry(s1.mem, s1.tab, Key(2, 0), 1) == MB2 + prot - 2
    ensures MB2 !in s1.tab.Values
    ensures Translate(s1.mem, pgd, MB2 + 0x1000) == Mapped(MB2 + 0x1000, prot / VA_LIMIT, prot % 0x1000 / 4)
  {
    var r, va := SectionRequest(prot), MB2 + 0x1000;
    hide Good, Call, LeafOf, Translate, Request.Want, Request.Ok, ValidProt;
    CallParts(s0, s1, pgd, r, va);
    CallTranslates(s0.mem, s1.mem, pgd, r, va);
    SectionLeaf(r, prot);
    SectionEntry(s1, pgd, va, MB2 + prot - 2);
    assert PathKey(2, va) == Key(2, 0) && Index(2, va) == 1;
    NoLowTable(s1, pgd);
  }

  lemma CallParts(s0: State, s1: State, pgd: nat, r: Request, va: nat)
    requires r.Ok() && Call(s0, s1, pgd, r) && r.lo <= va < r.hi
    ensures Good(s1, pgd) && Installs(s0.mem, s1.mem, pgd, r, r.lo, r.hi)
            && LeafOf(s1.mem, pgd, va) == Some(r.Want(va))
  {
    hide Good, Footprint, Installed, AllKeys, SectionKeys, LeafOf, Request.Want;
  }

  lemma SectionLeaf(r: Request, prot: Word)
    requires ValidProt(prot) && r == SectionRequest(prot) && r.Ok()
    ensures r.Want(MB2 + 0x1000) == Leaf(2, MB2 + prot - 2)
  {
    assert r.Section(1);
  }

  /** A section leaf is read from the level-2 table on the path. */
  lemma SectionEntry(s: State, pgd: nat, va: nat, d: Word)
    requires Good(s, pgd) && va < VA_LIMIT && LeafOf(s.mem, pgd, va) == Some(Leaf(2, d))
    ensures PathKey(2, va) in s.tab && Entry(s.mem, s.tab, PathKey(2, va), Index(2, va)) == d
  {
    hide WellFormed, LeafOf, Owned, Slot;
    Resolve(s.mem, s.tab, pgd, va);
  }

  lemma NoLowTable(s: State, pgd: nat)
    requires Good(s, pgd) && pgd != MB2
    ensures MB2 !in s.tab.Values
  {
    RootPresent(s, pgd);
    hide WellFormed;
  }

  /** A section descriptor, taken for a table descriptor, leads to the section's first page. */
  lemma SectionBase(base: nat, prot: Word)
    requires base % 0x20_0000 == 0 && base < VA_LIMIT && ValidProt(prot)
    ensures prot >= 3 && base + prot - 2 < 0x1_0000_0000_0000_0000 && PagePaddr(base + prot - 2) == base
  {
    hide PagePaddr;
    LowerProt(prot);
    LowBits(prot);
    AlignedDown(base);
    AddressFits(base, prot);
    var hi, lo := prot / VA_LIMIT, prot % VA_LIMIT;
    Fields(base / 0x1000, hi, lo - 2);
    DivisionParts(base, 0x1000);
    assert base + prot - 2 == base / 0x1000 * 0x1000 + hi * 0x1_0000_0000_0000 + (lo - 2);
  }

  lemma StoreMisses(s: State, pgd: nat, prot: Word)
    requires ValidProt(prot) && Good(s, pgd) && Key(2, 0) in s.tab
             && Entry(s.mem, s.tab, Key(2, 0), 1) == MB2 + prot - 2
    requires MB2 !in s.tab.Values
    ensures Good(s.(mem := PteStores(s.mem, MB2 + 8, 0x30_0000, prot, 1)), pgd)
    ensures forall va: nat :: va < VA_LIMIT ==>
              LeafOf(PteStores(s.mem, MB2 + 8, 0x30_0000, prot, 1), pgd, va) == LeafOf(s.mem, pgd, va)
    ensures forall va: nat :: va < VA_LIMIT ==>
              Translate(PteStores(s.mem, MB2 + 8, 0x30_0000, prot, 1), pgd, va) == Translate(s.mem, pgd, va)
  {
    hide Good, LeafOf, PteStores;
    LoopIntoSection(s, pgd, MB2, 1, 0x30_0000, prot, 1);
  }
}
