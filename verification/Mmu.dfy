/** mmu.c: the page-table builder, writing descriptors into table pages in place.
    Every method is a `Step`: the requested leaves on its piece of the range, every
    other translation untouched, and exactly the missing tables taken: from the
    allocator, and one at address 0 when no page is left. */
module Mmu {
  import opened Bits
  import opened PgTable
  import opened Translation
  import opened TreeUpdate
  import opened PageAlloc
  import opened MapSpec
  import opened MapSteps

  class PageTables {
    var mem: Memory
    const pgd: nat
    const alloc: PageAllocator
    /** The reachable tables. */
    ghost var tab: Tables
    /** Whether address 0 can still be taken for a table page. */
    ghost var zeroFree: bool

    constructor (ram: Memory, dir: nat, a: PageAllocator)
      ensures mem == ram && pgd == dir && alloc == a && tab == map[] && zeroFree == (dir != 0)
    {
      mem, pgd, alloc, tab, zeroFree := ram, dir, a, map[], dir != 0;
    }

    ghost function Now(): State
      reads this, alloc.memMap
    {
      State(mem, tab, Takeable(alloc.Free(), pgd, zeroFree), alloc.Free() - Usable(alloc.Free(), pgd))
    }

    ghost predicate Valid()
      reads this, alloc.memMap
    {
      alloc.Valid() && Good(Now(), pgd)
    }

    /** memset(page, 0, PAGE_SIZE): an aligned page is cleared two words at a time. */
    method ClearPage(page: nat)
      modifies this`mem
      ensures Cleared(old(mem), mem, page)
    {
      hide Load;
      var i := 0;
      ghost var k := 0;
      ClearedNone(mem, page);
      while i != 0x1000
        invariant k <= 256 && i == 16 * k
        invariant ClearedTo(old(mem), mem, page, 2 * k)
        decreases 0x1000 - i
      {
        ClearTwo(old(mem), mem, page, 2 * k);
        mem := mem[page + i := 0][page + i + 8 := 0];
        i := i + 16;
        k := k + 1;
      }
    }

    /** A fresh, cleared page. An exhausted allocator is not tested for: without a free page
        address 0 is cleared and returned. */
    method EarlyPgtableAlloc() returns (page: Word)
      requires alloc.Valid()
      modifies this`mem, alloc.memMap
      ensures alloc.Valid() && Cleared(old(mem), mem, page)
      ensures old(alloc.Free()) == {} ==> page == 0 && alloc.Free() == {}
      ensures old(alloc.Free()) != {} ==>
                && IsPage(page) && PageIndex(page) in old(alloc.Free())
                && (forall j :: j in old(alloc.Free()) ==> PageIndex(page) <= j)
                && alloc.Free() == old(alloc.Free()) - {PageIndex(page)}
    {
      page := alloc.GetFreePage();
      ClearPage(page);
    }

    /** `if (pXd_none(*entry)) { alloc; set; }`: the table below `entry`, allocated if missing. */
    method Populate(entry: nat, ghost k: Key, ghost i: nat, ghost a: nat, ghost r: Request)
      requires Valid() && r.Ok() && r.lo <= a <= r.hi
      requires k in tab && k.level < 3 && i < 512 && entry == tab[k] + 8 * i
      requires Load(mem, entry) == 0 <==> Child(k, i) !in tab
      requires |Now().free| >= |{Child(k, i)} - tab.Keys|
      modifies this, alloc.memMap
      ensures Valid() && Step(old(Now()), Now(), pgd, r, {Child(k, i)}, a, a)
      ensures Child(k, i) in tab && PagePaddr(Load(mem, entry)) == tab[Child(k, i)]
      ensures Child(k, i) !in old(tab) ==> FirstFit(old(alloc.Free()), tab[Child(k, i)])
    {
      hide WellFormed, Step, Owned, Takeable;
      if Load(mem, entry) == 0 {
        assert {Child(k, i)} - tab.Keys == {Child(k, i)};
        NewTable(entry, k, i, a, r);
      } else {
        TableThere(Now(), pgd, r, k, i, a);
      }
    }

    /** alloc_pgtable() and set_pmd / set_pud / set_pgd of a table descriptor, whatever the
        allocator holds. */
    method HangTable(entry: nat) returns (page: Word, ghost cleared: Memory)
      requires alloc.Valid()
      modifies this`mem, alloc.memMap
      ensures alloc.Valid() && Cleared(old(mem), cleared, page) && mem == cleared[entry := TableDesc(page)]
      ensures old(alloc.Free()) == {} ==> page == 0 && alloc.Free() == {} && PagePaddr(Load(mem, entry)) == 0
      ensures old(alloc.Free()) != {} ==>
                && IsPage(page) && PageIndex(page) in old(alloc.Free())
                && (forall j :: j in old(alloc.Free()) ==> PageIndex(page) <= j)
                && alloc.Free() == old(alloc.Free()) - {PageIndex(page)}
    {
      page := EarlyPgtableAlloc();
      cleared := mem;
      mem := mem[entry := TableDesc(page)];
    }

    /** HangTable with a page that can be taken: the lowest free one, and with none free the
        page at address 0 if no table lies there. */
    method NewTable(entry: nat, ghost k: Key, ghost i: nat, ghost a: nat, ghost r: Request)
      requires Valid() && r.Ok() && r.lo <= a <= r.hi
      requires k in tab && k.level < 3 && i < 512 && entry == tab[k] + 8 * i
      requires Load(mem, entry) == 0 && Now().free != {}
      modifies this, alloc.memMap
      ensures Valid() && Step(old(Now()), Now(), pgd, r, {Child(k, i)}, a, a)
      ensures Child(k, i) in tab && PagePaddr(Load(mem, entry)) == tab[Child(k, i)]
      ensures FirstFit(old(alloc.Free()), tab[Child(k, i)])
    {
      hide WellFormed, Step, Owned, Usable, Takeable, PagePaddr, TableDesc;
      ghost var s, free := Now(), alloc.Free();
      var page, cleared := HangTable(entry);
      TakeTablePage(free, pgd, zeroFree, page, alloc.Free());
      TableStep(s, cleared, pgd, r, k, i, page, a);
      tab := tab[Child(k, i) := page];
      zeroFree := zeroFree && free != {};
      TableAddress(page);
      StepGood(s, Now(), pgd, r, {Child(k, i)}, a, a);
    }

    /** set_pte of one page descriptor. */
    method SetPte(ptep: nat, phys: Word, prot: Word, ghost addr: nat, ghost r: Request)
      requires Valid() && r.Ok() && prot == r.prot && phys == addr + r.delta
      requires r.lo <= addr < r.hi && addr % 0x1000 == 0 && !r.Section(addr / 0x20_0000)
      requires Key(3, addr / 0x20_0000) in tab
      requires ptep == tab[Key(3, addr / 0x20_0000)] + 8 * (addr / 0x1000 % 512)
      modifies this`mem
      ensures Valid() && addr + 0x1000 <= r.hi && Step(old(Now()), Now(), pgd, r, {}, addr, addr + 0x1000)
    {
      hide WellFormed, Step, Owned, Request.Section, Shr, PfnPte, Request.Want, Takeable;
      ghost var s := Now();
      PageStep(s, pgd, r, addr);
      PageWord(r, addr);
      PteWord(r, addr);
      mem := mem[ptep := PfnPte(Shr(phys, 12), prot)];
      StepGood(s, Now(), pgd, r, {}, addr, addr + 0x1000);
    }

    /** alloc_init_pte: 4 KB pages for [addr0, end), all in one 2 MB slot. */
    method AllocInitPte(pmdp: nat, addr0: Word, end: Word, phys0: Word, prot: Word, flags: Word, ghost r: Request)
      requires Valid() && r.Ok() && prot == r.prot && phys0 == addr0 + r.delta
      requires r.lo <= addr0 < end <= r.hi && addr0 % 0x1000 == 0 && end % 0x1000 == 0
      requires (end - 1) / 0x20_0000 == addr0 / 0x20_0000 && !r.Section(addr0 / 0x20_0000)
      requires Key(2, addr0 / 0x4000_0000) in tab
      requires pmdp == tab[Key(2, addr0 / 0x4000_0000)] + 8 * (addr0 / 0x20_0000 % 512)
      requires NoConflict(mem, pgd, r, addr0, end)
      requires |Now().free| >= |{Key(3, addr0 / 0x20_0000)} - tab.Keys|
      modifies this, alloc.memMap
      ensures Valid() && Step(old(Now()), Now(), pgd, r, {Key(3, addr0 / 0x20_0000)}, addr0, end)
    {
      hide WellFormed, Step, Owned, NoConflict, Request.Section, PteIndex, PagePaddr, Takeable, FreeIn,
           FirstFit;
      ghost var m := addr0 / 0x20_0000;
      ChildOfPmd(addr0);
      SlotFreeOrTable(Now(), pgd, r, addr0, end);
      Populate(pmdp, Key(2, addr0 / 0x4000_0000), addr0 / 0x20_0000 % 512, addr0, r);
      ghost var table := tab[Key(3, m)];
      var ptep := PagePaddr(Load(mem, pmdp)) + PteIndex(addr0) * 8;
      var addr, phys := addr0, phys0;
      while true
        invariant Valid() && addr0 <= addr < end && addr % 0x1000 == 0 && phys == addr + r.delta
        invariant Key(3, m) in tab && tab[Key(3, m)] == table
        invariant ptep == table + 8 * (addr / 0x1000 % 512)
        invariant Step(old(Now()), Now(), pgd, r, {Key(3, m)}, addr0, addr)
        decreases end - addr
      {
        ghost var s := Now();
        SameSlot(addr0, addr, end);
        SetPte(ptep, phys, prot, addr, r);
        PteCompose(old(Now()), s, Now(), pgd, r, addr0, addr);
        phys := phys + 0x1000;
        ptep := ptep + 8;
        addr := addr + 0x1000;
        if addr == end { break; }
      }
    }

    /** pmd_set_section: one 2 MB block, in place of whatever the entry held. */
    method PmdSetSection(pmdp: nat, phys: Word, prot: Word, ghost addr: nat, ghost r: Request)
      requires Valid() && r.Ok() && prot == r.prot && phys == addr + r.delta
      requires r.lo <= addr && addr + 0x20_0000 <= r.hi && r.Section(addr / 0x20_0000)
      requires addr % 0x20_0000 == 0 && phys % 0x20_0000 == 0
      requires Key(2, addr / 0x4000_0000) in tab
      requires pmdp == tab[Key(2, addr / 0x4000_0000)] + 8 * (addr / 0x20_0000 % 512)
      modifies this
      ensures Valid() && Step(old(Now()), Now(), pgd, r, {}, addr, addr + 0x20_0000)
    {
      hide WellFormed, Step, Owned, Request.Section, Request.Want, Or, Shr, MkSectProt, PfnPmd, Takeable;
      ghost var s := Now();
      SectionStep(s, pgd, r, addr);
      SectionWord(r, addr);
      AlignedSum(addr, r.delta);
      var sectProt := Or(TYPE_SECT, MkSectProt(prot));
      SectionProt(prot);
      SectionDescriptor(phys, prot);
      mem := mem[pmdp := PfnPmd(Shr(phys, 21), sectProt)];
      tab := tab - {Key(3, addr / 0x20_0000)};
      StepGood(s, Now(), pgd, r, {}, addr, addr + 0x20_0000);
    }

    /** The body of alloc_init_pmd's loop: a section where it fits, pages elsewhere. */
    method MapSlot(pmdp: nat, addr: Word, next: Word, phys: Word, prot: Word, flags: Word, ghost r: Request)
      requires Valid() && r.Ok() && prot == r.prot && flags == r.flags && phys == addr + r.delta
      requires r.lo <= addr < next <= r.hi && Piece(r, addr, next)
      requires Key(2, addr / 0x4000_0000) in tab
      requires pmdp == tab[Key(2, addr / 0x4000_0000)] + 8 * (addr / 0x20_0000 % 512)
      requires NoConflict(mem, pgd, r, addr, next)
      requires |Now().free| >= |PteKeys(r, addr, next) - tab.Keys|
      modifies this, alloc.memMap
      ensures Valid() && Step(old(Now()), Now(), pgd, r, PteKeys(r, addr, next), addr, next)
    {
      hide WellFormed, Step, Owned, NoConflict, PteKeys, Takeable;
      SectionChoice(r, addr, next, phys);
      OneSlotKeys(r, addr, next);
      if SectionAligned(addr, next, phys) && BlocksAllowed(flags) {
        PmdSetSection(pmdp, phys, prot, addr, r);
      } else {
        AllocInitPte(pmdp, addr, next, phys, prot, flags, r);
      }
    }

    /** alloc_init_pmd: the pieces of one 1 GB slot. */
    method AllocInitPmd(pudp: nat, addr0: Word, end: Word, phys0: Word, prot: Word, flags: Word, ghost r: Request)
      requires Valid() && r.Ok() && prot == r.prot && flags == r.flags && phys0 == addr0 + r.delta
      requires r.lo <= addr0 < end <= r.hi && Aligned(r, addr0, end)
      requires (end - 1) / 0x4000_0000 == addr0 / 0x4000_0000
      requires Key(1, addr0 / 0x80_0000_0000) in tab
      requires pudp == tab[Key(1, addr0 / 0x80_0000_0000)] + 8 * (addr0 / 0x4000_0000 % 512)
      requires NoConflict(mem, pgd, r, addr0, end)
      requires |Now().free| >= |GigKeys(r, addr0, end) - tab.Keys|
      modifies this, alloc.memMap
      ensures Valid() && Step(old(Now()), Now(), pgd, r, GigKeys(r, addr0, end), addr0, end)
    {
      hide WellFormed, Step, Owned, NoConflict, GigKeys, PteKeys, Aligned, Piece, PmdAddrEnd, PmdIndex,
           PagePaddr, FreeIn, Load, Takeable;
      ghost var g := addr0 / 0x4000_0000;
      ghost var s0 := Now();
      GigKeysFrom(r, addr0, end);
      ChildOfPud(addr0);
      UpperEntry(s0, pgd, Key(1, addr0 / 0x80_0000_0000), addr0 / 0x4000_0000 % 512);
      FirstKey(s0, Key(2, g), GigKeys(r, addr0, end));
      Populate(pudp, Key(1, addr0 / 0x80_0000_0000), addr0 / 0x4000_0000 % 512, addr0, r);
      ghost var table := tab[Key(2, g)];
      var pmdp := PagePaddr(Load(mem, pudp)) + PmdIndex(addr0) * 8;
      var addr, phys := addr0, phys0;
      while true
        invariant Valid() && addr0 <= addr < end && Aligned(r, addr, end) && phys == addr + r.delta
        invariant addr == addr0 || addr % 0x20_0000 == 0
        invariant Key(2, g) in tab && tab[Key(2, g)] == table
        invariant pmdp == table + 8 * (addr / 0x20_0000 % 512)
        invariant Step(s0, Now(), pgd, r, GigKeys(r, addr0, addr), addr0, addr)
        decreases end - addr
      {
        ghost var s := Now();
        var next := PmdAddrEnd(addr, end);
        PmdPiece(r, addr0, addr, end);
        ConflictLater(s0, s, pgd, r, GigKeys(r, addr0, addr), addr0, addr, next, end);
        PmdRoom(s0, s, pgd, r, addr0, addr, next, end);
        MapSlot(pmdp, addr, next, phys, prot, flags, r);
        PmdCompose(s0, s, Now(), pgd, r, addr0, addr, next);
        phys := phys + (next - addr);
        pmdp := pmdp + 8;
        addr := next;
        if addr == end { break; }
      }
    }

    /** alloc_init_pud: the 1 GB pieces of one 512 GB slot. */
    method AllocInitPud(pgdp: nat, addr0: Word, end: Word, phys0: Word, prot: Word, flags: Word, ghost r: Request)
      requires Valid() && r.Ok() && prot == r.prot && flags == r.flags && phys0 == addr0 + r.delta
      requires r.lo <= addr0 < end <= r.hi && Aligned(r, addr0, end)
      requires (end - 1) / 0x80_0000_0000 == addr0 / 0x80_0000_0000
      requires Root in tab && pgdp == tab[Root] + 8 * (addr0 / 0x80_0000_0000 % 512)
      requires NoConflict(mem, pgd, r, addr0, end)
      requires |Now().free| >= |HalfTeraKeys(r, addr0, end) - tab.Keys|
      modifies this, alloc.memMap
      ensures Valid() && Step(old(Now()), Now(), pgd, r, HalfTeraKeys(r, addr0, end), addr0, end)
      ensures TopTable(old(tab), old(alloc.Free()), tab, addr0)
    {
      hide WellFormed, Step, Owned, NoConflict, HalfTeraKeys, GigKeys, Aligned, PudAddrEnd, PudIndex, PagePaddr,
           FreeIn, Load, Takeable;
      ghost var h := addr0 / 0x80_0000_0000;
      ghost var s0, free := Now(), alloc.Free();
      HalfTeraKeysFrom(r, addr0, end);
      ChildOfRoot(addr0);
      UpperEntry(s0, pgd, Root, addr0 / 0x80_0000_0000 % 512);
      FirstKey(s0, Key(1, h), HalfTeraKeys(r, addr0, end));
      Populate(pgdp, Root, addr0 / 0x80_0000_0000 % 512, addr0, r);
      ghost var table := tab[Key(1, h)];
      var pudp := PagePaddr(Load(mem, pgdp)) + PudIndex(addr0) * 8;
      var addr, phys := addr0, phys0;
      while true
        invariant Valid() && addr0 <= addr < end && Aligned(r, addr, end) && phys == addr + r.delta
        invariant addr == addr0 || addr % 0x4000_0000 == 0
        invariant Key(1, h) in tab && tab[Key(1, h)] == table
        invariant pudp == table + 8 * (addr / 0x4000_0000 % 512)
        invariant Step(s0, Now(), pgd, r, HalfTeraKeys(r, addr0, addr), addr0, addr)
        invariant TopTable(s0.tab, free, tab, addr0)
        decreases end - addr
      {
        ghost var s := Now();
        var next := PudAddrEnd(addr, end);
        PudPiece(r, addr0, addr, end);
        ConflictLater(s0, s, pgd, r, HalfTeraKeys(r, addr0, addr), addr0, addr, next, end);
        PudRoom(s0, s, pgd, r, addr0, addr, next, end);
        AllocInitPmd(pudp, addr, next, phys, prot, flags, r);
        PudCompose(s0, s, Now(), pgd, r, addr0, addr, next);
        phys := phys + (next - addr);
        pudp := pudp + 8;
        addr := next;
        if addr == end { break; }
      }
    }

    /** __create_pgd_mapping: the 512 GB pieces of the whole range. */
    method CreatePgdMapping(phys0: Word, virt: Word, size: Word, prot: Word, flags: Word)
      requires Valid() && virt + size <= VA_LIMIT && RequestFor(phys0, virt, size, prot, flags).Ok()
      requires var r := RequestFor(phys0, virt, size, prot, flags);
               && NoConflict(mem, pgd, r, r.lo, r.hi)
               && |Now().free| >= |AllKeys(r, r.lo, r.hi) - tab.Keys|
      modifies this, alloc.memMap
      ensures Valid()
      ensures var r := RequestFor(phys0, virt, size, prot, flags);
              && Step(old(Now()), Now(), pgd, r, AllKeys(r, r.lo, r.hi), r.lo, r.hi)
              && TopTable(old(tab), old(alloc.Free()), tab, r.lo)
    {
      hide WellFormed, Step, Owned, NoConflict, PteKeys, PmdKeys, PudKeys, SectionKeys, Takeable;
      ghost var r, s0, free := RequestFor(phys0, virt, size, prot, flags), Now(), alloc.Free();
      assert Root in tab && tab[Root] == pgd by { RootPresent(s0, pgd); }
      var pgdp := pgd + PgdIndex(virt) * 8;
      var phys := PageMask(phys0);
      var addr := PageMask(virt);
      var end := PageAlign(virt + size);
      PgdIndexOfPage(virt);
      NoKeysYet(r, addr);
      NoStep(s0, pgd, r, addr);
      while true
        invariant Valid() && r.lo <= addr < end && Aligned(r, addr, end) && phys == addr + r.delta
        invariant addr == r.lo || addr % 0x80_0000_0000 == 0
        invariant Root in tab && tab[Root] == pgd
        invariant pgdp == pgd + 8 * (addr / 0x80_0000_0000 % 512)
        invariant Step(s0, Now(), pgd, r, AllKeys(r, r.lo, addr), r.lo, addr)
        invariant addr > r.lo ==> TopTable(s0.tab, free, tab, r.lo)
        invariant addr == r.lo ==> tab == s0.tab && alloc.Free() == free
        decreases end - addr
      {
        ghost var s := Now();
        var next := PgdAddrEnd(addr, end);
        PgdPiece(r, addr, end);
        ConflictLater(s0, s, pgd, r, AllKeys(r, r.lo, addr), r.lo, addr, next, end);
        PgdRoom(s0, s, pgd, r, addr, next, end);
        AllocInitPud(pgdp, addr, next, phys, prot, flags, r);
        PgdCompose(s0, s, Now(), pgd, r, addr, next);
        if addr > r.lo { StepKeeps(s, Now(), pgd, r, HalfTeraKeys(r, addr, next), addr, next,
            Key(1, r.lo / 0x80_0000_0000)); }
        phys := phys + (next - addr);
        pgdp := pgdp + 8;
        addr := next;
        if addr == end { break; }
      }
    }
  }

  /** The first n words of the page are cleared, and no word outside it changed. */
  ghost predicate ClearedTo(m0: Memory, m1: Memory, page: nat, n: nat) {
    && (forall j :: 0 <= j < n ==> Load(m1, page + 8 * j) == 0)
    && (forall at: nat :: !(page <= at < page + 0x1000) ==> Load(m1, at) == Load(m0, at))
  }

  lemma ClearedNone(m: Memory, page: nat)
    ensures ClearedTo(m, m, page, 0)
  {
  }

  lemma ClearTwo(m0: Memory, m1: Memory, page: nat, n: nat)
    requires ClearedTo(m0, m1, page, n) && n + 2 <= 512
    ensures ClearedTo(m0, m1[page + 8 * n := 0][page + 8 * n + 8 := 0], page, n + 2)
  {
  }

  /** The lowest free page, or address 0 when none is free. */
  ghost predicate FirstFit(free: set<nat>, page: nat) {
    if free == {} then page == 0
    else IsPage(page) && PageIndex(page) in free && forall j :: j in free ==> PageIndex(page) <= j
  }

  /** The first table a mapping from `a` on needs is there, and if it was not before it lies
      where first fit put it. */
  ghost predicate TopTable(before: Tables, free: set<nat>, after: Tables, a: nat) {
    var k := Key(1, a / 0x80_0000_0000);
    k in after && (k !in before ==> FirstFit(free, after[k]))
  }

  /** What first fit returns is one of the pages that can be taken; the rest stays. */
  lemma TakeTablePage(free: set<nat>, pgd: nat, zeroFree: bool, page: nat, free': set<nat>)
    requires Takeable(free, pgd, zeroFree) != {} && FirstFit(free, page)
    requires free' == if free == {} then {} else free - {PageIndex(page)}
    ensures IsTablePage(page) && PageIndex(page) in Takeable(free, pgd, zeroFree)
    ensures Takeable(free', pgd, zeroFree && free != {}) == Takeable(free, pgd, zeroFree) - {PageIndex(page)}
    ensures free' - Usable(free', pgd) == free - Usable(free, pgd)
  {
    if free != {} {
      var i := PageIndex(page);
      var j :| j in Usable(free, pgd);
      assert i <= j;
      assert Usable(free', pgd) == Usable(free, pgd) - {i};
      assert free' <= Usable(free', pgd) <==> free <= Usable(free, pgd);
    }
  }

  /** [addr, next) lies in one 2 MB slot and ends at its boundaries, except at the ends of the request. */
  ghost predicate Piece(r: Request, addr: nat, next: nat) {
    && addr < next && (next - 1) / 0x20_0000 == addr / 0x20_0000
    && addr % 0x1000 == 0 && next % 0x1000 == 0
    && (addr == r.lo || addr % 0x20_0000 == 0)
    && (next == r.hi || next % 0x20_0000 == 0)
  }

  /** The alignment test finds exactly the slots of `Request.Section`. */
  lemma SectionChoice(r: Request, addr: Word, next: Word, phys: Word)
    requires r.Ok() && r.lo <= addr < next <= r.hi && Piece(r, addr, next) && phys == addr + r.delta
    ensures SectionAligned(addr, next, phys) && BlocksAllowed(r.flags) <==> r.Section(addr / 0x20_0000)
    ensures r.Section(addr / 0x20_0000) ==> addr % 0x20_0000 == 0 && next == addr + 0x20_0000
  {
    hide SectionAligned, BlocksAllowed, Request.Section, Piece, Request.Ok;
    if addr % 0x20_0000 == 0 { AlignedSum(addr, r.delta); }
    if r.Section(addr / 0x20_0000) { SectionIsWhole(r, addr, next); }
    if addr % 0x20_0000 == 0 && next % 0x20_0000 == 0 { WholeSlot(r, addr, next); }
  }

  lemma SectionIsWhole(r: Request, addr: nat, next: nat)
    requires r.lo <= addr < next <= r.hi && Piece(r, addr, next) && r.Section(addr / 0x20_0000)
    ensures addr % 0x20_0000 == 0 && next == addr + 0x20_0000 && next % 0x20_0000 == 0
    ensures r.delta % 0x20_0000 == 0 && r.flags % 2 == 0
  {
    var m := addr / 0x20_0000;
    DivisionParts(addr, 0x20_0000);
    DivisionParts(next - 1, 0x20_0000);
    DivisionParts(next, 0x20_0000);
    assert addr == m * 0x20_0000 && next <= addr + 0x20_0000;
    if next != addr + 0x20_0000 { Quotient(next, 0x20_0000, m, next - addr); }
    Quotient(addr, 0x20_0000, m, 0);
    Quotient(addr + 0x20_0000, 0x20_0000, m + 1, 0);
  }

  lemma WholeSlot(r: Request, addr: nat, next: nat)
    requires r.lo <= addr < next <= r.hi && Piece(r, addr, next)
    requires addr % 0x20_0000 == 0 && next % 0x20_0000 == 0
    ensures next == addr + 0x20_0000
    ensures r.delta % 0x20_0000 == 0 && r.flags % 2 == 0 ==> r.Section(addr / 0x20_0000)
  {
    DivisionParts(addr, 0x20_0000);
    NextSlot(addr, next);
  }

  lemma NextSlot(addr: nat, next: nat)
    requires addr % 0x20_0000 == 0 && next % 0x20_0000 == 0
    requires addr < next && (next - 1) / 0x20_0000 == addr / 0x20_0000
    ensures next == addr + 0x20_0000
  {
    var m := addr / 0x20_0000;
    DivisionParts(addr, 0x20_0000);
    DivisionParts(next - 1, 0x20_0000);
    if next != addr + 0x20_0000 { Quotient(next, 0x20_0000, m, next - addr); }
  }

  lemma AlignedSum(a: nat, d: int)
    requires a % 0x20_0000 == 0
    ensures (a + d) % 0x20_0000 == 0 <==> d % 0x20_0000 == 0
  {
    DivisionParts(a, 0x20_0000);
    DivisionParts(d, 0x20_0000);
    assert (a / 0x20_0000 + d / 0x20_0000) * 0x20_0000 == a / 0x20_0000 * 0x20_0000 + d / 0x20_0000 * 0x20_0000;
    Quotient(a + d, 0x20_0000, a / 0x20_0000 + d / 0x20_0000, d % 0x20_0000);
  }

  lemma OneSlotKeys(r: Request, addr: nat, next: nat)
    requires addr < next && (next - 1) / 0x20_0000 == addr / 0x20_0000
    ensures PteKeys(r, addr, next) == if r.Section(addr / 0x20_0000) then {} else {Key(3, addr / 0x20_0000)}
  {
  }

  lemma ChildOfPmd(addr: nat)
    ensures Child(Key(2, addr / 0x4000_0000), addr / 0x20_0000 % 512) == Key(3, addr / 0x20_0000)
  {
  }

  /** Addresses between two of the same 2 MB slot; the next page index, unless the slot ends. */
  lemma SameSlot(a: nat, b: nat, e: nat)
    requires a <= b < e && (e - 1) / 0x20_0000 == a / 0x20_0000 && b % 0x1000 == 0 && e % 0x1000 == 0
    ensures b / 0x20_0000 == a / 0x20_0000 && b + 0x1000 <= e
    ensures b + 0x1000 < e ==> (b + 0x1000) / 0x1000 % 512 == b / 0x1000 % 512 + 1
  {
  }

  /** Under `NoConflict`, a slot that needs pages is empty or has its table. */
  lemma SlotFreeOrTable(s: State, pgd: nat, r: Request, addr: nat, end: nat)
    requires r.Ok() && Good(s, pgd) && r.lo <= addr < end <= r.hi && !r.Section(addr / 0x20_0000)
    requires NoConflict(s.mem, pgd, r, addr, end) && Key(2, addr / 0x4000_0000) in s.tab
    ensures Entry(s.mem, s.tab, Key(2, addr / 0x4000_0000), addr / 0x20_0000 % 512) == 0
            <==> Key(3, addr / 0x20_0000) !in s.tab
  {
    var k, i := Key(2, addr / 0x4000_0000), addr / 0x20_0000 % 512;
    ChildOfPmd(addr);
    PathOf(addr);
    assert SlotOk(s.mem, s.tab, k, i);
    Resolve(s.mem, s.tab, pgd, addr);
    hide WellFormed, LeafOf, PathKey, Index, Child;
    assert LeafOf(s.mem, pgd, addr) == None || LeafOf(s.mem, pgd, addr).value.level == 3;
  }

  lemma PathOf(addr: nat)
    ensures PathKey(2, addr) == Key(2, addr / 0x4000_0000) && PathKey(3, addr) == Key(3, addr / 0x20_0000)
    ensures Index(2, addr) == addr / 0x20_0000 % 512
  {
  }

  lemma PteCompose(s0: State, s1: State, s2: State, pgd: nat, r: Request, a: nat, b: nat)
    requires r.Ok() && r.lo <= a <= b && b + 0x1000 <= r.hi && a / 0x20_0000 == b / 0x20_0000 && Good(s0, pgd)
    requires (b + 0xFFF) / 0x20_0000 == a / 0x20_0000 && !r.Section(a / 0x20_0000)
    requires a < b ==> (b - 1) / 0x20_0000 == a / 0x20_0000
    requires Step(s0, s1, pgd, r, {Key(3, a / 0x20_0000)}, a, b)
    requires Step(s1, s2, pgd, r, {}, b, b + 0x1000)
    ensures Step(s0, s2, pgd, r, {Key(3, a / 0x20_0000)}, a, b + 0x1000)
  {
    hide Step, SectionKeys;
    NoSectionsIn(r, a, b);
    NoSectionsIn(r, a, b + 0x1000);
    NoSectionsIn(r, b, b + 0x1000);
    ComposeSameKeys(s0, s1, s2, pgd, r, {Key(3, a / 0x20_0000)}, a, b, b + 0x1000);
  }

  lemma NoSectionsIn(r: Request, a: nat, e: nat)
    requires a < e ==> (e - 1) / 0x20_0000 == a / 0x20_0000
    requires !r.Section(a / 0x20_0000)
    ensures SectionKeys(r, a, e) == {}
  {
  }

  // ----- alloc_init_pmd -----

  ghost predicate Aligned(r: Request, addr: nat, end: nat) {
    && addr % 0x1000 == 0 && end % 0x1000 == 0
    && (addr == r.lo || addr % 0x20_0000 == 0)
    && (end == r.hi || end % 0x20_0000 == 0)
  }

  /** Tables needed for a piece of one 1 GB slot: its own, and those for its 2 MB slots. */
  ghost function GigKeys(r: Request, a: nat, e: nat): set<Key> { {Key(2, a / 0x4000_0000)} + PteKeys(r, a, e) }

  lemma GigKeysFrom(r: Request, a: nat, e: nat)
    ensures Key(2, a / 0x4000_0000) in GigKeys(r, a, e)
    ensures GigKeys(r, a, a) == {Key(2, a / 0x4000_0000)}
  {
    NoKeysYet(r, a);
  }

  lemma ChildOfPud(addr: nat)
    ensures Child(Key(1, addr / 0x80_0000_0000), addr / 0x4000_0000 % 512) == Key(2, addr / 0x4000_0000)
  {
  }

  /** Above level 2 an entry is empty or points to a table. */
  lemma UpperEntry(s: State, pgd: nat, k: Key, i: nat)
    requires Good(s, pgd) && k in s.tab && k.level < 2 && i < 512
    ensures Entry(s.mem, s.tab, k, i) == 0 <==> Child(k, i) !in s.tab
  {
    assert SlotOk(s.mem, s.tab, k, i);
  }

  lemma FirstKey(s: State, k: Key, all: set<Key>)
    requires k in all && |s.free| >= |all - s.tab.Keys|
    ensures |s.free| >= |{k} - s.tab.Keys|
  {
    SubsetSize({k} - s.tab.Keys, all - s.tab.Keys);
  }

  lemma NoKeysYet(r: Request, a: nat)
    ensures PteKeys(r, a, a) == {} && SectionKeys(r, a, a) == {} && PmdKeys(a, a) == {} && PudKeys(a, a) == {}
  {
  }

  /** The cut of pmd_addr_end: the next 2 MB boundary, or the end if that comes first. */
  lemma PmdCut(addr: Word, end: Word)
    requires addr < end <= VA_LIMIT
    ensures addr < PmdAddrEnd(addr, end) <= end
    ensures (PmdAddrEnd(addr, end) - 1) / 0x20_0000 == addr / 0x20_0000
    ensures PmdAddrEnd(addr, end) < end ==> PmdAddrEnd(addr, end) == (addr / 0x20_0000 + 1) * 0x20_0000
  {
    var q, next := addr / 0x20_0000, PmdAddrEnd(addr, end);
    assert q * 0x20_0000 <= next - 1 < q * 0x20_0000 + 0x20_0000;
  }

  lemma PmdPiece(r: Request, addr0: nat, addr: Word, end: Word)
    requires r.Ok() && addr0 <= addr < end <= r.hi && Aligned(r, addr, end)
    requires (end - 1) / 0x4000_0000 == addr0 / 0x4000_0000
    ensures addr < PmdAddrEnd(addr, end) <= end && Piece(r, addr, PmdAddrEnd(addr, end))
    ensures addr / 0x4000_0000 == addr0 / 0x4000_0000
    ensures PmdAddrEnd(addr, end) % 0x20_0000 == 0 || PmdAddrEnd(addr, end) == end
    ensures PmdAddrEnd(addr, end) < end ==>
              && Aligned(r, PmdAddrEnd(addr, end), end)
              && PmdAddrEnd(addr, end) % 0x20_0000 == 0
              && PmdAddrEnd(addr, end) / 0x20_0000 % 512 == addr / 0x20_0000 % 512 + 1
  {
    PmdCut(addr, end);
    hide PmdAddrEnd;
    var q := addr / 0x20_0000;
    if PmdAddrEnd(addr, end) < end { NextIndex(q, end, addr0 / 0x4000_0000); }
  }

  /** What lies in slot g lies below the next one. */
  lemma BelowNext(x: int, d: int, g: int)
    requires d > 0 && x / d == g
    ensures g * d <= x < (g + 1) * d
  {
    DivisionParts(x, d);
    MulNext(g, d);
  }

  /** Stepping to the next 2 MB slot of the same 1 GB advances the index by one. */
  lemma NextIndex(q: nat, end: nat, g: nat)
    requires (q + 1) * 0x20_0000 < end && (end - 1) / 0x4000_0000 == g && q / 512 == g
    ensures (q + 1) * 0x20_0000 % 0x20_0000 == 0 && (q + 1) * 0x20_0000 % 0x1000 == 0
    ensures (q + 1) * 0x20_0000 / 0x20_0000 % 512 == q % 512 + 1
  {
    var n, t := (q + 1) * 0x20_0000, q - 512 * g;
    BelowNext(end - 1, 0x4000_0000, g);
    BelowNext(q, 512, g);
    Quotient(n, 0x20_0000, q + 1, 0);
    AlignedMultiple(q + 1);
    Quotient(q, 512, g, t);
    Quotient(q + 1, 512, g, t + 1);
  }

  /** Pieces not yet mapped have no conflict. */
  lemma ConflictLater(s0: State, s1: State, pgd: nat, r: Request, k: set<Key>, a: nat, b: nat, n: nat, e: nat)
    requires r.Ok() && r.lo <= a <= b <= n <= e <= r.hi && Step(s0, s1, pgd, r, k, a, b)
    requires NoConflict(s0.mem, pgd, r, a, e)
    ensures NoConflict(s1.mem, pgd, r, b, n)
  {
    hide WellFormed, Footprint, Installed, LeafOf;
    forall va: nat | b <= va < n && !r.Section(va / 0x20_0000)
      ensures LeafOf(s1.mem, pgd, va) == None || LeafOf(s1.mem, pgd, va).value.level == 3
    {
      assert LeafOf(s1.mem, pgd, va) == LeafOf(s0.mem, pgd, va);
    }
  }

  lemma PmdRoom(s0: State, s1: State, pgd: nat, r: Request, a: nat, b: nat, n: nat, e: nat)
    requires r.Ok() && r.lo <= a <= b <= n <= e <= r.hi && Step(s0, s1, pgd, r, GigKeys(r, a, b), a, b)
    requires |s0.free| >= |GigKeys(r, a, e) - s0.tab.Keys|
    requires (b % 0x20_0000 == 0 || a == b) && (n % 0x20_0000 == 0 || n == e)
    ensures |s1.free| >= |PteKeys(r, b, n) - s1.tab.Keys|
  {
    hide Step;
    SplitKeys(r, a, b, e);
    SplitKeys(r, b, n, e);
    LevelsApart(r, a, b, n);
    hide PteKeys, SectionKeys;
    Room(s0, s1, pgd, r, GigKeys(r, a, b), PteKeys(r, b, n), GigKeys(r, a, e), a, b);
  }

  lemma LevelsApart(r: Request, a: nat, b: nat, n: nat)
    ensures {Key(2, a / 0x4000_0000)} !! PteKeys(r, b, n) && {Key(2, a / 0x4000_0000)} !! SectionKeys(r, b, n)
  {
  }

  lemma PmdCompose(s0: State, s1: State, s2: State, pgd: nat, r: Request, a: nat, b: nat, n: nat)
    requires r.Ok() && r.lo <= a <= b <= n <= r.hi && Good(s0, pgd)
    requires Step(s0, s1, pgd, r, GigKeys(r, a, b), a, b) && Step(s1, s2, pgd, r, PteKeys(r, b, n), b, n)
    requires b % 0x20_0000 == 0 || a == b
    ensures Step(s0, s2, pgd, r, GigKeys(r, a, n), a, n)
    ensures Key(2, a / 0x4000_0000) in s1.tab ==>
              Key(2, a / 0x4000_0000) in s2.tab && s2.tab[Key(2, a / 0x4000_0000)] == s1.tab[Key(2, a / 0x4000_0000)]
  {
    hide Good, Step;
    SplitKeys(r, a, b, n);
    LevelsApart(r, a, b, n);
    StepKeeps(s1, s2, pgd, r, PteKeys(r, b, n), b, n, Key(2, a / 0x4000_0000));
    hide PteKeys, SectionKeys;
    assert GigKeys(r, a, n) == GigKeys(r, a, b) + PteKeys(r, b, n);
    Compose(s0, s1, s2, pgd, r, GigKeys(r, a, b), PteKeys(r, b, n), a, b, n);
  }

  /** A table that no section replaces stays where it is. */
  lemma StepKeeps(s0: State, s1: State, pgd: nat, r: Request, k: set<Key>, a: nat, e: nat, key: Key)
    requires r.Ok() && r.lo <= a <= e <= r.hi && Step(s0, s1, pgd, r, k, a, e)
    ensures key in s0.tab && key.level < 3 ==> key in s1.tab && s1.tab[key] == s0.tab[key]
  {
    hide Good, Installs, Installed;
  }

  // ----- alloc_init_pud -----

  /** Tables needed for a piece of one 512 GB slot. */
  ghost function HalfTeraKeys(r: Request, a: nat, e: nat): set<Key> {
    {Key(1, a / 0x80_0000_0000)} + PmdKeys(a, e) + PteKeys(r, a, e)
  }

  lemma HalfTeraKeysFrom(r: Request, a: nat, e: nat)
    ensures Key(1, a / 0x80_0000_0000) in HalfTeraKeys(r, a, e)
    ensures HalfTeraKeys(r, a, a) == {Key(1, a / 0x80_0000_0000)}
  {
    NoKeysYet(r, a);
  }

  lemma ChildOfRoot(addr: nat)
    requires addr < VA_LIMIT
    ensures Child(Root, addr / 0x80_0000_0000 % 512) == Key(1, addr / 0x80_0000_0000)
  {
  }

  lemma PudCut(addr: Word, end: Word)
    requires addr < end <= VA_LIMIT
    ensures addr < PudAddrEnd(addr, end) <= end
    ensures (PudAddrEnd(addr, end) - 1) / 0x4000_0000 == addr / 0x4000_0000
    ensures PudAddrEnd(addr, end) < end ==> PudAddrEnd(addr, end) == (addr / 0x4000_0000 + 1) * 0x4000_0000
  {
    var q, next := addr / 0x4000_0000, PudAddrEnd(addr, end);
    assert q * 0x4000_0000 <= next - 1 < q * 0x4000_0000 + 0x4000_0000;
  }

  lemma PudPiece(r: Request, addr0: nat, addr: Word, end: Word)
    requires r.Ok() && addr0 <= addr < end <= r.hi && Aligned(r, addr, end)
    requires (end - 1) / 0x80_0000_0000 == addr0 / 0x80_0000_0000
    ensures addr < PudAddrEnd(addr, end) <= end && Aligned(r, addr, PudAddrEnd(addr, end))
    ensures PudAddrEnd(addr, end) < end ==> Aligned(r, PudAddrEnd(addr, end), end)
    ensures PudAddrEnd(addr, end) % 0x4000_0000 == 0 || PudAddrEnd(addr, end) == end
    ensures (PudAddrEnd(addr, end) - 1) / 0x4000_0000 == addr / 0x4000_0000
    ensures addr / 0x80_0000_0000 == addr0 / 0x80_0000_0000
    ensures PudAddrEnd(addr, end) < end ==>
              && PudAddrEnd(addr, end) % 0x4000_0000 == 0
              && PudAddrEnd(addr, end) / 0x4000_0000 % 512 == addr / 0x4000_0000 % 512 + 1
  {
    PudCut(addr, end);
    hide PudAddrEnd;
    var q := addr / 0x4000_0000;
    if PudAddrEnd(addr, end) < end { NextPudIndex(q, end, addr0 / 0x80_0000_0000); }
  }

  lemma NextPudIndex(q: nat, end: nat, h: nat)
    requires (q + 1) * 0x4000_0000 < end && (end - 1) / 0x80_0000_0000 == h && q / 512 == h
    ensures (q + 1) * 0x4000_0000 % 0x4000_0000 == 0
    ensures (q + 1) * 0x4000_0000 % 0x20_0000 == 0 && (q + 1) * 0x4000_0000 % 0x1000 == 0
    ensures (q + 1) * 0x4000_0000 / 0x4000_0000 % 512 == q % 512 + 1
  {
    var n, t := (q + 1) * 0x4000_0000, q - 512 * h;
    BelowNext(end - 1, 0x80_0000_0000, h);
    BelowNext(q, 512, h);
    Quotient(n, 0x4000_0000, q + 1, 0);
    Quotient(n, 0x20_0000, (q + 1) * 512, 0);
    Quotient(n, 0x1000, (q + 1) * 0x4_0000, 0);
    Quotient(q, 512, h, t);
    Quotient(q + 1, 512, h, t + 1);
  }

  lemma SplitPmdKeys(a: nat, b: nat, e: nat)
    requires a <= b <= e && (b % 0x4000_0000 == 0 || a == b || b == e)
    ensures PmdKeys(a, e) == PmdKeys(a, b) + PmdKeys(b, e)
    ensures PmdKeys(a, b) !! PmdKeys(b, e)
  {
  }

  lemma OneGig(b: nat, n: nat)
    requires b < n && (n - 1) / 0x4000_0000 == b / 0x4000_0000
    ensures PmdKeys(b, n) == {Key(2, b / 0x4000_0000)}
  {
  }

  lemma KeysByLevel(r: Request, a: nat, b: nat, c: nat, d: nat)
    ensures PmdKeys(a, b) !! PteKeys(r, c, d) && PmdKeys(a, b) !! SectionKeys(r, c, d)
    ensures PudKeys(a, b) !! PteKeys(r, c, d) && PudKeys(a, b) !! SectionKeys(r, c, d)
    ensures PudKeys(a, b) !! PmdKeys(c, d)
    ensures forall n ::
              Key(1, n) !in PmdKeys(a, b) && Key(1, n) !in PteKeys(r, c, d) && Key(1, n) !in SectionKeys(r, c, d)
  {
  }

  /** The tables of the first pieces, of the next, and of all: the next piece's are new. */
  lemma PudKeySets(r: Request, a: nat, b: nat, n: nat, e: nat)
    requires a <= b < n <= e && (n - 1) / 0x4000_0000 == b / 0x4000_0000
    requires (b % 0x4000_0000 == 0 || a == b) && (n % 0x4000_0000 == 0 || n == e)
    ensures HalfTeraKeys(r, a, b) + GigKeys(r, b, n) == HalfTeraKeys(r, a, n) <= HalfTeraKeys(r, a, e)
    ensures HalfTeraKeys(r, a, b) !! GigKeys(r, b, n)
    ensures SectionKeys(r, a, b) !! GigKeys(r, b, n) && HalfTeraKeys(r, a, b) !! SectionKeys(r, b, n)
    ensures SectionKeys(r, a, n) == SectionKeys(r, a, b) + SectionKeys(r, b, n)
  {
    GigAligned(b); GigAligned(n);
    SplitKeys(r, a, b, n); SplitKeys(r, a, n, e);
    SplitPmdKeys(a, b, n); SplitPmdKeys(a, n, e);
    OneGig(b, n);
    KeysByLevel(r, a, b, a, b); KeysByLevel(r, a, b, b, n); KeysByLevel(r, b, n, a, b);
    hide PteKeys, PmdKeys, SectionKeys;
  }

  lemma GigAligned(b: nat)
    ensures b % 0x4000_0000 == 0 ==> b % 0x20_0000 == 0
  {
    if b % 0x4000_0000 == 0 {
      DivisionParts(b, 0x4000_0000);
      Quotient(b, 0x20_0000, 512 * (b / 0x4000_0000), 0);
    }
  }

  lemma PudRoom(s0: State, s1: State, pgd: nat, r: Request, a: nat, b: nat, n: nat, e: nat)
    requires r.Ok() && r.lo <= a <= b < n <= e <= r.hi && Step(s0, s1, pgd, r, HalfTeraKeys(r, a, b), a, b)
    requires |s0.free| >= |HalfTeraKeys(r, a, e) - s0.tab.Keys|
    requires (n - 1) / 0x4000_0000 == b / 0x4000_0000
    requires (b % 0x4000_0000 == 0 || a == b) && (n % 0x4000_0000 == 0 || n == e)
    ensures |s1.free| >= |GigKeys(r, b, n) - s1.tab.Keys|
  {
    hide Step, GigKeys, HalfTeraKeys, SectionKeys;
    PudKeySets(r, a, b, n, e);
    Room(s0, s1, pgd, r, HalfTeraKeys(r, a, b), GigKeys(r, b, n), HalfTeraKeys(r, a, e), a, b);
  }

  lemma PudCompose(s0: State, s1: State, s2: State, pgd: nat, r: Request, a: nat, b: nat, n: nat)
    requires r.Ok() && r.lo <= a <= b < n <= r.hi && Good(s0, pgd)
    requires Step(s0, s1, pgd, r, HalfTeraKeys(r, a, b), a, b) && Step(s1, s2, pgd, r, GigKeys(r, b, n), b, n)
    requires (n - 1) / 0x4000_0000 == b / 0x4000_0000 && (b % 0x4000_0000 == 0 || a == b)
    ensures Step(s0, s2, pgd, r, HalfTeraKeys(r, a, n), a, n)
    ensures Key(1, a / 0x80_0000_0000) in s1.tab ==>
              && Key(1, a / 0x80_0000_0000) in s2.tab
              && s2.tab[Key(1, a / 0x80_0000_0000)] == s1.tab[Key(1, a / 0x80_0000_0000)]
  {
    hide Good, Step, GigKeys, HalfTeraKeys, SectionKeys;
    PudKeySets(r, a, b, n, n);
    StepKeeps(s1, s2, pgd, r, GigKeys(r, b, n), b, n, Key(1, a / 0x80_0000_0000));
    Compose(s0, s1, s2, pgd, r, HalfTeraKeys(r, a, b), GigKeys(r, b, n), a, b, n);
  }

  // ----- __create_pgd_mapping -----

  function RequestFor(phys: Word, virt: Word, size: Word, prot: Word, flags: Word): Request
    requires virt + size <= VA_LIMIT
  {
    Request(PageMask(virt), PageAlign(virt + size), PageMask(phys) - PageMask(virt), prot, flags)
  }

  /** The request of a call: the smallest page range around [virt, virt + size), mapped from
      the page of phys on. */
  lemma RequestOk(phys: Word, virt: Word, size: Word, prot: Word, flags: Word)
    requires size > 0 && virt + size <= VA_LIMIT && ValidProt(prot)
    requires PageMask(phys) + PageAlign(virt + size) - PageMask(virt) <= VA_LIMIT
    ensures var r := RequestFor(phys, virt, size, prot, flags);
            && r.Ok() && r.lo <= virt < r.lo + 0x1000 && virt + size <= r.hi < virt + size + 0x1000
            && r.lo + r.delta == phys - phys % 0x1000 && r.prot == prot && r.flags == flags
  {
    hide PageMask, PageAlign, ValidProt;
    PageRounding(virt);
    PageRounding(phys);
    PageRounding(virt + size);
    PageDifference(PageMask(phys), PageMask(virt));
  }

  lemma PageRounding(x: Word)
    ensures PageMask(x) % 0x1000 == 0 && PageMask(x) <= x < PageMask(x) + 0x1000 && PageMask(x) == x - x % 0x1000
    ensures x <= VA_LIMIT ==> PageAlign(x) % 0x1000 == 0 && x <= PageAlign(x) <= VA_LIMIT && PageAlign(x) < x + 0x1000
  {
    hide PageMask, PageAlign;
    DivisionParts(x, 0x1000);
    Quotient(x - x % 0x1000, 0x1000, x / 0x1000, 0);
    Quotient(x - x % 0x1000 + 0x1000, 0x1000, x / 0x1000 + 1, 0);
    if x <= VA_LIMIT { BelowLimit(x, x / 0x1000, x % 0x1000); }
  }

  lemma BelowLimit(x: nat, q: nat, t: nat)
    requires x == q * 0x1000 + t <= VA_LIMIT && t < 0x1000
    ensures t > 0 ==> x - t + 0x1000 <= VA_LIMIT
  {
  }

  lemma PageDifference(a: nat, b: nat)
    requires a % 0x1000 == 0 && b % 0x1000 == 0
    ensures (a - b) % 0x1000 == 0
  {
  }

  ghost function AllKeys(r: Request, a: nat, e: nat): set<Key> { PudKeys(a, e) + PmdKeys(a, e) + PteKeys(r, a, e) }

  lemma RootPresent(s: State, pgd: nat)
    requires Good(s, pgd)
    ensures Root in s.tab && s.tab[Root] == pgd
  {
  }

  lemma PgdIndexOfPage(virt: Word)
    ensures PageMask(virt) / 0x80_0000_0000 == virt / 0x80_0000_0000
  {
    hide PageMask;
    var q, t := virt / 0x80_0000_0000, virt % 0x80_0000_0000;
    DivisionParts(virt, 0x80_0000_0000);
    DivisionParts(t, 0x1000);
    Quotient(virt, 0x1000, q * 0x800_0000 + t / 0x1000, t % 0x1000);
    Quotient(virt - t % 0x1000, 0x80_0000_0000, q, t - t % 0x1000);
  }

  lemma PgdCut(addr: Word, end: Word)
    requires addr < end <= VA_LIMIT
    ensures addr < PgdAddrEnd(addr, end) <= end
    ensures (PgdAddrEnd(addr, end) - 1) / 0x80_0000_0000 == addr / 0x80_0000_0000
    ensures PgdAddrEnd(addr, end) < end ==> PgdAddrEnd(addr, end) == (addr / 0x80_0000_0000 + 1) * 0x80_0000_0000
  {
    var q, next := addr / 0x80_0000_0000, PgdAddrEnd(addr, end);
    assert q * 0x80_0000_0000 <= next - 1 < q * 0x80_0000_0000 + 0x80_0000_0000;
  }

  lemma PgdPiece(r: Request, addr: Word, end: Word)
    requires r.Ok() && r.lo <= addr < end <= r.hi && Aligned(r, addr, end)
    ensures addr < PgdAddrEnd(addr, end) <= end && Aligned(r, addr, PgdAddrEnd(addr, end))
    ensures PgdAddrEnd(addr, end) < end ==> Aligned(r, PgdAddrEnd(addr, end), end)
    ensures (PgdAddrEnd(addr, end) - 1) / 0x80_0000_0000 == addr / 0x80_0000_0000
    ensures PgdAddrEnd(addr, end) < end ==>
              && PgdAddrEnd(addr, end) % 0x80_0000_0000 == 0
              && PgdAddrEnd(addr, end) / 0x80_0000_0000 % 512 == addr / 0x80_0000_0000 % 512 + 1
  {
    PgdCut(addr, end);
    hide PgdAddrEnd;
    var q := addr / 0x80_0000_0000;
    if PgdAddrEnd(addr, end) < end { NextPgdIndex(q); }
  }

  lemma NextPgdIndex(q: nat)
    requires (q + 1) * 0x80_0000_0000 < VA_LIMIT
    ensures (q + 1) * 0x80_0000_0000 % 0x80_0000_0000 == 0
    ensures (q + 1) * 0x80_0000_0000 % 0x20_0000 == 0 && (q + 1) * 0x80_0000_0000 % 0x1000 == 0
    ensures (q + 1) * 0x80_0000_0000 / 0x80_0000_0000 % 512 == q % 512 + 1
  {
    var n := (q + 1) * 0x80_0000_0000;
    Quotient(n, 0x80_0000_0000, q + 1, 0);
    Quotient(n, 0x20_0000, (q + 1) * 0x4_0000, 0);
    Quotient(n, 0x1000, (q + 1) * 0x800_0000, 0);
    Quotient(q, 512, 0, q);
    Quotient(q + 1, 512, 0, q + 1);
  }

  lemma SplitPudKeys(a: nat, b: nat, e: nat)
    requires a <= b <= e && (b % 0x80_0000_0000 == 0 || a == b || b == e)
    ensures PudKeys(a, e) == PudKeys(a, b) + PudKeys(b, e)
    ensures PudKeys(a, b) !! PudKeys(b, e)
  {
  }

  lemma OneHalfTera(b: nat, n: nat)
    requires b < n && (n - 1) / 0x80_0000_0000 == b / 0x80_0000_0000
    ensures PudKeys(b, n) == {Key(1, b / 0x80_0000_0000)}
  {
  }

  lemma HalfTeraAligned(b: nat)
    ensures b % 0x80_0000_0000 == 0 ==> b % 0x4000_0000 == 0
  {
    if b % 0x80_0000_0000 == 0 {
      DivisionParts(b, 0x80_0000_0000);
      Quotient(b, 0x4000_0000, 512 * (b / 0x80_0000_0000), 0);
    }
  }

  lemma PgdKeySets(r: Request, a: nat, b: nat, n: nat, e: nat)
    requires a <= b < n <= e && (n - 1) / 0x80_0000_0000 == b / 0x80_0000_0000
    requires (b % 0x80_0000_0000 == 0 || a == b) && (n % 0x80_0000_0000 == 0 || n == e)
    ensures AllKeys(r, a, b) + HalfTeraKeys(r, b, n) == AllKeys(r, a, n) <= AllKeys(r, a, e)
    ensures AllKeys(r, a, b) !! HalfTeraKeys(r, b, n)
    ensures SectionKeys(r, a, b) !! HalfTeraKeys(r, b, n) && AllKeys(r, a, b) !! SectionKeys(r, b, n)
    ensures SectionKeys(r, a, n) == SectionKeys(r, a, b) + SectionKeys(r, b, n)
  {
    HalfTeraAligned(b); HalfTeraAligned(n);
    GigAligned(b); GigAligned(n);
    SplitKeys(r, a, b, n); SplitKeys(r, a, n, e);
    SplitPmdKeys(a, b, n); SplitPmdKeys(a, n, e);
    SplitPudKeys(a, b, n); SplitPudKeys(a, n, e);
    OneHalfTera(b, n);
    KeysByLevel(r, a, b, a, b); KeysByLevel(r, a, b, b, n); KeysByLevel(r, b, n, a, b);
    hide PteKeys, PmdKeys, PudKeys, SectionKeys;
  }

  lemma PgdRoom(s0: State, s1: State, pgd: nat, r: Request, b: nat, n: nat, e: nat)
    requires r.Ok() && r.lo <= b < n <= e <= r.hi && Step(s0, s1, pgd, r, AllKeys(r, r.lo, b), r.lo, b)
    requires |s0.free| >= |AllKeys(r, r.lo, e) - s0.tab.Keys|
    requires (n - 1) / 0x80_0000_0000 == b / 0x80_0000_0000
    requires (b % 0x80_0000_0000 == 0 || b == r.lo) && (n % 0x80_0000_0000 == 0 || n == e)
    ensures |s1.free| >= |HalfTeraKeys(r, b, n) - s1.tab.Keys|
  {
    hide Step, AllKeys, HalfTeraKeys, SectionKeys;
    PgdKeySets(r, r.lo, b, n, e);
    Room(s0, s1, pgd, r, AllKeys(r, r.lo, b), HalfTeraKeys(r, b, n), AllKeys(r, r.lo, e), r.lo, b);
  }

  lemma PgdCompose(s0: State, s1: State, s2: State, pgd: nat, r: Request, b: nat, n: nat)
    requires r.Ok() && r.lo <= b < n <= r.hi && Good(s0, pgd)
    requires Step(s0, s1, pgd, r, AllKeys(r, r.lo, b), r.lo, b) && Step(s1, s2, pgd, r, HalfTeraKeys(r, b, n), b, n)
    requires (n - 1) / 0x80_0000_0000 == b / 0x80_0000_0000 && (b % 0x80_0000_0000 == 0 || b == r.lo)
    ensures Step(s0, s2, pgd, r, AllKeys(r, r.lo, n), r.lo, n)
    ensures Root in s1.tab ==> Root in s2.tab && s2.tab[Root] == s1.tab[Root]
  {
    hide Good, Step, AllKeys, HalfTeraKeys, SectionKeys;
    PgdKeySets(r, r.lo, b, n, n);
    StepKeeps(s1, s2, pgd, r, HalfTeraKeys(r, b, n), b, n, Root);
    Compose(s0, s1, s2, pgd, r, AllKeys(r, r.lo, b), HalfTeraKeys(r, b, n), r.lo, b, n);
  }

  lemma NoStep(s: State, pgd: nat, r: Request, a: nat)
    requires r.Ok() && r.lo <= a <= r.hi && Good(s, pgd)
    ensures Step(s, s, pgd, r, AllKeys(r, a, a), a, a)
  {
    NoKeysYet(r, a);
    assert AllKeys(r, a, a) == {};
    hide WellFormed, Owned, AllKeys;
    assert {} - s.tab.Keys == {};
    assert s.tab.Keys + {} - {} == s.tab.Keys;
  }
}
