/** paging_init: the boot mappings, for every image size that fits in memory. */
module Boot {
  import opened Bits
  import opened PgTable
  import opened Translation
  import opened TreeUpdate
  import opened PageAlloc
  import opened MapSpec
  import opened Mmu
  import opened MapTheorems
  import opened MapSteps
  import opened StrayStores
  import opened Shortage
  import opened Walkers

  const TEXT_START: nat := 0x8_0000
  const TOTAL_MEMORY: nat := 0x2000_0000
  const DEVICE_SIZE: nat := 0x200_0000

  /** The peripheral windows of the two supported boards. */
  predicate DeviceBase(pbase: nat) { pbase == 0xFE00_0000 || pbase == 0x10_7C00_0000 }

  // ----- pgtable_prot.h -----

  const PTE_RDONLY: Word := 0x80
  const PTE_SHARED: Word := 0x300
  const PTE_AF: Word := 0x400
  const PTE_WRITE: Word := 0x8_0000_0000_0000
  const PTE_PXN: Word := 0x20_0000_0000_0000
  const PTE_UXN: Word := 0x40_0000_0000_0000
  const PTE_DIRTY: Word := 0x80_0000_0000_0000

  /** ORs of distinct bits: PROT_NORMAL, the same without WRITE and PXN but read-only, and
      PROT_DEVICE_nGnRnE, whose memory type (bits 4..2) is 0 instead of 4. */
  const PAGE_KERNEL: Word :=
    TYPE_TABLE + 4 * 4 + PTE_SHARED + PTE_AF + PTE_WRITE + PTE_PXN + PTE_UXN + PTE_DIRTY
  const PAGE_KERNEL_ROX: Word := PAGE_KERNEL - PTE_WRITE - PTE_PXN + PTE_RDONLY
  const PROT_DEVICE: Word := PAGE_KERNEL - 4 * 4

  lemma ProtsValid()
    ensures ValidProt(PAGE_KERNEL) && ValidProt(PAGE_KERNEL_ROX) && ValidProt(PROT_DEVICE)
  {
  }

  // ----- the three requests -----

  function TextRequest(a: nat): Request { Request(TEXT_START, a, 0, PAGE_KERNEL_ROX, 0) }

  function MemoryRequest(a: nat): Request { Request(a, TOTAL_MEMORY, 0, PAGE_KERNEL, 0) }

  function DeviceRequest(pbase: nat): Request { Request(pbase, pbase + DEVICE_SIZE, 0, PROT_DEVICE, 0) }

  function Attributed(va: nat, prot: Word): Translated { Mapped(va, prot / VA_LIMIT, prot % 0x1000 / 4) }

  /** Identity with text read-only and executable, memory read-write, devices device-typed;
      nothing else. */
  function BootMap(textPages: nat, pbase: nat, va: nat): Translated {
    if TEXT_START <= va < textPages then Attributed(va, PAGE_KERNEL_ROX)
    else if textPages <= va < TOTAL_MEMORY then Attributed(va, PAGE_KERNEL)
    else if pbase <= va < pbase + DEVICE_SIZE then Attributed(va, PROT_DEVICE)
    else Fault
  }

  /** Bits of the descriptor that maps an address: the memory type AttrIndx (4..2), no access
      from EL0 (6), read-only (7), inner shareable (9..8), accessed (10), DBM (51), and not
      executable at EL1 (53) and at EL0 (54). */
  predicate Permits(t: Translated, va: nat, memory: nat, readOnly: nat, dbm: nat, pxn: nat) {
    && t.Mapped? && t.pa == va
    && t.lower % 8 == memory && t.lower / 16 % 2 == 0 && t.lower / 32 % 2 == readOnly && t.lower / 64 % 4 == 3
    && t.lower / 256 % 2 == 1 && t.upper / 8 % 2 == dbm && t.upper / 32 % 2 == pxn && t.upper / 64 % 2 == 1
  }

  /** The boot map bit by bit: text read-only and executable, the rest of memory writable and
      not executable, both normal memory, the device window like it but of device type, and
      nothing else; so nothing is writable and executable at once. */
  predicate BootBits(textPages: nat, pbase: nat, va: nat, t: Translated) {
    && (0x8_0000 <= va < textPages ==> Permits(t, va, 4, 1, 0, 0))
    && (textPages <= va < 0x2000_0000 ==> Permits(t, va, 4, 0, 1, 1))
    && (pbase <= va < pbase + 0x200_0000 ==> Permits(t, va, 0, 0, 1, 1))
    && (t == Fault <==>
          !(0x8_0000 <= va < textPages || textPages <= va < 0x2000_0000 || pbase <= va < pbase + 0x200_0000))
    && (t.Mapped? && (t.lower / 32 % 2 == 0 || t.upper / 8 % 2 == 1) ==> t.upper / 32 % 2 == 1)
  }

  lemma BootMapBits(a: nat, pbase: nat, va: nat)
    requires PagesOfImage(a) && DeviceBase(pbase)
    ensures BootBits(a, pbase, va, BootMap(a, pbase, va))
  {
    TextBits(va);
    MemoryBits(va);
    DeviceBits(va);
    hide Permits, Attributed;
  }

  lemma TextBits(va: nat)
    ensures Permits(Attributed(va, PAGE_KERNEL_ROX), va, 4, 1, 0, 0)
    ensures Attributed(va, PAGE_KERNEL_ROX).lower / 32 % 2 == 1 && Attributed(va, PAGE_KERNEL_ROX).upper / 8 % 2 == 0
  {
    Fields(0, 0xC0, 0x793);
    assert PAGE_KERNEL_ROX == 0xC0 * 0x1_0000_0000_0000 + 0x793;
    assert Attributed(va, PAGE_KERNEL_ROX) == Mapped(va, 0xC0, 0x793 / 4);
  }

  lemma MemoryBits(va: nat)
    ensures Permits(Attributed(va, PAGE_KERNEL), va, 4, 0, 1, 1) && Attributed(va, PAGE_KERNEL).upper / 32 % 2 == 1
  {
    Fields(0, 0xE8, 0x713);
    assert PAGE_KERNEL == 0xE8 * 0x1_0000_0000_0000 + 0x713;
    assert Attributed(va, PAGE_KERNEL) == Mapped(va, 0xE8, 0x713 / 4);
  }

  lemma DeviceBits(va: nat)
    ensures Permits(Attributed(va, PROT_DEVICE), va, 0, 0, 1, 1) && Attributed(va, PROT_DEVICE).upper / 32 % 2 == 1
  {
    Fields(0, 0xE8, 0x703);
    assert PROT_DEVICE == 0xE8 * 0x1_0000_0000_0000 + 0x703;
    assert Attributed(va, PROT_DEVICE) == Mapped(va, 0xE8, 0x703 / 4);
  }

  predicate PagesOfImage(a: nat) { TEXT_START < a < TOTAL_MEMORY && a % 0x1000 == 0 }

  lemma RequestsOk(a: nat, pbase: nat)
    requires PagesOfImage(a) && DeviceBase(pbase)
    ensures TextRequest(a).Ok() && MemoryRequest(a).Ok() && DeviceRequest(pbase).Ok()
  {
    ProtsValid();
  }

  // ----- the tables they need -----

  /** A text that ends inside a 2 MB slot other than the first needs pages there too. */
  predicate SplitsSlot(a: nat) { a > 0x20_0000 && a % 0x20_0000 != 0 }

  ghost function TextTables(a: nat): set<Key> {
    {Key(1, 0), Key(2, 0), Key(3, 0)} + if SplitsSlot(a) then {Key(3, a / 0x20_0000)} else {}
  }

  /** The pages paging_init takes: the tables of the text, and one for the devices. */
  function BootPages(a: nat): nat { if SplitsSlot(a) then 5 else 4 }

  lemma TextKeys(a: nat)
    requires PagesOfImage(a)
    ensures AllKeys(TextRequest(a), TEXT_START, a) == TextTables(a)
    ensures Key(1, 0) in TextTables(a) && Key(2, 0) in TextTables(a)
    ensures a % 0x20_0000 != 0 ==> Key(3, a / 0x20_0000) in TextTables(a)
    ensures |TextTables(a)| == BootPages(a) - 1
  {
    TextUpper(a);
    TextPtes(a);
    LowSlot(a);
    hide PteKeys, PmdKeys, PudKeys;
    if SplitsSlot(a) { assert |{Key(1, 0), Key(2, 0), Key(3, 0)} + {Key(3, a / 0x20_0000)}| == 4; }
  }

  lemma LowSlot(a: nat)
    ensures a / 0x20_0000 > 0 <==> a >= 0x20_0000
    ensures a == 0x20_0000 ==> a % 0x20_0000 == 0
  {
    DivisionParts(a, 0x20_0000);
    if a / 0x20_0000 > 0 { MulOrder(1, a / 0x20_0000, 0x20_0000); }
  }

  lemma TextUpper(a: nat)
    requires PagesOfImage(a)
    ensures PudKeys(TEXT_START, a) == {Key(1, 0)} && PmdKeys(TEXT_START, a) == {Key(2, 0)}
  {
    Quotient(a - 1, 0x80_0000_0000, 0, a - 1);
    Quotient(a - 1, 0x4000_0000, 0, a - 1);
  }

  /** The first 2 MB slot of the text is never whole, the last need not be, all others are. */
  lemma TextPtes(a: nat)
    requires PagesOfImage(a)
    ensures PteKeys(TextRequest(a), TEXT_START, a)
            == {Key(3, 0)} + if SplitsSlot(a) then {Key(3, a / 0x20_0000)} else {}
  {
    var r, q, t := TextRequest(a), a / 0x20_0000, a % 0x20_0000;
    DivisionParts(a, 0x20_0000);
    LowSlot(a);
    if t == 0 { Quotient(a - 1, 0x20_0000, q - 1, 0x1F_FFFF); } else { Quotient(a - 1, 0x20_0000, q, t - 1); }
    forall m: nat | m <= (a - 1) / 0x20_0000 ensures r.Section(m) <==> m > 0 && !(t != 0 && m == q) {
      TextSection(a, m);
    }
  }

  lemma TextSection(a: nat, m: nat)
    requires PagesOfImage(a) && m <= (a - 1) / 0x20_0000
    ensures TextRequest(a).Section(m) <==> m > 0 && !(a % 0x20_0000 != 0 && m == a / 0x20_0000)
  {
    var q, t := a / 0x20_0000, a % 0x20_0000;
    DivisionParts(a, 0x20_0000);
    if t == 0 { Quotient(a - 1, 0x20_0000, q - 1, 0x1F_FFFF); } else { Quotient(a - 1, 0x20_0000, q, t - 1); }
    if m < q { MulOrder(m + 1, q, 0x20_0000); }
    if m > 0 { MulOrder(1, m, 0x20_0000); }
  }

  /** The memory mapping finds every table it needs in place. */
  lemma MemoryKeys(a: nat)
    requires PagesOfImage(a)
    ensures AllKeys(MemoryRequest(a), a, TOTAL_MEMORY) <= TextTables(a)
    ensures TextTables(a) !! SectionKeys(TextRequest(a), TEXT_START, a)
  {
    hide TextTables, SectionKeys;
    TextKeys(a);
    MemoryTables(a);
    KeysByLevel(TextRequest(a), TEXT_START, a, TEXT_START, a);
    PteOrSection(TextRequest(a), TEXT_START, a);
  }

  lemma PteOrSection(r: Request, a: nat, e: nat)
    ensures PteKeys(r, a, e) !! SectionKeys(r, a, e)
  {
  }

  lemma MemoryTables(a: nat)
    requires PagesOfImage(a)
    ensures AllKeys(MemoryRequest(a), a, TOTAL_MEMORY)
            <= {Key(1, 0), Key(2, 0)} + if a % 0x20_0000 != 0 then {Key(3, a / 0x20_0000)} else {}
  {
    var r := MemoryRequest(a);
    forall m | a / 0x20_0000 < m <= (TOTAL_MEMORY - 1) / 0x20_0000 ensures r.Section(m) {
    }
    if a % 0x20_0000 == 0 { assert r.Section(a / 0x20_0000); }
  }

  lemma DeviceKeys(pbase: nat)
    requires DeviceBase(pbase)
    ensures AllKeys(DeviceRequest(pbase), pbase, pbase + DEVICE_SIZE) == {Key(1, 0), Key(2, pbase / 0x4000_0000)}
    ensures pbase / 0x4000_0000 > 0
  {
    var r := DeviceRequest(pbase);
    forall m | pbase / 0x20_0000 <= m <= (pbase + DEVICE_SIZE - 1) / 0x20_0000 ensures r.Section(m) {
    }
  }

  lemma EmptyTree(m: Memory, pgd: nat)
    requires PageAddress(pgd) && ZeroPage(m, pgd)
    ensures WellFormed(m, map[Root := pgd], pgd)
    ensures forall va: nat :: va < VA_LIMIT ==> LeafOf(m, pgd, va) == None
  {
    var tab: Tables := map[Root := pgd];
    forall k, i | k in tab && 0 <= i < 512 ensures SlotOk(m, tab, k, i) {
      assert Load(m, pgd + 8 * i) == 0;
    }
    forall va: nat | va < VA_LIMIT ensures LeafOf(m, pgd, va) == None {
      Resolve(m, tab, pgd, va);
    }
  }

  /** After some boot mappings: which addresses are mapped, and how. */
  ghost predicate MapsExactly(m: Memory, pgd: nat, f: nat -> Translated) {
    forall va: nat :: va < VA_LIMIT ==>
      Translate(m, pgd, va) == f(va) && (f(va) == Fault ==> LeafOf(m, pgd, va) == None)
  }

  /** `g` is `f` with the identity on the range of `r`, which `f` leaves unmapped. */
  ghost predicate Extends(r: Request, f: nat -> Translated, g: nat -> Translated) {
    && r.delta == 0
    && (forall va: nat :: r.lo <= va < r.hi ==> f(va) == Fault)
    && (forall va: nat :: va < VA_LIMIT ==>
          g(va) == if r.lo <= va < r.hi then Attributed(va + r.delta, r.prot) else f(va))
  }

  /** A mapping of a range that was unmapped adds exactly that range. */
  lemma MappingExtends(m0: Memory, m1: Memory, pgd: nat, r: Request, f: nat -> Translated, g: nat -> Translated)
    requires r.Ok() && Installs(m0, m1, pgd, r, r.lo, r.hi) && MapsExactly(m0, pgd, f) && Extends(r, f, g)
    ensures MapsExactly(m1, pgd, g)
  {
    hide Translate, LeafOf, Request.Want, Request.Ok;
    forall va: nat | va < VA_LIMIT
      ensures Translate(m1, pgd, va) == g(va) && (g(va) == Fault ==> LeafOf(m1, pgd, va) == None)
    {
      CallTranslates(m0, m1, pgd, r, va);
    }
  }

  lemma CallExtends(s0: State, s1: State, pgd: nat, r: Request, f: nat -> Translated, g: nat -> Translated)
    requires r.Ok() && Call(s0, s1, pgd, r) && MapsExactly(s0.mem, pgd, f) && Extends(r, f, g)
    ensures MapsExactly(s1.mem, pgd, g)
  {
    hide MapsExactly, Extends, Good, Installs, Footprint;
    MappingExtends(s0.mem, s1.mem, pgd, r, f, g);
  }

  lemma UnmappedRange(m: Memory, pgd: nat, r: Request, f: nat -> Translated, g: nat -> Translated)
    requires r.Ok() && MapsExactly(m, pgd, f) && Extends(r, f, g)
    ensures NoConflict(m, pgd, r, r.lo, r.hi)
  {
    hide LeafOf, Translate;
  }

  function Nothing(): nat -> Translated { (va: nat) => Fault }

  function TextOnly(a: nat): nat -> Translated {
    va => if TEXT_START <= va < a then Attributed(va, PAGE_KERNEL_ROX) else Fault
  }

  function TextAndMemory(a: nat): nat -> Translated {
    va => if TEXT_START <= va < a then Attributed(va, PAGE_KERNEL_ROX)
          else if a <= va < TOTAL_MEMORY then Attributed(va, PAGE_KERNEL) else Fault
  }

  function Everything(a: nat, pbase: nat): nat -> Translated { (va: nat) => BootMap(a, pbase, va) }

  /** The tables the text mapping leaves: enough for the memory mapping. */
  lemma TablesAfterText(s0: State, s1: State, pgd: nat, a: nat)
    requires PagesOfImage(a) && TextRequest(a).Ok() && Call(s0, s1, pgd, TextRequest(a))
    ensures AllKeys(MemoryRequest(a), a, TOTAL_MEMORY) <= s1.tab.Keys <= s0.tab.Keys + TextTables(a)
    ensures |s0.free| - |s1.free| == |TextTables(a) - s0.tab.Keys| && s1.rest == s0.rest
  {
    hide *;
    var r := TextRequest(a);
    TextKeys(a);
    MemoryKeys(a);
    TextBounds(a);
    RestKept(s0, s1, pgd, r);
    CallPages(s0, s1, pgd, r);
    CallKeys(s0, s1, pgd, r);
    EnoughKeys(s0.tab.Keys, s1.tab.Keys, TextTables(a), SectionKeys(r, TEXT_START, a),
        AllKeys(MemoryRequest(a), a, TOTAL_MEMORY));
  }

  lemma TextBounds(a: nat)
    ensures TextRequest(a).lo == TEXT_START && TextRequest(a).hi == a
  {
  }

  lemma CallKeys(s0: State, s1: State, pgd: nat, r: Request)
    requires r.Ok() && Call(s0, s1, pgd, r)
    ensures s1.tab.Keys == s0.tab.Keys + AllKeys(r, r.lo, r.hi) - SectionKeys(r, r.lo, r.hi)
  {
    hide Good, Installs, Installed, Footprint, AllKeys, SectionKeys;
  }

  lemma EnoughKeys(t0: set<Key>, t1: set<Key>, added: set<Key>, gone: set<Key>, needed: set<Key>)
    requires t1 == t0 + added - gone && needed <= added && needed !! gone
    ensures needed <= t1 <= t0 + added
  {
  }

  /** A call takes only pages that come before the directory. */
  lemma RestKept(s0: State, s1: State, pgd: nat, r: Request)
    requires r.Ok() && Call(s0, s1, pgd, r)
    ensures s1.rest == s0.rest
  {
    hide Good, Installs, Installed, AllKeys, SectionKeys;
  }

  lemma NothingMissing(keys: set<Key>, tab: set<Key>)
    requires keys <= tab
    ensures |keys - tab| == 0
  {
    assert keys - tab == {};
  }

  /** Tables stay where they are, or lie in pages that could be taken. */
  ghost predicate Grown(s0: State, s1: State) {
    && s1.free <= s0.free
    && forall k :: k in s1.tab ==> (k in s0.tab && s1.tab[k] == s0.tab[k]) || PageIndex(s1.tab[k]) in s0.free
  }

  lemma CallGrows(s0: State, s1: State, pgd: nat, r: Request)
    requires r.Ok() && Call(s0, s1, pgd, r)
    ensures Grown(s0, s1)
  {
    hide Good, Installs, Installed, AllKeys, SectionKeys, MayWrite;
  }

  lemma GrownTwice(s0: State, s1: State, s2: State)
    requires Grown(s0, s1) && Grown(s1, s2)
    ensures Grown(s0, s2)
  {
  }

  /** create_identity_mapping. */
  method CreateIdentityMapping(t: PageTables, textEnd: Word)
    requires t.Valid() && MapsExactly(t.mem, t.pgd, Nothing())
    requires TEXT_START < textEnd < TOTAL_MEMORY && PageAlign(textEnd) < TOTAL_MEMORY
    requires |t.Now().free| >= |TextTables(PageAlign(textEnd)) - t.tab.Keys|
    modifies t, t.alloc.memMap
    ensures t.Valid() && MapsExactly(t.mem, t.pgd, TextAndMemory(PageAlign(textEnd)))
    ensures Sections(t.mem, t.pgd, PageAlign(textEnd))
    ensures |old(t.Now()).free| - |t.Now().free| == |TextTables(PageAlign(textEnd)) - old(t.tab).Keys|
    ensures t.Now().rest == old(t.Now()).rest && t.tab.Keys <= old(t.tab).Keys + TextTables(PageAlign(textEnd))
    ensures TopTable(old(t.tab), old(t.alloc.Free()), t.tab, 0) && Grown(old(t.Now()), t.Now())
  {
    hide Good, Step, NoConflict, Usable, Takeable, AllKeys, MapsExactly, RequestFor, Request.Ok, FreeIn, PageAlign,
         TextRequest, MemoryRequest, TextOnly, TextAndMemory, Extends, Nothing, TextTables, Sections, TopTable, Call,
         Grown;
    ghost var a, s0, free := PageAlign(textEnd), t.Now(), t.alloc.Free();
    ImagePages(textEnd);
    RequestsOk(a, 0xFE00_0000);
    Layout(a, 0xFE00_0000);
    TextKeys(a);
    MapIdentity(t, TEXT_START, textEnd - TEXT_START, PAGE_KERNEL_ROX, TextRequest(a), Nothing(), TextOnly(a));
    ghost var s1 := t.Now();
    TablesAfterText(s0, s1, t.pgd, a);
    NothingMissing(AllKeys(MemoryRequest(a), a, TOTAL_MEMORY), s1.tab.Keys);
    var start := PageAlign(textEnd);
    MapIdentity(t, start, TOTAL_MEMORY - start, PAGE_KERNEL, MemoryRequest(a), TextOnly(a), TextAndMemory(a));
    TablesAfterMemory(s1, t.Now(), t.pgd, a);
    MemorySections(s1, t.Now(), t.pgd, a);
    SameTop(s0.tab, free, s1.tab);
    TopKept(s0.tab, free, s1, t.Now(), t.pgd, MemoryRequest(a));
    GrownTwice(s0, s1, t.Now());
  }

  /** __create_pgd_mapping of an identity range that was unmapped. */
  method MapIdentity(t: PageTables, start: Word, size: Word, prot: Word, ghost r: Request,
                     ghost f: nat -> Translated, ghost g: nat -> Translated)
    requires t.Valid() && r.Ok() && start + size <= VA_LIMIT && RequestFor(start, start, size, prot, 0) == r
    requires MapsExactly(t.mem, t.pgd, f) && Extends(r, f, g)
             && |t.Now().free| >= |AllKeys(r, r.lo, r.hi) - t.tab.Keys|
    modifies t, t.alloc.memMap
    ensures t.Valid() && Call(old(t.Now()), t.Now(), t.pgd, r) && MapsExactly(t.mem, t.pgd, g)
    ensures TopTable(old(t.tab), old(t.alloc.Free()), t.tab, r.lo) && Grown(old(t.Now()), t.Now())
  {
    hide Good, Step, NoConflict, Takeable, AllKeys, MapsExactly, RequestFor, Request.Ok, FreeIn, Extends, Call,
         TopTable, Grown;
    ghost var s := t.Now();
    UnmappedRange(t.mem, t.pgd, r, f, g);
    t.CreatePgdMapping(start, start, size, prot, 0);
    IsCall(s, t.Now(), t.pgd, r);
    CallExtends(s, t.Now(), t.pgd, r, f, g);
    CallGrows(s, t.Now(), t.pgd, r);
  }

  /** Whole 2 MB slots of memory behind the text are sections. */
  ghost predicate Sections(m: Memory, pgd: nat, a: nat) {
    forall va: nat :: a <= va - va % 0x20_0000 && va < TOTAL_MEMORY ==>
      LeafOf(m, pgd, va) == Some(Leaf(2, va - va % 0x20_0000 + PAGE_KERNEL - 2))
  }

  lemma MemorySections(s1: State, s2: State, pgd: nat, a: nat)
    requires PagesOfImage(a) && MemoryRequest(a).Ok() && Call(s1, s2, pgd, MemoryRequest(a))
    ensures Sections(s2.mem, pgd, a)
  {
    var r := MemoryRequest(a);
    hide LeafOf, Call, Request.Ok;
    forall va: nat | a <= va - va % 0x20_0000 && va < TOTAL_MEMORY
      ensures LeafOf(s2.mem, pgd, va) == Some(Leaf(2, va - va % 0x20_0000 + PAGE_KERNEL - 2))
    {
      CallParts(s1, s2, pgd, r, va);
      assert r.Section(va / 0x20_0000);
    }
  }

  /** The first table of the text mapping stays where it is. */
  lemma TopKept(tab: Tables, free: set<nat>, s1: State, s2: State, pgd: nat, r: Request)
    requires r.Ok() && Call(s1, s2, pgd, r) && TopTable(tab, free, s1.tab, 0)
    ensures TopTable(tab, free, s2.tab, 0)
  {
    hide Step, AllKeys;
    StepKeeps(s1, s2, pgd, r, AllKeys(r, r.lo, r.hi), r.lo, r.hi, Key(1, 0));
  }

  lemma SameTop(tab: Tables, free: set<nat>, after: Tables)
    requires TopTable(tab, free, after, TEXT_START)
    ensures TopTable(tab, free, after, 0)
  {
  }

  /** The sections of memory stay under a mapping of the devices. */
  lemma SectionsKept(s1: State, s2: State, pgd: nat, a: nat, pbase: nat)
    requires DeviceBase(pbase) && DeviceRequest(pbase).Ok() && Call(s1, s2, pgd, DeviceRequest(pbase))
    requires Sections(s1.mem, pgd, a)
    ensures Sections(s2.mem, pgd, a)
  {
    hide Good, Footprint, Installed, AllKeys, SectionKeys, LeafOf, Request.Want, Request.Ok;
  }

  lemma ImagePages(textEnd: Word)
    requires TEXT_START < textEnd < TOTAL_MEMORY && PageAlign(textEnd) < TOTAL_MEMORY
    ensures PagesOfImage(PageAlign(textEnd)) && textEnd <= PageAlign(textEnd)
    ensures RequestFor(TEXT_START, TEXT_START, textEnd - TEXT_START, PAGE_KERNEL_ROX, 0)
            == TextRequest(PageAlign(textEnd))
    ensures RequestFor(PageAlign(textEnd), PageAlign(textEnd), TOTAL_MEMORY - PageAlign(textEnd), PAGE_KERNEL, 0)
            == MemoryRequest(PageAlign(textEnd))
  {
    hide PageMask, PageAlign, RequestFor;
    PageRounding(textEnd);
    IdentityCall(TEXT_START, textEnd, PAGE_KERNEL_ROX);
    IdentityCall(PageAlign(textEnd), TOTAL_MEMORY, PAGE_KERNEL);
    PageFixed(TOTAL_MEMORY);
  }

  lemma IdentityCall(start: Word, end: Word, prot: Word)
    requires start < end <= VA_LIMIT && start % 0x1000 == 0
    ensures RequestFor(start, start, end - start, prot, 0) == Request(start, PageAlign(end), 0, prot, 0)
  {
    PageFixed(start);
    hide PageMask, PageAlign;
  }

  lemma PageFixed(x: Word)
    requires x % 0x1000 == 0 && x <= VA_LIMIT
    ensures PageMask(x) == x && PageAlign(x) == x
  {
  }

  lemma TablesAfterMemory(s1: State, s2: State, pgd: nat, a: nat)
    requires PagesOfImage(a) && MemoryRequest(a).Ok() && Call(s1, s2, pgd, MemoryRequest(a))
    requires AllKeys(MemoryRequest(a), a, TOTAL_MEMORY) <= s1.tab.Keys
    ensures |s2.free| == |s1.free| && s2.rest == s1.rest && s2.tab.Keys <= s1.tab.Keys
  {
    RestKept(s1, s2, pgd, MemoryRequest(a));
    CallKeys(s1, s2, pgd, MemoryRequest(a));
    hide Good, Footprint, Installs, Installed;
    NothingMissing(AllKeys(MemoryRequest(a), a, TOTAL_MEMORY), s1.tab.Keys);
  }

  /** create_mmio_mapping. */
  method CreateMmioMapping(t: PageTables, pbase: Word, ghost a: nat)
    requires t.Valid() && PagesOfImage(a) && MapsExactly(t.mem, t.pgd, TextAndMemory(a))
    requires DeviceBase(pbase) && Key(1, 0) in t.tab && |t.Now().free| >= |{Key(2, pbase / 0x4000_0000)} - t.tab.Keys|
    modifies t, t.alloc.memMap
    ensures t.Valid() && MapsExactly(t.mem, t.pgd, Everything(a, pbase))
    ensures |old(t.Now()).free| - |t.Now().free| == |{Key(2, pbase / 0x4000_0000)} - old(t.tab).Keys|
    ensures t.Now().rest == old(t.Now()).rest && Grown(old(t.Now()), t.Now())
    ensures forall tab, free :: TopTable(tab, free, old(t.tab), 0) ==> TopTable(tab, free, t.tab, 0)
    ensures Sections(old(t.mem), t.pgd, a) ==> Sections(t.mem, t.pgd, a)
  {
    hide Good, Step, NoConflict, Usable, Takeable, AllKeys, MapsExactly, DeviceRequest, RequestFor, Request.Ok,
         FreeIn, Everything, TextAndMemory, Extends, Grown, TopTable, Sections, Call;
    ghost var s0 := t.Now();
    RequestsOk(a, pbase);
    DeviceRoom(s0, pbase);
    Layout(a, pbase);
    DeviceCall(pbase);
    MapIdentity(t, pbase, DEVICE_SIZE, PROT_DEVICE, DeviceRequest(pbase), TextAndMemory(a), Everything(a, pbase));
    CallPages(s0, t.Now(), t.pgd, DeviceRequest(pbase));
    RestKept(s0, t.Now(), t.pgd, DeviceRequest(pbase));
    if Sections(s0.mem, t.pgd, a) { SectionsKept(s0, t.Now(), t.pgd, a, pbase); }
    forall tab, free | TopTable(tab, free, s0.tab, 0) ensures TopTable(tab, free, t.tab, 0) {
      TopKept(tab, free, s0, t.Now(), t.pgd, DeviceRequest(pbase));
    }
  }

  lemma Layout(a: nat, pbase: nat)
    requires PagesOfImage(a) && DeviceBase(pbase)
    ensures Extends(TextRequest(a), Nothing(), TextOnly(a))
    ensures Extends(MemoryRequest(a), TextOnly(a), TextAndMemory(a))
    ensures Extends(DeviceRequest(pbase), TextAndMemory(a), Everything(a, pbase))
    ensures TextRequest(a).lo == TEXT_START && TextRequest(a).hi == a == MemoryRequest(a).lo
    ensures MemoryRequest(a).hi == TOTAL_MEMORY
  {
  }

  lemma DeviceCall(pbase: Word)
    requires DeviceBase(pbase)
    ensures RequestFor(pbase, pbase, DEVICE_SIZE, PROT_DEVICE, 0) == DeviceRequest(pbase)
    ensures DeviceRequest(pbase).lo == PageMask(pbase) == pbase
    ensures DeviceRequest(pbase).hi == PageAlign(pbase + DEVICE_SIZE) == pbase + DEVICE_SIZE
    ensures ValidProt(PROT_DEVICE)
  {
    hide PageMask, PageAlign, RequestFor;
    DeviceAligned(pbase);
    PageFixed(pbase);
    PageFixed(pbase + DEVICE_SIZE);
    IdentityCall(pbase, pbase + DEVICE_SIZE, PROT_DEVICE);
    ProtsValid();
  }

  lemma DeviceAligned(pbase: nat)
    requires DeviceBase(pbase)
    ensures pbase % 0x1000 == 0 && (pbase + DEVICE_SIZE) % 0x1000 == 0 && pbase + DEVICE_SIZE <= VA_LIMIT
  {
  }

  lemma DeviceRoom(s: State, pbase: nat)
    requires DeviceBase(pbase) && Key(1, 0) in s.tab
    ensures AllKeys(DeviceRequest(pbase), pbase, pbase + DEVICE_SIZE) - s.tab.Keys
            == {Key(2, pbase / 0x4000_0000)} - s.tab.Keys
  {
    hide AllKeys;
    DeviceKeys(pbase);
  }

  /** An empty directory in place. */
  method ClearDirectory(t: PageTables)
    requires t.alloc.Valid() && PageAddress(t.pgd)
    modifies t
    ensures t.Valid() && MapsExactly(t.mem, t.pgd, Nothing())
    ensures t.tab == map[Root := t.pgd] && t.zeroFree == (t.pgd != 0)
  {
    hide LeafOf, FreeIn;
    t.ClearPage(t.pgd);
    t.tab := map[Root := t.pgd];
    t.zeroFree := t.pgd != 0;
    EmptyTree(t.mem, t.pgd);
    RootOnly(t.Now(), t.alloc.Free(), t.pgd);
    NothingMapped(t.mem, t.pgd);
  }

  lemma NothingMapped(m: Memory, pgd: nat)
    requires forall va: nat :: va < VA_LIMIT ==> LeafOf(m, pgd, va) == None
    ensures MapsExactly(m, pgd, Nothing())
  {
    hide LeafOf;
  }

  lemma RootOnly(s: State, free: set<nat>, pgd: nat)
    requires s.tab == map[Root := pgd] && s.free == Takeable(free, pgd, pgd != 0)
             && s.rest == free - Usable(free, pgd)
    requires forall i :: i in free ==> 0 <= i
    ensures Owned(s.tab, pgd, s.free, s.rest)
  {
    assert PageIndex(0) < 0;
  }

  /** paging_init up to the system registers, when the pages it needs can be taken. */
  method PagingInit(t: PageTables, textEnd: Word, pbase: Word)
    requires t.alloc.Valid() && PageAddress(t.pgd)
    requires TEXT_START < textEnd < TOTAL_MEMORY && PageAlign(textEnd) < TOTAL_MEMORY && DeviceBase(pbase)
    requires |Takeable(t.alloc.Free(), t.pgd, t.pgd != 0)| >= BootPages(PageAlign(textEnd))
    modifies t, t.alloc.memMap
    ensures t.Valid()
    ensures forall va: nat :: va < VA_LIMIT ==>
              Translate(t.mem, t.pgd, va) == BootMap(PageAlign(textEnd), pbase, va)
    ensures forall va: nat :: va < VA_LIMIT ==>
              BootBits(PageAlign(textEnd), pbase, va, Translate(t.mem, t.pgd, va))
    ensures |old(Takeable(t.alloc.Free(), t.pgd, t.pgd != 0))| - |t.Now().free| == BootPages(PageAlign(textEnd))
    ensures forall k :: k in t.tab && k != Root ==>
              PageIndex(t.tab[k]) in old(Takeable(t.alloc.Free(), t.pgd, t.pgd != 0))
    ensures Sections(t.mem, t.pgd, PageAlign(textEnd))
    ensures TopTable(map[Root := t.pgd], old(t.alloc.Free()), t.tab, 0)
  {
    hide Good, WellFormed, LeafOf, FreeIn, Takeable, Usable, PageAlign, TextTables, MapsExactly, Everything,
         TextAndMemory, Nothing, Sections, DeviceBase, RequestFor, Request.Ok, Grown, TopTable;
    ClearDirectory(t);
    ImagePages(textEnd);
    ghost var a, s0, free := PageAlign(textEnd), t.Now(), t.alloc.Free();
    TextKeys(a);
    FreshTables(t.tab.Keys, a, pbase);
    CreateIdentityMapping(t, textEnd);
    ghost var s1 := t.Now();
    FreshDevice(t.tab.Keys, a, pbase);
    TopThere(s0.tab, free, t.tab);
    CreateMmioMapping(t, pbase, a);
    GrownTwice(s0, s1, t.Now());
    FromRoot(s0, t.Now(), t.pgd);
    EverythingMapped(t.mem, t.pgd, a, pbase);
    forall va: nat | va < VA_LIMIT ensures BootBits(a, pbase, va, Translate(t.mem, t.pgd, va)) {
      BootMapBits(a, pbase, va);
    }
  }

  lemma TopThere(before: Tables, free: set<nat>, after: Tables)
    requires TopTable(before, free, after, 0)
    ensures Key(1, 0) in after
  {
  }

  lemma FromRoot(s0: State, s1: State, pgd: nat)
    requires s0.tab == map[Root := pgd] && Grown(s0, s1)
    ensures forall k :: k in s1.tab && k != Root ==> PageIndex(s1.tab[k]) in s0.free
  {
  }

  lemma EverythingMapped(m: Memory, pgd: nat, a: nat, pbase: nat)
    requires MapsExactly(m, pgd, Everything(a, pbase))
    ensures forall va: nat :: va < VA_LIMIT ==> Translate(m, pgd, va) == BootMap(a, pbase, va)
  {
    hide LeafOf, Translate, BootMap;
  }

  /** Besides the directory every table of the boot map is new. */
  lemma FreshTables(tab: set<Key>, a: nat, pbase: nat)
    requires tab == {Root}
    ensures TextTables(a) - tab == TextTables(a)
  {
  }

  lemma FreshDevice(tab: set<Key>, a: nat, pbase: nat)
    requires DeviceBase(pbase) && tab <= {Root} + TextTables(a)
    ensures {Key(2, pbase / 0x4000_0000)} - tab == {Key(2, pbase / 0x4000_0000)}
  {
  }

  // ----- the image and the allocator -----

  /** At boot the pages from `first` on are free: those before were taken, and nothing marks
      the image used. */
  ghost predicate FreeFrom(free: set<nat>, first: nat) {
    first <= NR_PAGES && forall i :: i in free <==> first <= i < NR_PAGES
  }

  /** irq_domain_add before the boot: it takes the next page. */
  method TakeNextPage(pages: PageAllocator, ghost first: nat) returns (p: nat)
    requires pages.Valid() && FreeFrom(pages.Free(), first) && first < NR_PAGES
    modifies pages.memMap
    ensures pages.Valid() && p == PageAt(first) && FreeFrom(pages.Free(), first + 1)
  {
    assert first in pages.Free();
    p := pages.GetFreePage();
  }

  /** The pages paging_init needs can then be taken if and only if the directory is not one of
      the as many next pages. */
  lemma BootRoomIff(free: set<nat>, pgd: nat, a: nat, first: nat)
    requires PageAddress(pgd) && FreeFrom(free, first) && first + BootPages(a) <= NR_PAGES
    ensures |Takeable(free, pgd, pgd != 0)| >= BootPages(a)
            <==> !(PageAt(first) <= pgd < PageAt(first + BootPages(a)))
  {
    PagesFrom(free, first, NR_PAGES);
    if IsPage(pgd) && PageIndex(pgd) in free {
      PagesFrom(Usable(free, pgd), first, PageIndex(pgd));
      assert Takeable(free, pgd, pgd != 0) == Usable(free, pgd);
    } else {
      FreeTaken(free, Takeable(free, pgd, pgd != 0));
    }
  }

  lemma FreeTaken(free: set<nat>, all: set<int>)
    requires forall i :: i in free ==> i in all
    ensures |free| <= |all|
  {
    var rest := all - free;
    assert all == free + rest;
    assert |free + rest| == |free| + |rest|;
  }

  lemma {:induction false} PagesFrom(s: set<nat>, first: nat, n: nat)
    requires first <= n && forall i :: i in s <==> first <= i < n
    ensures |s| == n - first
    decreases n
  {
    if n == first {
      assert s == {};
    } else {
      assert n - 1 in s;
      PagesFrom(s - {n - 1}, first, n - 1);
    }
  }

  /** The first table page lies in the text if and only if the text reaches above it: it is
      then cleared over the text. */
  method FirstTablePage(t: PageTables, textEnd: nat, ghost first: nat) returns (page: Word)
    requires t.alloc.Valid() && FreeFrom(t.alloc.Free(), first) && first < NR_PAGES
    modifies t`mem, t.alloc.memMap
    ensures page == PageAt(first)
    ensures TEXT_START <= page < textEnd <==> textEnd > PageAt(first)
    ensures ZeroPage(t.mem, page)
  {
    assert first in t.alloc.Free();
    page := t.EarlyPgtableAlloc();
    assert page == PageAt(first);
  }

  /** A boot with the text below 4 MB, and then a page requested at LOW_MEMORY, which is mapped
      by a section. The descriptor is stored over the first word of that section. If no page was
      taken before the boot, that is entry 0 of the first table, and every address below 1 GB
      goes on from the page asked for, taken for a table. If the directory lies there, it is
      entry 0 of the directory, and so does every address below 512 GB. Where the page asked for
      is empty they lose their translation. All others stay as they were. */
  method PageAtLowMemory(t: PageTables, textEnd: Word, pbase: Word, ghost first: nat, phys: Word, prot: Word)
    returns (ghost before: Memory)
    requires t.alloc.Valid() && PageAddress(t.pgd) && FreeFrom(t.alloc.Free(), first)
    requires TEXT_START < textEnd <= LOW_MEMORY && DeviceBase(pbase)
    requires first + BootPages(PageAlign(textEnd)) <= NR_PAGES
    requires !(PageAt(first) <= t.pgd < PageAt(first + BootPages(PageAlign(textEnd))))
    requires phys % 0x1000 == 0 && phys + 0x1000 <= VA_LIMIT && ValidProt(prot)
    modifies t, t.alloc.memMap
    ensures forall va: nat :: va < VA_LIMIT ==>
              Translate(before, t.pgd, va) == BootMap(PageAlign(textEnd), pbase, va)
    ensures Key(1, 0) in t.tab && t.tab[Key(1, 0)] == PageAt(first)
    ensures t.mem == PteStores(before, LOW_MEMORY, phys, prot, 1)
    ensures forall va: nat :: va < VA_LIMIT ==>
              LeafOf(t.mem, t.pgd, va)
              == if Redirected(first, t.pgd, va) then LeafFrom(t.mem, t.pgd, phys, va) else LeafOf(before, t.pgd, va)
    ensures ZeroPage(before, phys) && phys != LOW_MEMORY ==>
              forall va: nat :: va < VA_LIMIT && Redirected(first, t.pgd, va) ==> LeafOf(t.mem, t.pgd, va) == None
  {
    hide Good, WellFormed, LeafOf, FreeIn, Takeable, Usable, PageAlign, Translate, BootMap, Sections, Load, PagePaddr,
         PteStores, Walk, ValidProt, PteIndex, TopTable, ZeroPage, Redirected, LeafFrom, DeviceBase, PmdOf;
    ghost var a, free := PageAlign(textEnd), t.alloc.Free();
    BootRoomIff(free, t.pgd, a, first);
    LowImage(textEnd);
    PagingInit(t, textEnd, pbase);
    before := t.mem;
    ghost var s := t.Now();
    TopIsFirst(map[Root := t.pgd], free, t.tab, first);
    LowSection(s, t.pgd, a);
    BootTables(s, t.pgd, free, first);
    MapOnePage(t, LOW_MEMORY, phys, prot);
    LowStore(s, t.pgd, first, phys, prot);
  }

  /** Addresses translated through the first word at LOW_MEMORY. */
  predicate Redirected(first: nat, pgd: nat, va: nat) {
    (first == 0 && va < 0x4000_0000) || (pgd == LOW_MEMORY && va < 0x80_0000_0000)
  }

  /** The walk from `page` on, as the table that entry 0 of the directory, or of the first
      table below it, leads to. */
  function LeafFrom(m: Memory, pgd: nat, page: nat, va: nat): Option<Leaf> {
    ReadLeaf(m, Walk(m, page, if pgd == LOW_MEMORY then 1 else 2, va))
  }

  lemma LowImage(textEnd: Word)
    requires TEXT_START < textEnd <= LOW_MEMORY
    ensures PageAlign(textEnd) <= LOW_MEMORY < TOTAL_MEMORY
  {
    hide PageAlign;
    PageRounding(textEnd);
    Quotient(PageAlign(textEnd), 0x1000, PageAlign(textEnd) / 0x1000, 0);
  }

  /** Entry 2 of the level-2 table is that of LOW_MEMORY, and entry 0 of the level-3 table. */
  lemma LowIndices()
    ensures PmdIndex(LOW_MEMORY) == 2 && PteIndex(LOW_MEMORY) == 0
  {
    hide PmdIndex, PteIndex;
    assert PmdIndex(LOW_MEMORY) == LOW_MEMORY / 0x20_0000 % 512 && PteIndex(LOW_MEMORY) == LOW_MEMORY / 0x1000 % 512;
  }

  lemma TopIsFirst(before: Tables, free: set<nat>, after: Tables, first: nat)
    requires TopTable(before, free, after, 0) && Key(1, 0) !in before && FreeFrom(free, first) && first < NR_PAGES
    ensures Key(1, 0) in after && after[Key(1, 0)] == PageAt(first)
  {
    assert first in free;
  }

  /** The entry for LOW_MEMORY is a section that begins there. */
  lemma LowSection(s: State, pgd: nat, a: nat)
    requires Good(s, pgd) && Sections(s.mem, pgd, a) && a <= LOW_MEMORY
    ensures Key(2, 0) in s.tab && PmdOf(s, LOW_MEMORY) != 0 && PagePaddr(PmdOf(s, LOW_MEMORY)) == LOW_MEMORY
    ensures LOW_MEMORY / 0x4000_0000 == 0 && LOW_MEMORY % 0x1000 == 0 && PteIndex(LOW_MEMORY) == 0
  {
    hide Good, LeafOf, PagePaddr, PmdIndex, PteIndex, Load;
    LowIndices();
    ProtsValid();
    SectionBase(LOW_MEMORY, PAGE_KERNEL);
    assert LeafOf(s.mem, pgd, LOW_MEMORY) == Some(Leaf(2, LOW_MEMORY + PAGE_KERNEL - 2));
    SectionEntry(s, pgd, LOW_MEMORY, LOW_MEMORY + PAGE_KERNEL - 2);
    assert PathKey(2, LOW_MEMORY) == Key(2, 0) && Index(2, LOW_MEMORY) == 2;
  }

  /** Of the tables of the boot map only the first, or the directory, can lie at LOW_MEMORY. */
  lemma BootTables(s: State, pgd: nat, free: set<nat>, first: nat)
    requires Good(s, pgd) && FreeFrom(free, first) && first < NR_PAGES
    requires forall k :: k in s.tab && k != Root ==> PageIndex(s.tab[k]) in Takeable(free, pgd, pgd != 0)
    requires Key(1, 0) in s.tab && s.tab[Key(1, 0)] == PageAt(first)
    requires pgd == LOW_MEMORY ==> first > 0
    ensures forall k :: k in s.tab && s.tab[k] == LOW_MEMORY ==>
              if k == Root then pgd == LOW_MEMORY else k == Key(1, 0) && first == 0
    ensures pgd == LOW_MEMORY ==> Root in s.tab && s.tab[Root] == LOW_MEMORY
  {
    RootPresent(s, pgd);
    hide Owned;
    forall k | k in s.tab && s.tab[k] == LOW_MEMORY
      ensures if k == Root then pgd == LOW_MEMORY else k == Key(1, 0) && first == 0
    {
      if k != Root {
        assert PageIndex(LOW_MEMORY) == 0;
        assert 0 in free;
      }
    }
  }

  /** The store at LOW_MEMORY, by what lies there. */
  lemma LowStore(s: State, pgd: nat, first: nat, phys: nat, prot: Word)
    requires Good(s, pgd) && Key(1, 0) in s.tab && s.tab[Key(1, 0)] == PageAt(first)
    requires forall k :: k in s.tab && s.tab[k] == LOW_MEMORY ==>
               if k == Root then pgd == LOW_MEMORY else k == Key(1, 0) && first == 0
    requires pgd == LOW_MEMORY ==> first > 0 && Root in s.tab && s.tab[Root] == LOW_MEMORY
    requires phys % 0x1000 == 0 && phys + 0x1000 <= VA_LIMIT && ValidProt(prot)
    ensures var after := PteStores(s.mem, LOW_MEMORY, phys, prot, 1);
            && (forall va: nat :: va < VA_LIMIT ==>
                  LeafOf(after, pgd, va)
                  == if Redirected(first, pgd, va) then LeafFrom(after, pgd, phys, va) else LeafOf(s.mem, pgd, va))
            && (ZeroPage(s.mem, phys) && phys != LOW_MEMORY ==>
                  forall va: nat :: va < VA_LIMIT && Redirected(first, pgd, va) ==> LeafOf(after, pgd, va) == None)
  {
    hide Good, LeafOf, PteStores, Walk, ValidProt, Load;
    var after := PteStores(s.mem, LOW_MEMORY + 8 * 0, phys, prot, 1);
    forall va: nat | va < VA_LIMIT
      ensures LeafOf(after, pgd, va)
              == if Redirected(first, pgd, va) then LeafFrom(after, pgd, phys, va) else LeafOf(s.mem, pgd, va)
    {
      FirstSlots(va);
      if pgd == LOW_MEMORY {
        StoresIntoTable(s, pgd, Root, 0, phys, prot, 1, va);
      } else if first == 0 {
        StoresIntoTable(s, pgd, Key(1, 0), 0, phys, prot, 1, va);
      } else {
        LoopIntoSection(s, pgd, LOW_MEMORY, 0, phys, prot, 1);
      }
    }
    if ZeroPage(s.mem, phys) && phys != LOW_MEMORY {
      StillZero(s.mem, phys, prot);
      forall va: nat | va < VA_LIMIT && Redirected(first, pgd, va) ensures LeafOf(after, pgd, va) == None {
        EmptyWalk(after, phys, if pgd == LOW_MEMORY then 1 else 2, va);
      }
    }
  }

  /** Below 512 GB is what entry 0 of the directory translates, below 1 GB what entry 0 of the
      first level-1 table does. */
  lemma FirstSlots(va: nat)
    requires va < VA_LIMIT
    ensures Through(Root, 0, 1, va) <==> va < 0x80_0000_0000
    ensures Through(Key(1, 0), 0, 1, va) <==> va < 0x4000_0000
    ensures va < 0x80_0000_0000 ==> Index(0, va) == 0
    ensures va < 0x4000_0000 ==> Index(1, va) == 0
  {
    var h, g := va / 0x80_0000_0000, va / 0x4000_0000;
    DivisionParts(va, 0x80_0000_0000);
    DivisionParts(va, 0x4000_0000);
    SlotSplit(0, va);
    if g == 0 { assert va < 0x4000_0000; }
    if h == 0 { assert va < 0x80_0000_0000; }
  }

  lemma StillZero(m: Memory, phys: nat, prot: Word)
    requires ZeroPage(m, phys) && phys % 0x1000 == 0 && phys + 0x1000 <= VA_LIMIT && phys != LOW_MEMORY
    ensures ZeroPage(PteStores(m, LOW_MEMORY + 8 * 0, phys, prot, 1), phys)
  {
    hide PteStores, Load;
    forall j | 0 <= j < 512 ensures Load(PteStores(m, LOW_MEMORY + 8 * 0, phys, prot, 1), phys + 8 * j) == 0 {
      EntryOutside(phys, LOW_MEMORY, j);
      StoresInside(m, LOW_MEMORY + 8 * 0, phys, prot, 1, phys + 8 * j);
    }
  }

  /** The page taken is the directory if and only if no page comes before it. */
  lemma TakesDirectoryIff(free: set<nat>, pgd: nat, i: nat)
    requires IsPage(pgd) && PageIndex(pgd) in free && i in free && forall j :: j in free ==> i <= j
    ensures i == PageIndex(pgd) <==> Usable(free, pgd) == {}
  {
    if i < PageIndex(pgd) { assert i in Usable(free, pgd); }
  }

  /** In that case the first table is the directory itself, cleared and pointing to itself: the
      addresses that take entry 0 at every level are mapped to it, and no others at all. */
  method DirectoryOverItself(t: PageTables) returns (page: Word)
    requires t.alloc.Valid() && IsPage(t.pgd) && PageIndex(t.pgd) in t.alloc.Free()
    requires Usable(t.alloc.Free(), t.pgd) == {}
    modifies t`mem, t.alloc.memMap
    ensures page == t.pgd
    ensures forall va: nat ::
              LeafOf(t.mem, t.pgd, va) == if Around(0, 0, va) then Some(Leaf(3, t.pgd + 3)) else None
  {
    hide Usable, PagePaddr, TableDesc, LeafOf, Around, FreeIn;
    ghost var free, m0 := t.alloc.Free(), t.mem;
    ghost var cleared;
    page, cleared := t.HangTable(t.pgd);
    TakesDirectoryIff(free, t.pgd, PageIndex(page));
    SamePageIndex(page, t.pgd);
    assert Hung(m0, t.mem, t.pgd, t.pgd + 8 * 0);
    DirectoryRound(m0, t.mem, t.pgd, 0);
  }

  lemma SamePageIndex(p: nat, q: nat)
    requires IsPage(p) && IsPage(q) && PageIndex(p) == PageIndex(q)
    ensures p == q && PageAddress(p)
  {
  }

  /** A directory without table pointers translates nothing. */
  lemma NoPointers(m: Memory, pgd: nat)
    requires forall j :: 0 <= j < 512 ==> Load(m, pgd + 8 * j) % 4 != 3
    ensures forall va: nat :: LeafOf(m, pgd, va) == None
  {
    hide Slot;
    forall va: nat ensures LeafOf(m, pgd, va) == None {
      assert Load(m, pgd + 8 * Index(0, va)) % 4 != 3;
    }
  }

  /** paging_init with the directory as the last of the pages it needs. The identity mapping is
      complete when the device mapping takes the directory for its table: then no address at
      all is translated, and the device sections go into the directory itself. */
  method DirectoryLast(t: PageTables, textEnd: Word, pbase: Word) returns (ghost identity: Memory)
    requires t.alloc.Valid() && IsPage(t.pgd) && PageIndex(t.pgd) in t.alloc.Free()
    requires TEXT_START < textEnd < TOTAL_MEMORY && PageAlign(textEnd) < TOTAL_MEMORY && DeviceBase(pbase)
    requires |Usable(t.alloc.Free(), t.pgd)| == BootPages(PageAlign(textEnd)) - 1
    modifies t, t.alloc.memMap
    ensures MapsExactly(identity, t.pgd, TextAndMemory(PageAlign(textEnd)))
    ensures forall va: nat :: LeafOf(t.mem, t.pgd, va) == None
    ensures DescType(Load(t.mem, t.pgd + 8 * PmdIndex(pbase))) == TYPE_SECT
  {
    hide Good, WellFormed, LeafOf, FreeIn, Takeable, Usable, PageAlign, TextTables, MapsExactly, TextAndMemory,
         Nothing,
         Sections, DeviceBase, RequestFor, Request.Ok, Load, PmdIndex, DescType;
    ghost var a, free0 := PageAlign(textEnd), t.alloc.Free();
    ClearDirectory(t);
    ImagePages(textEnd);
    TextKeys(a);
    FreshTables(t.tab.Keys, a, pbase);
    OnlyUsable(free0, t.pgd, t.zeroFree);
    CreateIdentityMapping(t, textEnd);
    identity := t.mem;
    FreshDevice(t.tab.Keys, a, pbase);
    DeviceOverDirectory(t, pbase);
  }

  /** While the directory itself is marked free, address 0 is out of reach. */
  lemma OnlyUsable(free: set<nat>, pgd: nat, zeroFree: bool)
    requires IsPage(pgd) && PageIndex(pgd) in free
    ensures Takeable(free, pgd, zeroFree) == Usable(free, pgd) && PageIndex(pgd) in free - Usable(free, pgd)
  {
  }

  /** The stores of create_mmio_mapping when its table page is the directory. */
  method DeviceOverDirectory(t: PageTables, pbase: Word)
    requires t.Valid() && DeviceBase(pbase) && Key(1, 0) in t.tab && Key(2, pbase / 0x4000_0000) !in t.tab
    requires t.Now().free == {} && t.Now().rest != {}
    modifies t, t.alloc.memMap
    ensures forall va: nat :: LeafOf(t.mem, t.pgd, va) == None
    ensures DescType(Load(t.mem, t.pgd + 8 * PmdIndex(pbase))) == TYPE_SECT
  {
    hide Good, LeafOf, FreeIn, Takeable, Usable, PagePaddr, TableDesc, PgdIndex, PudIndex, PmdIndex, DescType,
         Load, Hung;
    ghost var s, free := t.Now(), t.alloc.Free();
    DeviceEntries(s, t.pgd, pbase);
    var pgdp := t.pgd + 8 * PgdIndex(pbase);
    var pudp := PagePaddr(Load(t.mem, pgdp)) + 8 * PudIndex(pbase);
    ghost var cleared;
    var page;
    page, cleared := t.HangTable(pudp);
    FreeLeft(free, t.pgd, t.zeroFree);
    NextIsDirectory(free, t.pgd, t.zeroFree, page);
    IsHung(s.mem, cleared, t.pgd, pudp);
    DirectoryEmpty(s.mem, t.mem, t.pgd, pudp);
    var pmdp := PagePaddr(Load(t.mem, pudp)) + 8 * PmdIndex(pbase);
    DeviceStores(t, pmdp, pbase);
    NoPointers(t.mem, t.pgd);
  }

  lemma IsHung(m0: Memory, cleared: Memory, page: Word, entry: nat)
    requires Cleared(m0, cleared, page)
    ensures Hung(m0, cleared[entry := TableDesc(page)], page, entry)
  {
  }

  lemma DirectoryEmpty(m0: Memory, m1: Memory, pgd: Word, entry: nat)
    requires PageAddress(pgd) && Hung(m0, m1, pgd, entry) && !(pgd <= entry < pgd + 0x1000)
    ensures PagePaddr(Load(m1, entry)) == pgd && ZeroPage(m1, pgd)
  {
    HungWords(m0, m1, pgd, entry);
    TableAddress(pgd);
  }

  /** The stores of the sixteen 2 MB slots of the device window. */
  method DeviceStores(t: PageTables, pmdp: nat, pbase: Word)
    requires DeviceBase(pbase) && ZeroPage(t.mem, t.pgd) && pmdp == t.pgd + 8 * PmdIndex(pbase)
    modifies t`mem
    ensures forall j :: 0 <= j < 512 ==> Load(t.mem, t.pgd + 8 * j) % 4 != 3
    ensures DescType(Load(t.mem, t.pgd + 8 * PmdIndex(pbase))) == TYPE_SECT
  {
    hide PmdIndex, DescType, Load, PfnPmd, Shr, MkSectProt, Or, OnlySections, ZeroPage, SectionAt, ValidProt,
         DeviceBase;
    DeviceIndices(pbase);
    DeviceSections(pbase);
    NoSections(t.mem, t.pgd, PmdIndex(pbase));
    var sectProt := Or(TYPE_SECT, MkSectProt(PROT_DEVICE));
    SectionWords(pbase, PROT_DEVICE, sectProt, 16);
    SectionLoop(t, pmdp, pbase, sectProt, 16, PmdIndex(pbase));
    SectionTypes(t.mem, t.pgd, PmdIndex(pbase));
  }

  /** The i-th section of a range is written as a section descriptor. */
  predicate SectionAt(phys: nat, sectProt: Word, i: nat) {
    && phys + i * 0x20_0000 < VA_LIMIT
    && PfnPmd(Shr(phys + i * 0x20_0000, 21), sectProt) % 4 == 1
  }

  method SectionLoop(t: PageTables, pmdp0: nat, phys0: Word, sectProt: Word, n: nat, ghost first: nat)
    requires OnlySections(t.mem, t.pgd, first, 0) && pmdp0 == t.pgd + 8 * first
    requires forall i :: 0 <= i < n ==> SectionAt(phys0, sectProt, i)
    modifies t`mem
    ensures OnlySections(t.mem, t.pgd, first, n)
  {
    hide PfnPmd, Shr, OnlySections;
    var pmdp, phys: nat := pmdp0, phys0;
    for i := 0 to n
      invariant pmdp == t.pgd + 8 * (first + i) && phys == phys0 + i * 0x20_0000
      invariant OnlySections(t.mem, t.pgd, first, i)
    {
      assert SectionAt(phys0, sectProt, i);
      OneMoreSection(t.mem, t.pgd, first, i, PfnPmd(Shr(phys, 21), sectProt));
      t.mem := t.mem[pmdp := PfnPmd(Shr(phys, 21), sectProt)];
      pmdp := pmdp + 8;
      phys := phys + 0x20_0000;
    }
  }

  /** A page with n section descriptors from entry `first` on, and otherwise empty. */
  ghost predicate OnlySections(m: Memory, page: nat, first: nat, n: nat) {
    forall j :: 0 <= j < 512 ==> Load(m, page + 8 * j) % 4 == if first <= j < first + n then 1 else 0
  }

  lemma NoSections(m: Memory, page: nat, first: nat)
    requires ZeroPage(m, page)
    ensures OnlySections(m, page, first, 0)
  {
    hide Load;
  }

  lemma OneMoreSection(m: Memory, page: nat, first: nat, n: nat, w: Word)
    requires OnlySections(m, page, first, n) && w % 4 == 1
    ensures OnlySections(m[page + 8 * (first + n) := w], page, first, n + 1)
  {
    StoreLoads(m, page, first + n, w);
    hide Load;
  }

  lemma SectionTypes(m: Memory, page: nat, first: nat)
    requires OnlySections(m, page, first, 16) && first + 16 <= 512
    ensures forall j :: 0 <= j < 512 ==> Load(m, page + 8 * j) % 4 != 3
    ensures DescType(Load(m, page + 8 * first)) == TYPE_SECT
  {
    hide Load, DescType;
  }

  lemma StoreLoads(m: Memory, pgd: nat, i: nat, w: Word)
    ensures forall j: nat :: Load(m[pgd + 8 * i := w], pgd + 8 * j) == if j == i then w else Load(m, pgd + 8 * j)
  {
  }

  /** Where the device mapping looks: a table below the directory's entry 0, and in it an empty entry. */
  lemma DeviceEntries(s: State, pgd: nat, pbase: Word)
    requires Good(s, pgd) && DeviceBase(pbase) && Key(1, 0) in s.tab && Key(2, pbase / 0x4000_0000) !in s.tab
    ensures PageAddress(pgd) && PgdIndex(pbase) == 0
            && PagePaddr(Load(s.mem, pgd + 8 * PgdIndex(pbase))) == s.tab[Key(1, 0)]
    ensures !(pgd <= s.tab[Key(1, 0)] + 8 * PudIndex(pbase) < pgd + 0x1000)
    ensures Load(s.mem, s.tab[Key(1, 0)] + 8 * PudIndex(pbase)) == 0
  {
    hide PgdIndex, PudIndex, PagePaddr, Good, Load, DeviceBase;
    DeviceIndices(pbase);
    TopEntries(s, pgd, PudIndex(pbase));
    EntryOfDirectory(s, pgd, Key(1, 0), PudIndex(pbase));
  }

  lemma TopEntries(s: State, pgd: nat, i: nat)
    requires Good(s, pgd) && Key(1, 0) in s.tab && i < 512 && Key(2, i) !in s.tab
    ensures PageAddress(pgd) && PagePaddr(Load(s.mem, pgd)) == s.tab[Key(1, 0)]
            && Load(s.mem, s.tab[Key(1, 0)] + 8 * i) == 0
  {
    hide WellFormed, PagePaddr, Owned;
    RootPresent(s, pgd);
    EntryTable(s, pgd, Root, 0);
    EntryTable(s, pgd, Key(1, 0), i);
    EntryOfDirectory(s, pgd, Root, 0);
  }

  lemma DeviceIndices(pbase: Word)
    requires DeviceBase(pbase)
    ensures PgdIndex(pbase) == 0 && PudIndex(pbase) == pbase / 0x4000_0000 < 512 && PmdIndex(pbase) + 16 <= 512
    ensures pbase % 0x20_0000 == 0
  {
    hide PgdIndex, PudIndex, PmdIndex;
    if pbase == 0xFE00_0000 {
      assert PgdIndex(0xFE00_0000) == 0 && PudIndex(0xFE00_0000) == 3 && PmdIndex(0xFE00_0000) == 496;
    } else {
      assert PgdIndex(0x10_7C00_0000) == 0 && PudIndex(0x10_7C00_0000) == 65 && PmdIndex(0x10_7C00_0000) == 480;
    }
  }

  lemma FreeLeft(free: set<nat>, pgd: nat, zeroFree: bool)
    requires free - Usable(free, pgd) != {}
    ensures free != {}
  {
  }

  lemma DeviceSections(pbase: Word)
    requires DeviceBase(pbase)
    ensures pbase + 16 * 0x20_0000 <= VA_LIMIT && ValidProt(PROT_DEVICE) && PROT_DEVICE >= 3
    ensures Or(TYPE_SECT, MkSectProt(PROT_DEVICE)) == PROT_DEVICE - 2
  {
    hide Or, MkSectProt;
    ProtsValid();
    SectionProt(PROT_DEVICE);
  }

  lemma SectionWords(phys: nat, prot: Word, sectProt: Word, n: nat)
    requires phys % 0x20_0000 == 0 && phys + n * 0x20_0000 <= VA_LIMIT && ValidProt(prot)
    requires prot >= 3 && sectProt == prot - 2
    ensures forall i :: 0 <= i < n ==> SectionAt(phys, sectProt, i)
  {
    hide ValidProt, PfnPmd, Shr;
    forall i | 0 <= i < n ensures SectionAt(phys, sectProt, i) {
      MulOrder(i + 1, n, 0x20_0000);
      MulNext(i, 0x20_0000);
      Quotient(i * 0x20_0000, 0x20_0000, i, 0);
      SumAligned(phys, i * 0x20_0000, 0x20_0000);
      SectionDescriptor(phys + i * 0x20_0000, prot);
      SectionType(phys + i * 0x20_0000, prot);
    }
  }
}
