/** pgtable.h: index macros, range cutting, and descriptor encoding.
    Every body is the source's bit expression; every contract is the
    arithmetic it stands for. */
module PgTable {
  import opened Bits

  const VA_LIMIT: nat := 0x1_0000_0000_0000
  const PTE_ADDR_MASK: Word := 0xFFFF_FFFF_F000
  const TYPE_SECT: Word := 1
  const TYPE_TABLE: Word := 3
  const NO_BLOCK_MAPPINGS: Word := 1

  // ----- page rounding (page.h) -----

  function PageMask(x: Word): (r: Word)
    ensures r == x - x % 0x1000
  {
    ClearLow12(x);
    And(x, Not(0xFFF))
  }

  function PageAlign(x: Word): (r: Word)
    ensures x <= VA_LIMIT ==> r == if x % 0x1000 == 0 then x else x - x % 0x1000 + 0x1000
    ensures r == U64(if x % 0x1000 == 0 then x else x - x % 0x1000 + 0x1000)
  {
    RoundsUp(x);
    if x + 0xFFF >= 0x1_0000_0000_0000_0000 then WrapsToZero(x); PageMask(U64(x + 0xFFF)) else
    PageMask(U64(x + 0xFFF))
  }

  /** The last page has no next one. */
  lemma WrapsToZero(x: Word)
    requires x + 0xFFF >= 0x1_0000_0000_0000_0000
    ensures U64(x + 0xFFF) - U64(x + 0xFFF) % 0x1000 == 0
    ensures U64(if x % 0x1000 == 0 then x else x - x % 0x1000 + 0x1000) == 0
  {
    assert x % 0x1000 == x - 0xFFFF_FFFF_FFFF_F000;
  }

  lemma RoundsUp(x: nat)
    ensures (x + 0xFFF) % 0x1000 == if x % 0x1000 == 0 then 0xFFF else x % 0x1000 - 1
  {
  }

  // ----- table indices -----

  function PgdIndex(addr: Word): (i: nat)
    ensures i == addr / 0x80_0000_0000 % 512
  {
    Shr39(addr);
    LowMask(addr / 0x80_0000_0000);
    And(Shr(addr, 39), 0x1FF)
  }

  function PudIndex(addr: Word): (i: nat)
    ensures i == addr / 0x4000_0000 % 512
  {
    Shr30(addr);
    LowMask(addr / 0x4000_0000);
    And(Shr(addr, 30), 0x1FF)
  }

  function PmdIndex(addr: Word): (i: nat)
    ensures i == addr / 0x20_0000 % 512
  {
    Shr21(addr);
    LowMask(addr / 0x20_0000);
    And(Shr(addr, 21), 0x1FF)
  }

  function PteIndex(addr: Word): (i: nat)
    ensures i == addr / 0x1000 % 512
  {
    Shr12(addr);
    LowMask(addr / 0x1000);
    And(Shr(addr, 12), 0x1FF)
  }

  // ----- range cutting: the next boundary above `addr`, or `end` if that comes first -----

  /** The comparison is on values minus one, so that a boundary of 2^64 wraps harmlessly. */
  function Nearer(boundary: Word, end: Word): Word {
    if U64(boundary - 1) < U64(end - 1) then boundary else end
  }

  lemma NextBoundary(addr: Word, d: nat)
    requires d > 0
    ensures addr + d < 0x1_0000_0000_0000_0000 ==> U64(addr + d) - U64(addr + d) % d == addr - addr % d + d
  {
    DivisionParts(addr, d);
    MulNext(addr / d, d);
    Quotient(addr + d, d, addr / d + 1, addr % d);
  }

  /** Rounding the next address down to a multiple of d gives the boundary above `addr`. */
  lemma NearerBoundary(addr: Word, end: Word, d: nat, b: Word)
    requires 0 < d <= VA_LIMIT && b == U64(addr + d) - U64(addr + d) % d
    ensures addr < end <= VA_LIMIT ==>
              Nearer(b, end) == if addr - addr % d + d < end then addr - addr % d + d else end
  {
    NextBoundary(addr, d);
    DivisionParts(addr, d);
  }

  function PgdAddrEnd(addr: Word, end: Word): (next: Word)
    ensures addr < end <= VA_LIMIT ==>
              next == if addr - addr % 0x80_0000_0000 + 0x80_0000_0000 < end
                      then addr - addr % 0x80_0000_0000 + 0x80_0000_0000 else end
  {
    hide And, Nearer;
    var above := And(U64(addr + 0x80_0000_0000), Not(0x7F_FFFF_FFFF));
    ClearLow39(U64(addr + 0x80_0000_0000));
    NearerBoundary(addr, end, 0x80_0000_0000, above);
    Nearer(above, end)
  }

  function PudAddrEnd(addr: Word, end: Word): (next: Word)
    ensures addr < end <= VA_LIMIT ==>
              next == if addr - addr % 0x4000_0000 + 0x4000_0000 < end
                      then addr - addr % 0x4000_0000 + 0x4000_0000 else end
  {
    hide And, Nearer;
    var above := And(U64(addr + 0x4000_0000), Not(0x3FFF_FFFF));
    ClearLow30(U64(addr + 0x4000_0000));
    NearerBoundary(addr, end, 0x4000_0000, above);
    Nearer(above, end)
  }

  function PmdAddrEnd(addr: Word, end: Word): (next: Word)
    ensures addr < end <= VA_LIMIT ==>
              next == if addr - addr % 0x20_0000 + 0x20_0000 < end
                      then addr - addr % 0x20_0000 + 0x20_0000 else end
  {
    hide And, Nearer;
    var above := And(U64(addr + 0x20_0000), Not(0x1F_FFFF));
    ClearLow21(U64(addr + 0x20_0000));
    NearerBoundary(addr, end, 0x20_0000, above);
    Nearer(above, end)
  }

  /** The test `((addr | next | phys) & ~PG_SECTION_MASK) == 0` of alloc_init_pmd. */
  predicate SectionAligned(addr: Word, next: Word, phys: Word)
    ensures SectionAligned(addr, next, phys) <==>
            addr % 0x20_0000 == 0 && next % 0x20_0000 == 0 && phys % 0x20_0000 == 0
  {
    OrLowZero(addr, next);
    OrLowZero(Or(addr, next), phys);
    LowMask(Or(Or(addr, next), phys));
    And(Or(Or(addr, next), phys), 0x1F_FFFF) == 0
  }

  predicate BlocksAllowed(flags: Word)
    ensures BlocksAllowed(flags) <==> flags % 2 == 0
  {
    Powers();
    AndLow(flags / 2, flags % 2, 1);
    And(flags, NO_BLOCK_MAPPINGS) == 0
  }

  // ----- descriptors -----

  /** pgd_page_paddr, pud_page_paddr and pmd_page_paddr: bits 47..12. */
  function PagePaddr(desc: Word): (pa: Word)
    ensures pa == desc % VA_LIMIT - desc % 0x1000
  {
    AddressMask(desc);
    And(desc, PTE_ADDR_MASK)
  }

  /** Bits 1..0: 0 and 2 fault, 1 block, 3 table or page. */
  function DescType(desc: Word): (t: nat)
    ensures t == desc % 4
  {
    LowMask(desc);
    And(desc, 3)
  }

  predicate PageAddress(pa: nat) { pa % 0x1000 == 0 && pa < VA_LIMIT }

  function TableDesc(pa: Word): (desc: Word)
    ensures PageAddress(pa) ==> desc == pa + 3
  {
    if PageAddress(pa) then OrAddress(pa, TYPE_TABLE); U64(Or(pa, TYPE_TABLE))
    else U64(Or(pa, TYPE_TABLE))
  }

  /** Attribute words as the callers build them: a page descriptor with no address bits. */
  predicate ValidProt(prot: Word) {
    prot % 4 == 3 && prot % VA_LIMIT < 0x1000
  }

  function PfnPte(pfn: Word, prot: Word): Word { U64(Or(Shl(pfn, 12), prot)) }

  function PfnPmd(pfn: Word, prot: Word): Word { U64(Or(Shl(pfn, 21), prot)) }

  function MkSectProt(prot: Word): (r: Word)
    ensures r == if prot % 4 >= 2 then prot - 2 else prot
  {
    ClearBit1(prot);
    And(prot, Not(2))
  }

  /** The word `pfn_pte(phys >> PAGE_SHIFT, prot)`: address and attributes side by side. */
  lemma PageDescriptor(phys: Word, prot: Word)
    requires PageAddress(phys) && prot % VA_LIMIT < 0x1000
    ensures phys + prot < 0x1_0000_0000_0000_0000
    ensures PfnPte(Shr(phys, 12), prot) == phys + prot
  {
    hide And, Or, Shr, Pow2;
    AddressFits(phys, prot);
    Shr12(phys);
    Shl12(phys / 0x1000);
    OrAddress(phys, prot);
  }

  /** PMD_TYPE_SECT | mk_sect_prot(prot): bit 1 cleared. */
  lemma SectionProt(prot: Word)
    requires ValidProt(prot)
    ensures prot >= 3 && Or(TYPE_SECT, MkSectProt(prot)) == prot - 2
  {
    hide Or;
    LowerProt(prot);
    OrOne(prot - 2);
  }

  /** The word pmd_set_section writes. */
  lemma SectionDescriptor(phys: Word, prot: Word)
    requires phys % 0x20_0000 == 0 && phys < VA_LIMIT && ValidProt(prot) && prot >= 3
    ensures phys + prot < 0x1_0000_0000_0000_0000
    ensures PfnPmd(Shr(phys, 21), prot - 2) == phys + prot - 2
  {
    AlignedDown(phys);
    AddressFits(phys, prot);
    LowerProt(prot);
    SectionShift(phys);
    hide Or, Shr, Shl, Pow2, ValidProt;
    OrAddress(phys, prot - 2);
  }

  lemma SectionShift(phys: Word)
    requires phys % 0x20_0000 == 0 && phys < VA_LIMIT
    ensures Shl(Shr(phys, 21), 21) == phys
  {
    hide Shr, Shl, Pow2;
    Shr21(phys);
    Shl21(phys / 0x20_0000);
  }

  lemma AlignedDown(x: nat)
    requires x % 0x20_0000 == 0
    ensures x % 0x1000 == 0
  {
    DivisionParts(x, 0x20_0000);
    AlignedMultiple(x / 0x20_0000);
  }

  lemma AlignedMultiple(q: nat)
    ensures q * 0x20_0000 % 0x1000 == 0
  {
    Quotient(q * 0x20_0000, 0x1000, 512 * q, 0);
  }

  lemma LowerProt(prot: Word)
    requires ValidProt(prot)
    ensures prot >= 3 && (prot - 2) % VA_LIMIT < 0x1000 && (prot - 2) % 2 == 1
  {
    LowerFields(prot, prot / VA_LIMIT, prot % VA_LIMIT, prot / 4);
  }

  lemma LowerFields(prot: Word, hi: nat, lo: nat, k: nat)
    requires prot == hi * VA_LIMIT + lo == 4 * k + 3 && lo < 0x1000
    ensures prot >= 3 && lo >= 3 && (prot - 2) % VA_LIMIT == lo - 2 && (prot - 2) % 2 == 1
  {
    var l := k - hi * 0x4000_0000_0000;
    assert lo == 4 * l + 3;
    assert l >= 0;
    Quotient(prot - 2, VA_LIMIT, hi, lo - 2);
    Quotient(prot - 2, 2, 2 * k, 1);
  }

  lemma AddressFits(phys: Word, prot: Word)
    requires PageAddress(phys) && prot % VA_LIMIT < 0x1000
    ensures phys + prot < 0x1_0000_0000_0000_0000
  {
  }

  lemma OrOne(x: nat)
    requires x % 2 == 1
    ensures Or(1, x) == x
  {
    OrUnfold(1, x);
    assert Or(0, x / 2) == x / 2;
  }

  // ----- permission bits of a leaf -----

  function PteMkyoung(pte: Word): Word { U64(Or(pte, 0x400)) }

  function PteMkwrite(pte: Word): Word { And(U64(Or(pte, 0x8_0000_0000_0000)), Not(0x80)) }

  /** Attribute field bits 63..48 with bit 51 set, and bits 11..0 with bit 10 set and bit 7 clear. */
  function WritableUpper(hi: nat): nat { hi / 16 * 16 + 8 + hi % 8 }

  function WritableLower(lo: nat): nat { lo / 2048 * 2048 + 1024 + lo / 256 % 4 * 256 + lo % 128 }

  /** A word of three fields: bits 63..48, 47..12 and 11..0. */
  function Joined(hi: nat, a: nat, lo: nat): nat { hi * 0x1_0000_0000_0000 + a * 0x1000 + lo }

  lemma Joins(w: nat)
    ensures w == Joined(w / VA_LIMIT, w % VA_LIMIT / 0x1000, w % 0x1000)
    ensures w % VA_LIMIT / 0x1000 < 0x10_0000_0000
  {
    var hi, rest := w / VA_LIMIT, w % VA_LIMIT;
    LowField(hi * 0x10_0000_0000 + rest / 0x1000, rest % 0x1000);
  }

  lemma Parts(hi: nat, a: nat, lo: nat)
    requires a < 0x10_0000_0000 && lo < 0x1000
    ensures Joined(hi, a, lo) / VA_LIMIT == hi
    ensures Joined(hi, a, lo) % VA_LIMIT / 0x1000 == a
    ensures Joined(hi, a, lo) % 0x1000 == lo
  {
    LowField(hi * 0x10_0000_0000 + a, lo);
    LowField(a, lo);
    HighField(hi, a * 0x1000 + lo);
  }

  lemma LowField(q: nat, lo: nat)
    requires lo < 0x1000
    ensures (q * 0x1000 + lo) % 0x1000 == lo && (q * 0x1000 + lo) / 0x1000 == q
  {
  }

  lemma HighField(hi: nat, rest: nat)
    requires rest < 0x1_0000_0000_0000
    ensures (rest + hi * 0x1_0000_0000_0000) % 0x1_0000_0000_0000 == rest
    ensures (rest + hi * 0x1_0000_0000_0000) / 0x1_0000_0000_0000 == hi
  {
  }

  lemma Even(k: nat, b: nat)
    requires b < 2
    ensures (2 * k + b) % 2 == b
  {
  }

  /** pte_mkyoung then pte_mkwrite: access flag and DBM set, read-only cleared, all else kept. */
  lemma WritableWord(pte: Word)
    ensures PteMkwrite(PteMkyoung(pte))
            == Joined(WritableUpper(pte / VA_LIMIT), pte % VA_LIMIT / 0x1000, WritableLower(pte % 0x1000))
  {
    hide PteMkyoung, PteMkwrite;
    Joins(pte);
    FieldBounds(pte);
    WritableJoined(pte / VA_LIMIT, pte % VA_LIMIT / 0x1000, pte % 0x1000, pte);
  }

  lemma FieldBounds(w: Word)
    ensures w / VA_LIMIT < 0x1_0000
  {
  }

  lemma UpperDigits(hi: nat)
    requires hi < 0x1_0000
    ensures hi == hi / 16 * 16 + hi / 8 % 2 * 8 + hi % 8 && hi / 16 < 0x1000
  {
  }

  lemma ThreeDigits(q: nat)
    requires q < 16
    ensures q == q / 8 * 8 + q / 4 % 2 * 4 + q % 4
  {
  }

  lemma LowerDigits(lo: nat)
    requires lo < 0x1000
    ensures lo == lo / 2048 * 2048 + lo / 1024 % 2 * 1024 + lo / 256 % 4 * 256 + lo / 128 % 2 * 128 + lo % 128
    ensures lo / 2048 < 2
  {
    var q := lo / 256;
    assert lo == q * 256 + lo / 128 % 2 * 128 + lo % 128;
    ThreeDigits(q);
    assert lo / 2048 == q / 8 && lo / 1024 == q / 4;
  }

  lemma WritableJoined(hi: nat, a: nat, lo: nat, pte: Word)
    requires hi < 0x1_0000 && a < 0x10_0000_0000 && lo < 0x1000 && pte == Joined(hi, a, lo)
    ensures PteMkwrite(PteMkyoung(pte)) == Joined(WritableUpper(hi), a, WritableLower(lo))
  {
    hide PteMkyoung, PteMkwrite, Joined;
    UpperDigits(hi);
    LowerDigits(lo);
    WritableBits(hi / 16, hi / 8 % 2, hi % 8, a, lo / 2048, lo / 1024 % 2, lo / 256 % 4, lo / 128 % 2, lo % 128, pte);
  }

  lemma WritableBits(h: nat, b51: nat, u: nat, a: nat, b11: nat, b10: nat, m: nat, b7: nat, l: nat, pte: Word)
    requires h < 0x1000 && b51 < 2 && u < 8 && a < 0x10_0000_0000 && b11 < 2 && b10 < 2 && m < 4 && b7 < 2 && l < 128
    requires pte == Joined(h * 16 + b51 * 8 + u, a, b11 * 2048 + b10 * 1024 + m * 256 + b7 * 128 + l)
    ensures PteMkwrite(PteMkyoung(pte)) == Joined(h * 16 + 8 + u, a, b11 * 2048 + 1024 + m * 256 + l)
  {
    hide PteMkyoung, PteMkwrite, Joined;
    YoungBit(h * 16 + b51 * 8 + u, a, b11, b10, m * 256 + b7 * 128 + l, pte);
    WriteBits(h, b51, u, a, b11 * 8 + 4 + m, b7, l, PteMkyoung(pte));
  }

  lemma YoungBit(hi: nat, a: nat, b11: nat, b10: nat, l: nat, pte: Word)
    requires hi < 0x1_0000 && a < 0x10_0000_0000 && b11 < 2 && b10 < 2 && l < 1024
    requires pte == Joined(hi, a, b11 * 2048 + b10 * 1024 + l)
    ensures PteMkyoung(pte) == Joined(hi, a, b11 * 2048 + 1024 + l)
  {
    hide Or, Pow2;
    Powers();
    Even(hi * 0x20_0000_0000 + a * 2 + b11, b10);
    OrOneBit(hi * 0x40_0000_0000 + a * 4 + b11 * 2 + b10, l, 10);
  }

  lemma WriteBits(h: nat, b51: nat, u: nat, a: nat, m: nat, b7: nat, l: nat, pte: Word)
    requires h < 0x1000 && b51 < 2 && u < 8 && a < 0x10_0000_0000 && m < 16 && b7 < 2 && l < 128
    requires pte == Joined(h * 16 + b51 * 8 + u, a, m * 256 + b7 * 128 + l)
    ensures PteMkwrite(pte) == Joined(h * 16 + 8 + u, a, m * 256 + l)
  {
    hide Or, And, Pow2;
    Powers();
    Even(h, b51);
    OrOneBit(2 * h + b51, u * 0x1_0000_0000_0000 + a * 0x1000 + (m * 256 + b7 * 128 + l), 51);
    var hi := h * 16 + 8 + u;
    Even(hi * 0x100_0000_0000 + a * 16 + m, b7);
    ClearOneBit(hi * 0x200_0000_0000 + a * 32 + m * 2 + b7, l, 7, 56);
  }

  /** The same bit by bit: access flag (10) and DBM (51) set, read-only (7) clear, every other
      bit as it was. */
  lemma WritableBit(pte: Word, k: nat)
    requires k < 64
    ensures Bit(PteMkwrite(PteMkyoung(pte)), k) <==> if k == 7 then false else k == 10 || k == 51 || Bit(pte, k)
  {
    hide Or, And, Pow2, Bit, U64, Not;
    Powers();
    BitOfPower(10, k);
    BitOfPower(51, k);
    BitOfPower(7, k);
    var young := PteMkyoung(pte);
    WordBits(pte, 0x400, k);
    WordBits(young, 0x8_0000_0000_0000, k);
    WordBits(0x80, 0, k);
    WordBits(U64(Or(young, 0x8_0000_0000_0000)), Not(0x80), k);
  }
}
