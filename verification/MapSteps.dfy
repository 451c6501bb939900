/** The three writes of the builder, each shown to be a `Step`. */
module MapSteps {
  import opened Bits
  import opened PgTable
  import opened Translation
  import opened TreeUpdate
  import opened PageAlloc
  import opened MapSpec

  lemma MinusAbsent(tab: Tables, keys: set<Key>)
    requires tab.Keys !! keys
    ensures tab - keys == tab
  {
  }

  lemma NoSectionInPage(r: Request, a: nat)
    requires a % 0x1000 == 0 && !r.Section(a / 0x20_0000)
    ensures SectionKeys(r, a, a + 0x1000) == {}
  {
    var q := a / 0x20_0000;
    hide Request.Section;
    SamePageSlot(a, q, a % 0x20_0000);
  }

  /** A page lies in one 2 MB slot. */
  lemma SamePageSlot(a: nat, q: nat, t: nat)
    requires a == q * 0x20_0000 + t && t < 0x20_0000 && a % 0x1000 == 0
    ensures (a + 0xFFF) / 0x20_0000 == q
  {
    DivisionParts(a, 0x1000);
    assert t == (a / 0x1000 - 512 * q) * 0x1000;
    Quotient(a + 0xFFF, 0x20_0000, q, t + 0xFFF);
  }

  // ----- set_pte -----

  lemma PageStep(s: State, pgd: nat, r: Request, a: nat)
    requires r.Ok() && Good(s, pgd) && r.lo <= a < r.hi && a % 0x1000 == 0
    requires !r.Section(a / 0x20_0000) && Key(3, a / 0x20_0000) in s.tab
    ensures a + 0x1000 <= r.hi
    ensures Step(s, s.(mem := LeafMem(s.mem, s.tab, Key(3, a / 0x20_0000), a / 0x1000 % 512, r.Want(a).desc)),
                 pgd, r, {}, a, a + 0x1000)
  {
    hide WellFormed, Installs, Installed, Step, Owned;
    var m1 := LeafMem(s.mem, s.tab, Key(3, a / 0x20_0000), a / 0x1000 % 512, r.Want(a).desc);
    PageWord(r, a);
    PageWrite(s, pgd, r, a);
    NoSectionInPage(r, a);
    MinusAbsent(s.tab, SectionKeys(r, a, a + 0x1000));
    if Installed(s.mem, pgd, r, a, a + 0x1000) { PageAgain(s, pgd, r, a); }
    LeafStep(s, m1, s.tab, pgd, r, Key(3, a / 0x20_0000), a / 0x1000 % 512, r.Want(a).desc, a, a + 0x1000);
  }

  lemma LeafFootprint(s: State, m1: Memory, tab1: Tables, pgd: nat, k: Key, i: nat, w: Word)
    requires Good(s, pgd) && k in s.tab && i < 512 && m1 == LeafMem(s.mem, s.tab, k, i, w)
    requires tab1.Keys <= s.tab.Keys && forall l :: l in tab1 ==> tab1[l] == s.tab[l]
    ensures Footprint(s, State(m1, tab1, s.free, s.rest))
  {
    assert KeyOk(s.tab, k);
    hide Good, KeyOk;
    PageOf(s.tab[k], i);
  }

  lemma PageOf(a: nat, i: nat)
    requires a % 0x1000 == 0 && i < 512
    ensures a + 8 * i - (a + 8 * i) % 0x1000 == a
  {
  }

  lemma PageWrite(s: State, pgd: nat, r: Request, a: nat)
    requires r.Ok() && Good(s, pgd) && r.lo <= a < r.hi && a + 0x1000 <= r.hi && a % 0x1000 == 0
    requires !r.Section(a / 0x20_0000) && Key(3, a / 0x20_0000) in s.tab
    ensures WellFormed(LeafMem(s.mem, s.tab, Key(3, a / 0x20_0000), a / 0x1000 % 512, r.Want(a).desc), s.tab, pgd)
    ensures Installs(s.mem, LeafMem(s.mem, s.tab, Key(3, a / 0x20_0000), a / 0x1000 % 512, r.Want(a).desc),
                     pgd, r, a, a + 0x1000)
  {
    var k, i, w := Key(3, a / 0x20_0000), a / 0x1000 % 512, r.Want(a).desc;
    PageWord(r, a);
    NothingBelow(s.mem, s.tab, pgd, Child(k, i));
    MinusAbsent(s.tab, {Child(k, i)});
    SetLeaf(s.mem, s.tab, pgd, k, i, w);
    PageInstalls(s.mem, LeafMem(s.mem, s.tab, k, i, w), pgd, r, a);
  }

  /** A leaf write is a step that takes no page. */
  lemma LeafStep(s: State, m1: Memory, tab1: Tables, pgd: nat, r: Request, k: Key, i: nat, w: Word, a: nat, e: nat)
    requires r.Ok() && Good(s, pgd) && r.lo <= a <= e <= r.hi
    requires WellFormed(m1, tab1, pgd) && Installs(s.mem, m1, pgd, r, a, e)
    requires tab1 == s.tab - SectionKeys(r, a, e)
    requires Installed(s.mem, pgd, r, a, e) ==> m1 == s.mem && tab1 == s.tab
    requires k in s.tab && i < 512 && m1 == LeafMem(s.mem, s.tab, k, i, w)
    ensures Step(s, State(m1, tab1, s.free, s.rest), pgd, r, {}, a, e)
  {
    hide WellFormed, Owned, Installs, Footprint, LeafMem, SectionKeys, Request.Ok, Request.Want;
    FewerTables(s.tab, SectionKeys(r, a, e), pgd, s.free, s.rest);
    LeafFootprint(s, m1, tab1, pgd, k, i, w);
    assert {} - s.tab.Keys == {};
  }

  lemma FewerTables(tab: Tables, gone: set<Key>, pgd: nat, free: set<int>, rest: set<int>)
    ensures (tab - gone).Keys == tab.Keys + {} - gone
    ensures forall l :: l in tab - gone ==> (tab - gone)[l] == tab[l]
    ensures Owned(tab, pgd, free, rest) ==> Owned(tab - gone, pgd, free, rest)
  {
  }

  /** Installing a page that is there already writes the word that is there already. */
  lemma PageAgain(s: State, pgd: nat, r: Request, a: nat)
    requires r.Ok() && Good(s, pgd) && r.lo <= a < r.hi && Key(3, a / 0x20_0000) in s.tab
    requires a + 0x1000 <= r.hi && Installed(s.mem, pgd, r, a, a + 0x1000) && r.Want(a).desc != 0
    ensures LeafMem(s.mem, s.tab, Key(3, a / 0x20_0000), a / 0x1000 % 512, r.Want(a).desc) == s.mem
  {
    Resolve(s.mem, s.tab, pgd, a);
    assert LeafOf(s.mem, pgd, a) == Some(r.Want(a));
    assert PathKey(3, a) == Key(3, a / 0x20_0000) && Index(3, a) == a / 0x1000 % 512;
    assert Entry(s.mem, s.tab, PathKey(3, a), Index(3, a)) == r.Want(a).desc;
  }

  lemma PageWord(r: Request, a: nat)
    requires r.Ok() && r.lo <= a < r.hi && a % 0x1000 == 0 && !r.Section(a / 0x20_0000)
    ensures a + 0x1000 <= r.hi
    ensures r.Want(a) == Leaf(3, a + r.delta + r.prot)
    ensures LeafDesc(3, r.Want(a).desc) && r.Want(a).desc != 0
  {
    hide Request.Section;
    FloorWithin(r.lo, a, r.hi, 0x1000);
    r.WantBounds(a);
    PageType(a + r.delta, r.prot);
  }

  lemma PageType(x: nat, prot: Word)
    requires PageAddress(x) && ValidProt(prot)
    ensures (x + prot) % 4 == 3
  {
    SumMod4(x, prot);
  }

  /** The word set_pte writes for `addr` is the wanted leaf. */
  lemma PteWord(r: Request, addr: nat)
    requires r.Ok() && r.lo <= addr < r.hi && addr % 0x1000 == 0 && !r.Section(addr / 0x20_0000)
    ensures 0 <= addr + r.delta < VA_LIMIT
    ensures PfnPte(Shr(addr + r.delta, 12), r.prot) == r.Want(addr).desc
  {
    hide Request.Ok, Request.Section, Request.Want, Shr, PfnPte;
    PageWord(r, addr);
    r.PageBounds(addr);
    PageDescriptor(addr + r.delta, r.prot);
  }

  lemma SumMod4(x: int, p: nat)
    requires x % 0x1000 == 0
    ensures (x + p) % 4 == p % 4
  {
    DivisionParts(x, 0x1000);
    DivisionParts(p, 4);
    Quotient(x + p, 4, x / 0x1000 * 0x400 + p / 4, p % 4);
  }

  /** The 4 KB of one level-3 entry. */
  lemma PageSpan(a: nat, va: nat)
    requires a % 0x1000 == 0
    ensures Slot(3, va) == 512 * (a / 0x20_0000) + a / 0x1000 % 512 <==> a <= va < a + 0x1000
    ensures a <= va < a + 0x1000 ==> va / 0x20_0000 == a / 0x20_0000 && va - va % 0x1000 == a
  {
    assert 512 * (a / 0x20_0000) + a / 0x1000 % 512 == a / 0x1000;
  }

  lemma PageInstalls(m0: Memory, m1: Memory, pgd: nat, r: Request, a: nat)
    requires r.Ok() && r.lo <= a && a + 0x1000 <= r.hi && a % 0x1000 == 0 && !r.Section(a / 0x20_0000)
    requires r.Want(a).level == 3
    requires forall va: nat :: va < VA_LIMIT ==>
               LeafOf(m1, pgd, va)
               == if Slot(3, va) == 512 * (a / 0x20_0000) + a / 0x1000 % 512 then Some(Leaf(3, r.Want(a).desc))
                  else LeafOf(m0, pgd, va)
    ensures Installs(m0, m1, pgd, r, a, a + 0x1000)
  {
    forall va: nat | va < VA_LIMIT
      ensures LeafOf(m1, pgd, va) == if a <= va < a + 0x1000 then Some(r.Want(va)) else LeafOf(m0, pgd, va)
    {
      PageSpan(a, va);
      if a <= va < a + 0x1000 { SameWant(r, a, va); }
    }
  }

  /** Addresses of the same page, or of the same section, want the same leaf. */
  lemma SameWant(r: Request, a: nat, va: nat)
    requires r.Ok() && r.lo <= a <= va < r.hi && va / 0x20_0000 == a / 0x20_0000
    requires if r.Section(a / 0x20_0000) then a % 0x20_0000 == 0 && va - va % 0x20_0000 == a
             else a % 0x1000 == 0 && va - va % 0x1000 == a
    ensures r.Want(va) == r.Want(a)
  {
    hide Request.Section;
  }

  // ----- pmd_set_section -----

  lemma SectionStep(s: State, pgd: nat, r: Request, a: nat)
    requires r.Ok() && Good(s, pgd) && r.lo <= a && a + 0x20_0000 <= r.hi && a % 0x20_0000 == 0
    requires r.Section(a / 0x20_0000) && Key(2, a / 0x4000_0000) in s.tab
    ensures Step(s, State(LeafMem(s.mem, s.tab, Key(2, a / 0x4000_0000), a / 0x20_0000 % 512, r.Want(a).desc),
                          s.tab - {Key(3, a / 0x20_0000)}, s.free, s.rest),
                 pgd, r, {}, a, a + 0x20_0000)
  {
    hide WellFormed, Installs, Installed, Step, Owned;
    var m1 := LeafMem(s.mem, s.tab, Key(2, a / 0x4000_0000), a / 0x20_0000 % 512, r.Want(a).desc);
    SectionWord(r, a);
    SectionWrite(s, pgd, r, a);
    OneSection(r, a);
    if Installed(s.mem, pgd, r, a, a + 0x20_0000) {
      SectionAgain(s, pgd, r, a);
      MinusAbsent(s.tab, {Key(3, a / 0x20_0000)});
    }
    LeafStep(s, m1, s.tab - {Key(3, a / 0x20_0000)}, pgd, r,
             Key(2, a / 0x4000_0000), a / 0x20_0000 % 512, r.Want(a).desc, a, a + 0x20_0000);
  }

  lemma OneSection(r: Request, a: nat)
    requires a % 0x20_0000 == 0 && r.Section(a / 0x20_0000)
    ensures SectionKeys(r, a, a + 0x20_0000) == {Key(3, a / 0x20_0000)}
  {
  }

  lemma SectionWrite(s: State, pgd: nat, r: Request, a: nat)
    requires r.Ok() && Good(s, pgd) && r.lo <= a && a + 0x20_0000 <= r.hi && a % 0x20_0000 == 0
    requires r.Section(a / 0x20_0000) && Key(2, a / 0x4000_0000) in s.tab
    ensures WellFormed(LeafMem(s.mem, s.tab, Key(2, a / 0x4000_0000), a / 0x20_0000 % 512, r.Want(a).desc),
                       s.tab - {Key(3, a / 0x20_0000)}, pgd)
    ensures Installs(s.mem, LeafMem(s.mem, s.tab, Key(2, a / 0x4000_0000), a / 0x20_0000 % 512, r.Want(a).desc),
                     pgd, r, a, a + 0x20_0000)
  {
    var k, i, w := Key(2, a / 0x4000_0000), a / 0x20_0000 % 512, r.Want(a).desc;
    SectionWord(r, a);
    assert Child(k, i) == Key(3, a / 0x20_0000);
    SetLeaf(s.mem, s.tab, pgd, k, i, w);
    SectionInstalls(s.mem, LeafMem(s.mem, s.tab, k, i, w), pgd, r, a);
  }

  lemma SectionAgain(s: State, pgd: nat, r: Request, a: nat)
    requires r.Ok() && Good(s, pgd) && r.lo <= a < r.hi && Key(2, a / 0x4000_0000) in s.tab
    requires a + 0x20_0000 <= r.hi && Installed(s.mem, pgd, r, a, a + 0x20_0000)
    requires r.Want(a).desc != 0 && r.Want(a).level == 2
    ensures LeafMem(s.mem, s.tab, Key(2, a / 0x4000_0000), a / 0x20_0000 % 512, r.Want(a).desc) == s.mem
    ensures Key(3, a / 0x20_0000) !in s.tab
  {
    Resolve(s.mem, s.tab, pgd, a);
    assert LeafOf(s.mem, pgd, a) == Some(r.Want(a));
    assert PathKey(3, a) == Key(3, a / 0x20_0000) && PathKey(2, a) == Key(2, a / 0x4000_0000);
    assert Index(2, a) == a / 0x20_0000 % 512;
    assert Entry(s.mem, s.tab, PathKey(2, a), Index(2, a)) == r.Want(a).desc;
  }

  lemma SectionWord(r: Request, a: nat)
    requires r.Ok() && r.lo <= a < r.hi && a % 0x20_0000 == 0 && r.Section(a / 0x20_0000)
    ensures r.Want(a) == Leaf(2, a + r.delta + r.prot - 2)
    ensures LeafDesc(2, r.Want(a).desc) && r.Want(a).desc != 0
  {
    hide Request.Section;
    r.WantBounds(a);
    SectionType(a + r.delta, r.prot);
  }

  lemma SectionType(x: nat, prot: Word)
    requires x % 0x20_0000 == 0 && ValidProt(prot)
    ensures prot >= 3 && (x + prot - 2) % 4 == 1
  {
    DivisionParts(x, 0x20_0000);
    DivisionParts(prot, 4);
    Quotient(x + prot - 2, 4, x / 0x20_0000 * 0x8_0000 + prot / 4, 1);
  }

  lemma SectionSpan(a: nat, va: nat)
    requires a % 0x20_0000 == 0
    ensures Slot(2, va) == 512 * (a / 0x4000_0000) + a / 0x20_0000 % 512 <==> a <= va < a + 0x20_0000
    ensures a <= va < a + 0x20_0000 ==> va / 0x20_0000 == a / 0x20_0000 && va - va % 0x20_0000 == a
  {
    assert 512 * (a / 0x4000_0000) + a / 0x20_0000 % 512 == a / 0x20_0000;
  }

  lemma SectionInstalls(m0: Memory, m1: Memory, pgd: nat, r: Request, a: nat)
    requires r.Ok() && r.lo <= a && a + 0x20_0000 <= r.hi && a % 0x20_0000 == 0 && r.Section(a / 0x20_0000)
    requires r.Want(a).level == 2
    requires forall va: nat :: va < VA_LIMIT ==>
               LeafOf(m1, pgd, va)
               == if Slot(2, va) == 512 * (a / 0x4000_0000) + a / 0x20_0000 % 512 then Some(Leaf(2, r.Want(a).desc))
                  else LeafOf(m0, pgd, va)
    ensures Installs(m0, m1, pgd, r, a, a + 0x20_0000)
  {
    forall va: nat | va < VA_LIMIT
      ensures LeafOf(m1, pgd, va) == if a <= va < a + 0x20_0000 then Some(r.Want(va)) else LeafOf(m0, pgd, va)
    {
      SectionSpan(a, va);
      if a <= va < a + 0x20_0000 { SameWant(r, a, va); }
    }
  }

  // ----- a fresh table under an empty entry -----

  /** `m1` is `m0` with the 512 words of `page` cleared. */
  ghost predicate Cleared(m0: Memory, m1: Memory, page: nat) {
    && ZeroPage(m1, page)
    && forall at: nat :: !(page <= at < page + 0x1000) ==> Load(m1, at) == Load(m0, at)
  }

  /** The state with `page`, cleared in m1, hung below entry i of table k. */
  ghost function WithTable(s: State, m1: Memory, k: Key, i: nat, page: nat): State
    requires k in s.tab && i < 512 && IsTablePage(page) && page + 3 < 0x1_0000_0000_0000_0000
  {
    State(LeafMem(m1, s.tab, k, i, page + 3), s.tab[Child(k, i) := page], s.free - {PageIndex(page)}, s.rest)
  }

  lemma TableStep(s: State, m1: Memory, pgd: nat, r: Request, k: Key, i: nat, page: nat, a: nat)
    requires r.Ok() && Good(s, pgd) && r.lo <= a <= r.hi
    requires k in s.tab && k.level < 3 && i < 512 && Entry(s.mem, s.tab, k, i) == 0
    requires IsTablePage(page) && PageIndex(page) in s.free && Cleared(s.mem, m1, page)
    ensures Step(s, WithTable(s, m1, k, i, page), pgd, r, {Child(k, i)}, a, a)
  {
    hide Good, Effect, TakesPages, Cleared, Request.Ok;
    TableTree(s, m1, pgd, k, i, page);
    TableFootprint(s, m1, pgd, k, i, page);
    TableEffect(s, m1, pgd, r, k, i, page, a);
    TableTaken(s, m1, k, i, page);
  }

  /** The tree with the new table: well formed, and every address keeps its leaf. */
  lemma TableTree(s: State, m1: Memory, pgd: nat, k: Key, i: nat, page: nat)
    requires Good(s, pgd) && k in s.tab && k.level < 3 && i < 512 && Entry(s.mem, s.tab, k, i) == 0
    requires IsTablePage(page) && PageIndex(page) in s.free && Cleared(s.mem, m1, page)
    ensures Child(k, i) !in s.tab && Good(WithTable(s, m1, k, i, page), pgd)
    ensures forall va: nat :: va < VA_LIMIT ==>
            LeafOf(WithTable(s, m1, k, i, page).mem, pgd, va) == LeafOf(s.mem, pgd, va)
  {
    hide WellFormed, LeafOf, Cleared, Entry;
    FreshPage(s, pgd, page);
    ClearedElsewhere(s, m1, pgd, page);
    assert Entry(m1, s.tab, k, i) == Entry(s.mem, s.tab, k, i);
    ClearedPageZero(s.mem, m1, page);
    SetTable(m1, s.tab, pgd, k, i, page);
  }

  lemma ClearedPageZero(m0: Memory, m1: Memory, page: nat)
    requires Cleared(m0, m1, page)
    ensures ZeroPage(m1, page)
  {
  }

  /** A page that can be taken holds no table. */
  lemma FreshPage(s: State, pgd: nat, page: nat)
    requires Good(s, pgd) && IsTablePage(page) && PageIndex(page) in s.free
    ensures page !in s.tab.Values && PageAddress(page)
  {
    assert s.tab[Root] == pgd;
  }

  lemma TableEffect(s: State, m1: Memory, pgd: nat, r: Request, k: Key, i: nat, page: nat, a: nat)
    requires r.Ok() && r.lo <= a <= r.hi && k in s.tab && i < 512 && Child(k, i) !in s.tab && IsTablePage(page)
    requires Good(WithTable(s, m1, k, i, page), pgd) && Footprint(s, WithTable(s, m1, k, i, page))
    requires forall va: nat :: va < VA_LIMIT ==>
             LeafOf(WithTable(s, m1, k, i, page).mem, pgd, va) == LeafOf(s.mem, pgd, va)
    ensures Effect(s, WithTable(s, m1, k, i, page), pgd, r, {Child(k, i)}, a, a)
  {
    hide Good, Footprint, LeafOf, LeafMem, Request.Want;
    assert SectionKeys(r, a, a) == {};
    assert s.tab[Child(k, i) := page].Keys == s.tab.Keys + {Child(k, i)} - {};
  }

  lemma TableTaken(s: State, m1: Memory, k: Key, i: nat, page: nat)
    requires k in s.tab && i < 512 && Child(k, i) !in s.tab && IsTablePage(page) && PageIndex(page) in s.free
    ensures TakesPages(s, WithTable(s, m1, k, i, page), {Child(k, i)})
  {
    hide LeafMem, Child;
    assert {Child(k, i)} - s.tab.Keys == {Child(k, i)};
  }

  lemma TableFootprint(s: State, m1: Memory, pgd: nat, k: Key, i: nat, page: nat)
    requires Good(s, pgd) && k in s.tab && i < 512 && Child(k, i) !in s.tab
    requires IsTablePage(page) && PageIndex(page) in s.free && Cleared(s.mem, m1, page)
    ensures Footprint(s, WithTable(s, m1, k, i, page))
  {
    assert KeyOk(s.tab, k);
    hide WellFormed, Owned;
    var m2 := LeafMem(m1, s.tab, k, i, page + 3);
    PageOf(s.tab[k], i);
    forall at: nat | Load(m2, at) != Load(s.mem, at) ensures MayWrite(s, WithTable(s, m1, k, i, page), at) {
      if page <= at < page + 0x1000 { SamePage(page, at); }
    }
  }

  lemma SamePage(page: nat, at: nat)
    requires page % 0x1000 == 0 && page <= at < page + 0x1000
    ensures at - at % 0x1000 == page
  {
  }

  lemma ClearedElsewhere(s: State, m1: Memory, pgd: nat, page: nat)
    requires Good(s, pgd) && IsTablePage(page) && page !in s.tab.Values && Cleared(s.mem, m1, page)
    ensures SameTables(s.mem, m1, s.tab) && WellFormed(m1, s.tab, pgd)
    ensures forall va: nat :: va < VA_LIMIT ==> LeafOf(m1, pgd, va) == LeafOf(s.mem, pgd, va)
  {
    forall l, j | l in s.tab && 0 <= j < 512 ensures Entry(m1, s.tab, l, j) == Entry(s.mem, s.tab, l, j) {
      assert KeyOk(s.tab, l);
      EntryOutside(s.tab[l], page, j);
    }
    SameTablesSameTree(s.mem, m1, s.tab, pgd);
  }

  lemma EntryOutside(a: nat, page: nat, j: nat)
    requires a % 0x1000 == 0 && page % 0x1000 == 0 && a != page && j < 512
    ensures !(page <= a + 8 * j < page + 0x1000)
  {
  }

  /** An entry with a table below it already: nothing to add. */
  lemma TableThere(s: State, pgd: nat, r: Request, k: Key, i: nat, a: nat)
    requires r.Ok() && Good(s, pgd) && r.lo <= a <= r.hi && k in s.tab && k.level < 3 && i < 512
    requires Child(k, i) in s.tab
    ensures PagePaddr(Entry(s.mem, s.tab, k, i)) == s.tab[Child(k, i)]
    ensures Step(s, s, pgd, r, {Child(k, i)}, a, a)
  {
    assert KeyOk(s.tab, Child(k, i));
    TableAddress(s.tab[Child(k, i)]);
    assert SlotOk(s.mem, s.tab, k, i);
    assert SectionKeys(r, a, a) == {};
    assert {Child(k, i)} - s.tab.Keys == {};
    assert s.tab.Keys + {Child(k, i)} - {} == s.tab.Keys;
  }
}
