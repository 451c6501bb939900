/** What a mapping request asks for, and what a builder step may change. */
module MapSpec {
  import opened Bits
  import opened PgTable
  import opened Translation
  import opened TreeUpdate
  import opened PageAlloc

  /** Map [lo, hi) to [lo + delta, hi + delta) with the attributes of `prot`. */
  datatype Request = Request(lo: nat, hi: nat, delta: int, prot: Word, flags: Word) {
    predicate Ok() {
      && lo < hi <= VA_LIMIT && 0 <= lo + delta && hi + delta <= VA_LIMIT
      && lo % 0x1000 == 0 && hi % 0x1000 == 0 && delta % 0x1000 == 0
      && ValidProt(prot)
    }

    /** 2 MB slot m is mapped by one section: it is covered whole, the output is aligned,
        and blocks are allowed. */
    predicate Section(m: nat) {
      lo <= m * 0x20_0000 && m * 0x20_0000 + 0x20_0000 <= hi && delta % 0x20_0000 == 0 && flags % 2 == 0
    }

    function Want(va: nat): (leaf: Leaf)
      requires Ok() && lo <= va < hi
    {
      if Section(va / 0x20_0000) then
        WantBounds(va);
        Leaf(2, va - va % 0x20_0000 + delta + prot - 2)
      else
        WantBounds(va);
        Leaf(3, va - va % 0x1000 + delta + prot)
    }

    lemma WantBounds(va: nat)
      requires Ok() && lo <= va < hi
      ensures 0 <= va - va % 0x1000 + delta <= VA_LIMIT - 0x1000
      ensures PageAddress(va - va % 0x1000 + delta)
      ensures prot + VA_LIMIT - 0x1000 < 0x1_0000_0000_0000_0000
      ensures Section(va / 0x20_0000) ==> 0 <= va - va % 0x20_0000 + delta <= VA_LIMIT - 0x20_0000
      ensures Section(va / 0x20_0000) ==> (va - va % 0x20_0000 + delta) % 0x20_0000 == 0
    {
      hide Ok, Section, ValidProt;
      PageBounds(va);
      ProtFits(prot);
      if Section(va / 0x20_0000) { SectionBounds(va); }
    }

    lemma PageBounds(va: nat)
      requires Ok() && lo <= va < hi
      ensures 0 <= va - va % 0x1000 + delta <= VA_LIMIT - 0x1000
      ensures PageAddress(va - va % 0x1000 + delta) && ValidProt(prot)
    {
      hide ValidProt;
      FloorWithin(lo, va, hi, 0x1000);
      SumAligned(va - va % 0x1000, delta, 0x1000);
    }

    lemma SectionBounds(va: nat)
      requires Ok() && lo <= va < hi && Section(va / 0x20_0000)
      ensures 0 <= va - va % 0x20_0000 + delta <= VA_LIMIT - 0x20_0000
      ensures (va - va % 0x20_0000 + delta) % 0x20_0000 == 0
    {
      hide ValidProt;
      DivisionParts(va, 0x20_0000);
      SumAligned(va - va % 0x20_0000, delta, 0x20_0000);
    }
  }

  lemma ProtFits(prot: Word)
    requires ValidProt(prot)
    ensures prot + VA_LIMIT - 0x1000 < 0x1_0000_0000_0000_0000
  {
    DivisionParts(prot, VA_LIMIT);
  }

  /** The multiple of d below va stays between multiples around it. */
  lemma FloorWithin(lo: int, va: int, hi: int, d: nat)
    requires d > 0 && lo <= va < hi && lo % d == 0 && hi % d == 0
    ensures lo <= va - va % d && va - va % d + d <= hi && (va - va % d) % d == 0
  {
    DivisionParts(lo, d);
    DivisionParts(va, d);
    DivisionParts(hi, d);
    if va / d < lo / d { MulOrder(va / d + 1, lo / d, d); MulNext(va / d, d); }
    if hi / d <= va / d { MulOrder(hi / d, va / d, d); }
    MulOrder(va / d + 1, hi / d, d);
    MulNext(va / d, d);
    Quotient(va - va % d, d, va / d, 0);
  }

  lemma SumAligned(x: int, y: int, d: nat)
    requires d > 0 && x % d == 0 && y % d == 0
    ensures (x + y) % d == 0
  {
    DivisionParts(x, d);
    DivisionParts(y, d);
    assert (x / d + y / d) * d == x / d * d + y / d * d;
    Quotient(x + y, d, x / d + y / d, 0);
  }

  /** The tables a request needs: one key per level-3 table, level-2 table, level-1 table. */
  ghost function PteKeys(r: Request, a: nat, e: nat): set<Key> {
    set m | a < e && a / 0x20_0000 <= m <= (e - 1) / 0x20_0000 && !r.Section(m) :: Key(3, m)
  }

  ghost function SectionKeys(r: Request, a: nat, e: nat): set<Key> {
    set m | a < e && a / 0x20_0000 <= m <= (e - 1) / 0x20_0000 && r.Section(m) :: Key(3, m)
  }

  ghost function PmdKeys(a: nat, e: nat): set<Key> {
    set n | a < e && a / 0x4000_0000 <= n <= (e - 1) / 0x4000_0000 :: Key(2, n)
  }

  ghost function PudKeys(a: nat, e: nat): set<Key> {
    set n | a < e && a / 0x80_0000_0000 <= n <= (e - 1) / 0x80_0000_0000 :: Key(1, n)
  }

  /** The free pages that are handed out before the root, should the root itself be one. */
  ghost function Usable(free: set<nat>, pgd: nat): set<nat> {
    if IsPage(pgd) && PageIndex(pgd) in free then set i | i in free && i < PageIndex(pgd) else free
  }

  /** Where a table may lie: a page of the allocator, or address 0, which the builder takes
      for a page when the allocator has none left. */
  predicate IsTablePage(p: nat) { IsPage(p) || p == 0 }

  /** The pages the builder can take: those before the root and, if they are all that is free
      and address 0 was not taken yet, one more at address 0. */
  ghost function Takeable(free: set<nat>, pgd: nat, zeroFree: bool): set<int> {
    Usable(free, pgd) + if zeroFree && free <= Usable(free, pgd) then {PageIndex(0)} else {}
  }

  /** Every table of the tree but the root lies in a page that was taken, and the root is not
      among the pages to be taken. */
  ghost predicate Owned(tab: Tables, pgd: nat, free: set<int>, rest: set<int>) {
    && free !! rest && (IsTablePage(pgd) ==> PageIndex(pgd) !in free)
    && forall k :: k in tab && k != Root ==> IsTablePage(tab[k]) && PageIndex(tab[k]) !in free + rest
  }

  /** `free` are the pages that can be taken, `rest` the other pages marked free. */
  datatype State = State(mem: Memory, tab: Tables, free: set<int>, rest: set<int>)

  ghost predicate Good(s: State, pgd: nat) { WellFormed(s.mem, s.tab, pgd) && Owned(s.tab, pgd, s.free, s.rest) }

  /** [a, e) now has the requested leaves; every other address keeps its own. */
  ghost predicate Installs(m0: Memory, m1: Memory, pgd: nat, r: Request, a: nat, e: nat)
    requires r.Ok() && r.lo <= a <= e <= r.hi
  {
    forall va: nat :: va < VA_LIMIT ==>
      LeafOf(m1, pgd, va) == if a <= va < e then Some(r.Want(va)) else LeafOf(m0, pgd, va)
  }

  ghost predicate Installed(m: Memory, pgd: nat, r: Request, a: nat, e: nat)
    requires r.Ok() && r.lo <= a <= e <= r.hi
  {
    forall va: nat :: a <= va < e ==> LeafOf(m, pgd, va) == Some(r.Want(va))
  }

  /** No section lies where the request needs a table of pages. */
  ghost predicate NoConflict(m: Memory, pgd: nat, r: Request, a: nat, e: nat) {
    forall va: nat :: a <= va < e && !r.Section(va / 0x20_0000) ==>
      LeafOf(m, pgd, va) == None || LeafOf(m, pgd, va).value.level == 3
  }

  /** Words a builder step may write: those of tables that were reachable and of pages it took. */
  ghost predicate MayWrite(s0: State, s1: State, at: nat) {
    var page := at - at % 0x1000;
    page in s0.tab.Values || (IsTablePage(page) && PageIndex(page) in s0.free - s1.free)
  }

  /** Tables stay where they are, new ones lie in pages that were free, and nothing else is written. */
  ghost predicate Footprint(s0: State, s1: State) {
    && s1.free <= s0.free && s1.rest == s0.rest
    && (forall k :: k in s1.tab && k in s0.tab ==> s1.tab[k] == s0.tab[k])
    && (forall k :: k in s1.tab && k !in s0.tab ==> PageIndex(s1.tab[k]) in s0.free - s1.free)
    && (forall at: nat :: Load(s1.mem, at) != Load(s0.mem, at) ==> MayWrite(s0, s1, at))
  }

  /** What a builder step on [a, e) does: the translations, the tables it adds (`keys`), the
      tables that sections replace, and that redoing it changes nothing. */
  ghost predicate Effect(s0: State, s1: State, pgd: nat, r: Request, keys: set<Key>, a: nat, e: nat)
    requires r.Ok() && r.lo <= a <= e <= r.hi
  {
    && Good(s1, pgd)
    && Installs(s0.mem, s1.mem, pgd, r, a, e)
    && Footprint(s0, s1)
    && s1.tab.Keys == s0.tab.Keys + keys - SectionKeys(r, a, e)
    && (Installed(s0.mem, pgd, r, a, e) && keys <= s0.tab.Keys ==> s1 == s0)
  }

  /** One page is taken for each of the tables `keys` that was missing. */
  ghost predicate TakesPages(s0: State, s1: State, keys: set<Key>) {
    |s0.free| == |s1.free| + |keys - s0.tab.Keys|
  }

  ghost predicate Step(s0: State, s1: State, pgd: nat, r: Request, keys: set<Key>, a: nat, e: nat)
    requires r.Ok() && r.lo <= a <= e <= r.hi
  {
    Effect(s0, s1, pgd, r, keys, a, e) && TakesPages(s0, s1, keys)
  }

  lemma CardSplit(x: set<Key>, y: set<Key>, t: set<Key>)
    requires x !! y
    ensures |(x + y) - t| == |x - t| + |y - t|
  {
    assert (x + y) - t == (x - t) + (y - t);
    assert (x - t) !! (y - t);
  }

  lemma SplitKeys(r: Request, a: nat, b: nat, e: nat)
    requires a <= b <= e && (b % 0x20_0000 == 0 || a == b || b == e)
    ensures PteKeys(r, a, e) == PteKeys(r, a, b) + PteKeys(r, b, e)
    ensures PteKeys(r, a, b) !! PteKeys(r, b, e)
    ensures SectionKeys(r, a, e) == SectionKeys(r, a, b) + SectionKeys(r, b, e)
    ensures SectionKeys(r, a, b) !! PteKeys(r, b, e) && PteKeys(r, a, b) !! SectionKeys(r, b, e)
  {
  }

  lemma ComposeInstalls(m0: Memory, m1: Memory, m2: Memory, pgd: nat, r: Request, a: nat, b: nat, e: nat)
    requires r.Ok() && r.lo <= a <= b <= e <= r.hi
    requires Installs(m0, m1, pgd, r, a, b) && Installs(m1, m2, pgd, r, b, e)
    ensures Installs(m0, m2, pgd, r, a, e)
    ensures Installed(m0, pgd, r, a, e) ==> Installed(m0, pgd, r, a, b) && Installed(m1, pgd, r, b, e)
  {
  }

  lemma ComposeKeys(t0: set<Key>, t1: set<Key>, t2: set<Key>, k1: set<Key>, k2: set<Key>, x1: set<Key>, x2: set<Key>)
    requires t1 == t0 + k1 - x1 && t2 == t1 + k2 - x2
    requires k1 !! k2 && x1 !! k2 && k1 !! x2
    ensures t2 == t0 + (k1 + k2) - (x1 + x2)
    ensures k2 - t1 == k2 - t0
  {
  }

  lemma ComposeFootprint(s0: State, s1: State, s2: State, pgd: nat, k1: set<Key>, k2: set<Key>, x1: set<Key>,
                         x2: set<Key>)
    requires Good(s0, pgd) && Good(s1, pgd) && Footprint(s0, s1) && Footprint(s1, s2)
    requires s1.tab.Keys == s0.tab.Keys + k1 - x1 && s2.tab.Keys == s1.tab.Keys + k2 - x2 && x1 !! k2
    ensures Footprint(s0, s2)
  {
    hide WellFormed;
    forall k | k in s2.tab
      ensures if k in s0.tab then s2.tab[k] == s0.tab[k] else PageIndex(s2.tab[k]) in s0.free - s2.free
    {
      if k in s0.tab { assert k in s1.tab; }
    }
    forall at: nat | Load(s2.mem, at) != Load(s0.mem, at) ensures MayWrite(s0, s2, at) {
      if Load(s1.mem, at) == Load(s0.mem, at) { MayWriteBefore(s0, s1, s2, pgd, at); }
    }
  }

  lemma MayWriteBefore(s0: State, s1: State, s2: State, pgd: nat, at: nat)
    requires Good(s0, pgd) && Good(s1, pgd) && Footprint(s0, s1) && s2.free <= s1.free && MayWrite(s1, s2, at)
    ensures MayWrite(s0, s2, at)
  {
    var page := at - at % 0x1000;
    if page in s1.tab.Values {
      var k :| k in s1.tab && s1.tab[k] == page;
      if k in s0.tab { assert s0.tab[k] == page; }
    }
  }

  lemma ComposePages(s0: State, s1: State, s2: State, k1: set<Key>, k2: set<Key>)
    requires TakesPages(s0, s1, k1) && TakesPages(s1, s2, k2) && k1 !! k2 && k2 - s1.tab.Keys == k2 - s0.tab.Keys
    ensures TakesPages(s0, s2, k1 + k2)
  {
    CardSplit(k1, k2, s0.tab.Keys);
  }

  lemma ComposeEffect(s0: State, s1: State, s2: State, pgd: nat, r: Request, k1: set<Key>, k2: set<Key>, a: nat,
                      b: nat, e: nat)
    requires r.Ok() && r.lo <= a <= b <= e <= r.hi && Good(s0, pgd)
    requires Effect(s0, s1, pgd, r, k1, a, b) && Effect(s1, s2, pgd, r, k2, b, e)
    requires k1 !! k2 && SectionKeys(r, a, b) !! k2 && k1 !! SectionKeys(r, b, e)
    requires SectionKeys(r, a, e) == SectionKeys(r, a, b) + SectionKeys(r, b, e)
    ensures Effect(s0, s2, pgd, r, k1 + k2, a, e) && k2 - s1.tab.Keys == k2 - s0.tab.Keys
  {
    hide Good, Installs, Installed, Footprint, SectionKeys;
    ComposeKeys(s0.tab.Keys, s1.tab.Keys, s2.tab.Keys, k1, k2, SectionKeys(r, a, b), SectionKeys(r, b, e));
    ComposeInstalls(s0.mem, s1.mem, s2.mem, pgd, r, a, b, e);
    ComposeFootprint(s0, s1, s2, pgd, k1, k2, SectionKeys(r, a, b), SectionKeys(r, b, e));
  }

  lemma Compose(s0: State, s1: State, s2: State, pgd: nat, r: Request, k1: set<Key>, k2: set<Key>, a: nat,
                b: nat, e: nat)
    requires r.Ok() && r.lo <= a <= b <= e <= r.hi && Good(s0, pgd)
    requires Step(s0, s1, pgd, r, k1, a, b) && Step(s1, s2, pgd, r, k2, b, e)
    requires k1 !! k2 && SectionKeys(r, a, b) !! k2 && k1 !! SectionKeys(r, b, e)
    requires SectionKeys(r, a, e) == SectionKeys(r, a, b) + SectionKeys(r, b, e)
    ensures Step(s0, s2, pgd, r, k1 + k2, a, e)
  {
    hide Good, Effect, TakesPages, SectionKeys;
    ComposeEffect(s0, s1, s2, pgd, r, k1, k2, a, b, e);
    ComposePages(s0, s1, s2, k1, k2);
  }

  /** Adding a step that needs no table, below the sections. */
  lemma ComposeSameKeys(s0: State, s1: State, s2: State, pgd: nat, r: Request, k: set<Key>, a: nat, b: nat, e: nat)
    requires r.Ok() && r.lo <= a <= b <= e <= r.hi && Good(s0, pgd)
    requires Step(s0, s1, pgd, r, k, a, b) && Step(s1, s2, pgd, r, {}, b, e)
    requires SectionKeys(r, a, b) == SectionKeys(r, b, e) == SectionKeys(r, a, e) == {}
    ensures Step(s0, s2, pgd, r, k, a, e)
  {
    hide Good, Step, SectionKeys;
    Compose(s0, s1, s2, pgd, r, k, {}, a, b, e);
    assert k + {} == k;
  }

  /** A free page for every table of the piece that is still missing. */
  lemma Room(s0: State, s1: State, pgd: nat, r: Request, done: set<Key>, piece: set<Key>, all: set<Key>, a: nat,
             b: nat)
    requires r.Ok() && r.lo <= a <= b <= r.hi && Step(s0, s1, pgd, r, done, a, b)
    requires |s0.free| >= |all - s0.tab.Keys| && done + piece <= all
    requires done !! piece && SectionKeys(r, a, b) !! piece
    ensures |s1.free| >= |piece - s1.tab.Keys|
  {
    hide Good, Installs, Installed, Footprint, SectionKeys;
    RoomSets(s0.tab.Keys, s1.tab.Keys, done, piece, all, SectionKeys(r, a, b));
  }

  lemma RoomSets(t0: set<Key>, t1: set<Key>, done: set<Key>, piece: set<Key>, all: set<Key>, sections: set<Key>)
    requires done + piece <= all && done !! piece && sections !! piece && t1 == t0 + done - sections
    ensures |piece - t1| + |done - t0| <= |all - t0|
  {
    assert piece - t1 == piece - t0;
    CardSplit(done, piece, t0);
    SubsetSize((done + piece) - t0, all - t0);
  }

  lemma SubsetSize(x: set<Key>, y: set<Key>)
    requires x <= y
    ensures |x| <= |y|
  {
    assert y == x + (y - x);
    assert |x + (y - x)| == |x| + |y - x|;
  }

  lemma StepGood(s0: State, s1: State, pgd: nat, r: Request, k: set<Key>, a: nat, e: nat)
    requires r.Ok() && r.lo <= a <= e <= r.hi && Step(s0, s1, pgd, r, k, a, e)
    ensures Good(s1, pgd)
  {
  }
}
