/** A table that no page is left for: what early_pgtable_alloc then clears, and what the
    walk of every address makes of the entry set to it. */
module Shortage {
  import opened Bits
  import opened PgTable
  import opened Translation
  import opened TreeUpdate
  import opened PageAlloc
  import opened MapSpec
  import opened MapSteps
  import opened Mmu
  import opened StrayStores

  /** Memory after a cleared page is hung below an entry. */
  ghost predicate Hung(m0: Memory, m1: Memory, page: Word, entry: nat) {
    exists c :: Cleared(m0, c, page) && m1 == c[entry := TableDesc(page)]
  }

  lemma HungWords(m0: Memory, m1: Memory, page: Word, entry: nat)
    requires Hung(m0, m1, page, entry) && PageAddress(page)
    ensures Load(m1, entry) == page + 3
    ensures forall j :: 0 <= j < 512 && page + 8 * j != entry ==> Load(m1, page + 8 * j) == 0
    ensures forall at: nat :: !(page <= at < page + 0x1000) && at != entry ==> Load(m1, at) == Load(m0, at)
  {
  }

  // ----- the directory handed out as a table -----

  /** Below an entry elsewhere: every address loses its translation. */
  lemma DirectoryCleared(m0: Memory, m1: Memory, pgd: Word, entry: nat)
    requires PageAddress(pgd) && Hung(m0, m1, pgd, entry) && !(pgd <= entry < pgd + 0x1000)
    ensures forall va: nat :: LeafOf(m1, pgd, va) == None
  {
    HungWords(m0, m1, pgd, entry);
    forall va: nat ensures LeafOf(m1, pgd, va) == None {
      EmptyWalk(m1, pgd, 0, va);
    }
  }

  /** Below its own entry i: every address loses its translation but those that take entry i
      at each level, which are mapped to the directory. */
  lemma DirectoryRound(m0: Memory, m1: Memory, pgd: Word, i: nat)
    requires PageAddress(pgd) && i < 512 && Hung(m0, m1, pgd, pgd + 8 * i)
    ensures forall va: nat ::
              LeafOf(m1, pgd, va) == if Around(0, i, va) then Some(Leaf(3, pgd + 3)) else None
  {
    HungWords(m0, m1, pgd, pgd + 8 * i);
    forall va: nat
      ensures LeafOf(m1, pgd, va) == if Around(0, i, va) then Some(Leaf(3, pgd + 3)) else None
    {
      RoundWalk(m1, pgd, i, 0, va);
    }
  }

  // ----- address 0 handed out again -----

  /** Entry i of table k, which is empty, gets address 0, where table k0 lies. */
  ghost predicate ZeroAgain(m0: Memory, m1: Memory, tab: Tables, pgd: nat, k0: Key, k: Key, i: nat) {
    && WellFormed(m0, tab, pgd) && k0 in tab && tab[k0] == 0
    && k in tab && k.level < 3 && i < 512 && Entry(m0, tab, k, i) == 0
    && Hung(m0, m1, 0, tab[k] + 8 * i)
  }

  lemma ZeroEntries(m0: Memory, m1: Memory, tab: Tables, pgd: nat, k0: Key, k: Key, i: nat)
    requires ZeroAgain(m0, m1, tab, pgd, k0, k, i)
    ensures k0 in tab && tab[k0] == 0 && k0.level <= 3 && k in tab && k.level < 3 && i < 512
    ensures WellFormed(m0, tab, pgd) && Entry(m0, tab, k, i) == 0 && Entry(m1, tab, k, i) == 3
    ensures forall j :: 0 <= j < 512 && !(k == k0 && j == i) ==> Load(m1, 8 * j) == 0
    ensures forall l, j :: l in tab && 0 <= j < 512 && l != k0 && !(l == k && j == i) ==>
              Entry(m1, tab, l, j) == Entry(m0, tab, l, j)
  {
    HungWords(m0, m1, 0, tab[k] + 8 * i);
    assert SlotOk(m0, tab, k, i) && KeyOk(tab, k) && KeyOk(tab, k0);
    forall j | 0 <= j < 512 && !(k == k0 && j == i) ensures Load(m1, 8 * j) == 0 {
      EntryDistinct(tab[k], 0, i, j);
    }
    forall l, j | l in tab && 0 <= j < 512 && l != k0 && !(l == k && j == i)
      ensures Entry(m1, tab, l, j) == Entry(m0, tab, l, j)
    {
      assert KeyOk(tab, l);
      EntryDistinct(tab[k], tab[l], i, j);
      EntryOutside(tab[l], 0, j);
    }
  }

  /** The addresses below the table at 0 lose their translation (or are mapped to address 0,
      if the entry lies in that table and they take it at every level), and no others do. */
  lemma ZeroTableLost(m0: Memory, m1: Memory, tab: Tables, pgd: nat, k0: Key, k: Key, i: nat, va: nat)
    requires ZeroAgain(m0, m1, tab, pgd, k0, k, i) && va < VA_LIMIT
    ensures LeafOf(m1, pgd, va)
            == if PathKey(k0.level, va) != k0 then LeafOf(m0, pgd, va)
               else if k == k0 && Around(k0.level, i, va) then Some(Leaf(3, 3)) else None
  {
    hide ZeroAgain, PathKey, Slot, WellFormed, Walk, Index, Around;
    ZeroEntries(m0, m1, tab, pgd, k0, k, i);
    if PathKey(k0.level, va) == k0 {
      ZeroReached(m0, m1, tab, pgd, k0, k, i, va);
      ZeroWalk(m0, m1, tab, pgd, k0, k, i, va);
    } else if PathKey(k.level, va) == k && Index(k.level, va) == i {
      NewEntryEmpty(m0, m1, tab, pgd, k0, k, i, va);
    } else {
      OtherPath(m0, m1, tab, pgd, k0, k, i, va);
    }
  }

  /** From address 0 on: a page that is empty but for the new entry, if that is its own. */
  lemma ZeroWalk(m0: Memory, m1: Memory, tab: Tables, pgd: nat, k0: Key, k: Key, i: nat, va: nat)
    requires ZeroAgain(m0, m1, tab, pgd, k0, k, i) && k0.level <= 3
    ensures ReadLeaf(m1, Walk(m1, 0, k0.level, va))
            == if k == k0 && Around(k0.level, i, va) then Some(Leaf(3, 3)) else None
  {
    hide ZeroAgain, Slot, WellFormed, Walk, Index, Around;
    ZeroEntries(m0, m1, tab, pgd, k0, k, i);
    if k == k0 {
      assert Load(m1, 0 + 8 * i) == Entry(m1, tab, k, i);
      RoundWalk(m1, 0, i, k0.level, va);
    } else {
      EmptyWalk(m1, 0, k0.level, va);
    }
  }

  lemma OtherPath(m0: Memory, m1: Memory, tab: Tables, pgd: nat, k0: Key, k: Key, i: nat, va: nat)
    requires ZeroAgain(m0, m1, tab, pgd, k0, k, i) && va < VA_LIMIT && k0.level <= 3 && PathKey(k0.level, va) != k0
    requires !(PathKey(k.level, va) == k && Index(k.level, va) == i)
    ensures LeafOf(m1, pgd, va) == LeafOf(m0, pgd, va)
  {
    hide ZeroAgain, Slot, WellFormed, Walk, Load;
    ZeroEntries(m0, m1, tab, pgd, k0, k, i);
    RootThere(m0, tab, pgd);
    forall l | 0 <= l <= 3 ensures SameAt(m0, m1, tab, l, va) {
    }
    SamePath(m0, m1, tab, pgd, 0, va);
  }

  /** Above a table of the tree no entry is empty. */
  lemma {:induction false} AboveNotEmpty(m0: Memory, tab: Tables, pgd: nat, level: nat, va: nat, l: nat)
    requires WellFormed(m0, tab, pgd) && va < VA_LIMIT && l < level <= 3 && PathKey(level, va) in tab
    ensures PathKey(l, va) in tab && Entry(m0, tab, PathKey(l, va), Index(l, va)) != 0
    decreases level - l
  {
    hide Slot;
    ParentThere(m0, tab, pgd, level - 1, va);
    if l == level - 1 {
      PathStep(l, va);
      assert SlotOk(m0, tab, PathKey(l, va), Index(l, va));
    } else {
      AboveNotEmpty(m0, tab, pgd, level - 1, va, l);
    }
  }

  lemma ZeroReached(m0: Memory, m1: Memory, tab: Tables, pgd: nat, k0: Key, k: Key, i: nat, va: nat)
    requires ZeroAgain(m0, m1, tab, pgd, k0, k, i) && va < VA_LIMIT && k0.level <= 3 && PathKey(k0.level, va) == k0
    ensures Walk(m1, pgd, 0, va) == Walk(m1, 0, k0.level, va)
  {
    hide ZeroAgain, Slot, WellFormed, Walk, Load;
    ZeroEntries(m0, m1, tab, pgd, k0, k, i);
    forall l | 0 <= l < k0.level ensures SameAt(m0, m1, tab, l, va) {
      AboveNotEmpty(m0, tab, pgd, k0.level, va, l);
    }
    Reaches(m0, m1, tab, pgd, k0.level, va);
  }

  /** Behind the entry that was set lies the cleared page. */
  lemma NewEntryEmpty(m0: Memory, m1: Memory, tab: Tables, pgd: nat, k0: Key, k: Key, i: nat, va: nat)
    requires ZeroAgain(m0, m1, tab, pgd, k0, k, i) && va < VA_LIMIT && k0.level <= 3 && PathKey(k0.level, va) != k0
    requires PathKey(k.level, va) == k && Index(k.level, va) == i
    ensures LeafOf(m1, pgd, va) == None && LeafOf(m0, pgd, va) == None
  {
    hide ZeroAgain, Slot, WellFormed, Walk, Load, Index;
    ZeroEntries(m0, m1, tab, pgd, k0, k, i);
    NewEntryReached(m0, m1, tab, pgd, k0, k, i, va);
    EntryEnds(m0, tab[k], k.level, va);
    assert k != k0;
    EmptyWalk(m1, 0, k.level + 1, va);
    PointsToZero(m1, tab[k], k.level, va);
  }

  lemma NewEntryReached(m0: Memory, m1: Memory, tab: Tables, pgd: nat, k0: Key, k: Key, i: nat, va: nat)
    requires ZeroAgain(m0, m1, tab, pgd, k0, k, i) && va < VA_LIMIT && k0.level <= 3 && PathKey(k0.level, va) != k0
    requires k in tab && k.level < 3 && PathKey(k.level, va) == k && Index(k.level, va) == i
    ensures Walk(m1, pgd, 0, va) == Walk(m1, tab[k], k.level, va)
    ensures Walk(m0, pgd, 0, va) == Walk(m0, tab[k], k.level, va)
  {
    hide ZeroAgain, Slot, WellFormed, Walk, Load;
    ZeroEntries(m0, m1, tab, pgd, k0, k, i);
    forall l | 0 <= l < k.level ensures SameAt(m0, m1, tab, l, va) && SameAt(m0, m0, tab, l, va) {
      AboveNotEmpty(m0, tab, pgd, k.level, va, l);
    }
    Reaches(m0, m1, tab, pgd, k.level, va);
    Reaches(m0, m0, tab, pgd, k.level, va);
  }

  lemma PointsToZero(m: Memory, base: nat, level: nat, va: nat)
    requires level < 3 && Load(m, base + 8 * Index(level, va)) == 3
    ensures Walk(m, base, level, va) == Walk(m, 0, level + 1, va)
  {
    TableAddress(0);
    hide Index, Load, PagePaddr;
  }

  // ----- the step of the builder with no page to take -----

  /** alloc_pgtable and the store of the table descriptor when nothing can be taken. With no
      page free, address 0 is cleared: all translations stay if no table lies there, and else
      exactly those below that table go. With pages free the next is the directory: then all
      translations go. */
  method HangNothing(t: PageTables, entry: nat, ghost k: Key, ghost i: nat)
    requires t.Valid() && t.Now().free == {} && k in t.tab && k.level < 3 && i < 512 && entry == t.tab[k] + 8 * i
    requires Entry(t.mem, t.tab, k, i) == 0
    modifies t`mem, t.alloc.memMap
    ensures old(t.alloc.Free()) == {} && 0 !in t.tab.Values ==>
              forall va: nat :: va < VA_LIMIT ==> LeafOf(t.mem, t.pgd, va) == LeafOf(old(t.mem), t.pgd, va)
    ensures old(t.alloc.Free()) == {} ==> forall k0 :: k0 in t.tab && t.tab[k0] == 0 ==>
              forall va: nat :: va < VA_LIMIT ==>
                LeafOf(t.mem, t.pgd, va)
                == if PathKey(k0.level, va) != k0 then LeafOf(old(t.mem), t.pgd, va)
                   else if k == k0 && Around(k0.level, i, va) then Some(Leaf(3, 3)) else None
    ensures old(t.alloc.Free()) != {} ==>
              forall va: nat :: va < VA_LIMIT ==>
                LeafOf(t.mem, t.pgd, va)
                == if k == Root && Around(0, i, va) then Some(Leaf(3, t.pgd + 3)) else None
  {
    hide Good, WellFormed, Slot, LeafOf, Takeable, Usable, FreeIn, Around;
    ghost var s := t.Now();
    ghost var free := t.alloc.Free();
    var page, cleared := t.HangTable(entry);
    assert Hung(s.mem, t.mem, page, entry);
    if free == {} {
      NoTableAtZero(s, cleared, t.pgd, k, i);
      forall k0, va: nat | k0 in t.tab && t.tab[k0] == 0 && va < VA_LIMIT
        ensures LeafOf(t.mem, t.pgd, va)
                == if PathKey(k0.level, va) != k0 then LeafOf(s.mem, t.pgd, va)
                   else if k == k0 && Around(k0.level, i, va) then Some(Leaf(3, 3)) else None
      {
        GoodTree(s, t.pgd);
        ZeroTableLost(s.mem, t.mem, t.tab, t.pgd, k0, k, i, va);
      }
    } else {
      NextIsDirectory(free, t.pgd, t.zeroFree, page);
      EntryOfDirectory(s, t.pgd, k, i);
      if k == Root { DirectoryRound(s.mem, t.mem, t.pgd, i); } else { DirectoryCleared(s.mem, t.mem, t.pgd, entry); }
    }
  }

  lemma GoodTree(s: State, pgd: nat)
    requires Good(s, pgd)
    ensures WellFormed(s.mem, s.tab, pgd)
  {
  }

  lemma NoTableAtZero(s: State, c: Memory, pgd: nat, k: Key, i: nat)
    requires Good(s, pgd) && k in s.tab && k.level < 3 && i < 512 && Entry(s.mem, s.tab, k, i) == 0
             && Cleared(s.mem, c, 0)
    ensures 0 !in s.tab.Values ==> forall va: nat :: va < VA_LIMIT ==>
              LeafOf(c[s.tab[k] + 8 * i := TableDesc(0)], pgd, va) == LeafOf(s.mem, pgd, va)
  {
    hide Good, WellFormed, LeafOf, Cleared, Entry, ZeroPage, TableDesc;
    if 0 !in s.tab.Values {
      GoodTree(s, pgd);
      ClearedElsewhere(s, c, pgd, 0);
      SameEntry(s, c, k, i);
      ClearedPageZero(s.mem, c, 0);
      SetTable(c, s.tab, pgd, k, i, 0);
    }
  }

  lemma SameEntry(s: State, c: Memory, k: Key, i: nat)
    requires k in s.tab && i < 512 && SameTables(s.mem, c, s.tab)
    ensures Entry(c, s.tab, k, i) == Entry(s.mem, s.tab, k, i)
  {
  }

  /** Pages are free, but none before the directory: first fit returns the directory. */
  lemma NextIsDirectory(free: set<nat>, pgd: nat, zeroFree: bool, page: nat)
    requires free != {} && Takeable(free, pgd, zeroFree) == {} && FirstFit(free, page)
    ensures page == pgd && IsPage(pgd)
  {
    assert Usable(free, pgd) == {};
    assert IsPage(pgd) && PageIndex(pgd) in free;
    assert PageIndex(page) < PageIndex(pgd) ==> PageIndex(page) in Usable(free, pgd);
  }

  lemma EntryOfDirectory(s: State, pgd: nat, k: Key, i: nat)
    requires Good(s, pgd) && k in s.tab && i < 512
    ensures PageAddress(pgd) && (k == Root ==> s.tab[k] == pgd)
    ensures k != Root ==> !(pgd <= s.tab[k] + 8 * i < pgd + 0x1000)
  {
    assert KeyOk(s.tab, k) && KeyOk(s.tab, Root);
    if k != Root { EntryOutside(s.tab[k], pgd, i); }
  }
}
