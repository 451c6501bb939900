/** Stores the tree does not allow for: what the walk of every address makes of a table
    some of whose entries were overwritten. */
module StrayStores {
  import opened Bits
  import opened PgTable
  import opened Translation
  import opened TreeUpdate

  /** The level-L entry on the path of va is the same in both memories, if there is one. */
  ghost predicate SameAt(mem: Memory, m1: Memory, tab: Tables, level: nat, va: nat) {
    PathKey(level, va) in tab ==>
      Entry(m1, tab, PathKey(level, va), Index(level, va)) == Entry(mem, tab, PathKey(level, va), Index(level, va))
  }

  /** A pointer entry that is as it was sends the walk down as it did. */
  lemma SameDown(mem: Memory, m1: Memory, tab: Tables, pgd: nat, level: nat, va: nat)
    requires WellFormed(mem, tab, pgd) && level < 3 && va < VA_LIMIT && SameAt(mem, m1, tab, level, va)
    requires PathKey(level, va) in tab && PathKey(level + 1, va) in tab
    ensures Walk(m1, tab[PathKey(level, va)], level, va) == Walk(m1, tab[PathKey(level + 1, va)], level + 1, va)
  {
    hide Slot;
    var k, l := PathKey(level, va), PathKey(level + 1, va);
    PathStep(level, va);
    assert SlotOk(mem, tab, k, Index(level, va)) && KeyOk(tab, l);
    TableAddress(tab[l]);
  }

  /** The same entries on the path lead to the same leaf. */
  lemma {:induction false} SamePath(mem: Memory, m1: Memory, tab: Tables, pgd: nat, level: nat, va: nat)
    requires WellFormed(mem, tab, pgd) && level <= 3 && va < VA_LIMIT && PathKey(level, va) in tab
    requires forall l :: level <= l <= 3 ==> SameAt(mem, m1, tab, l, va)
    ensures ReadLeaf(m1, Walk(m1, tab[PathKey(level, va)], level, va))
            == ReadLeaf(mem, Walk(mem, tab[PathKey(level, va)], level, va))
    decreases 3 - level
  {
    hide Slot, Walk, WellFormed, Index, Load;
    var k, i := PathKey(level, va), Index(level, va);
    assert SameAt(mem, m1, tab, level, va);
    if Child(k, i) in tab {
      if level == 3 { NothingBelow(mem, tab, pgd, Child(k, i)); assert false; }
      PathStep(level, va);
      SameDown(mem, m1, tab, pgd, level, va);
      WalkDown(mem, tab, pgd, level, va);
      SamePath(mem, m1, tab, pgd, level + 1, va);
    } else {
      LastEntry(mem, tab, pgd, level, va);
      EntryEnds(m1, tab[k], level, va);
      EntryEnds(mem, tab[k], level, va);
    }
  }

  /** An entry with no table below it is empty or a leaf. */
  lemma LastEntry(mem: Memory, tab: Tables, pgd: nat, level: nat, va: nat)
    requires WellFormed(mem, tab, pgd) && level <= 3 && PathKey(level, va) in tab
    requires Child(PathKey(level, va), Index(level, va)) !in tab
    ensures var d := Load(mem, tab[PathKey(level, va)] + 8 * Index(level, va)); d == 0 || LeafDesc(level, d)
  {
    hide Slot;
    assert SlotOk(mem, tab, PathKey(level, va), Index(level, va));
  }

  /** Above the first changed entry the walk goes where it went. */
  lemma {:induction false} Reaches(mem: Memory, m1: Memory, tab: Tables, pgd: nat, level: nat, va: nat)
    requires WellFormed(mem, tab, pgd) && level <= 3 && va < VA_LIMIT && PathKey(level, va) in tab
    requires forall l :: 0 <= l < level ==> SameAt(mem, m1, tab, l, va)
    ensures Walk(m1, pgd, 0, va) == Walk(m1, tab[PathKey(level, va)], level, va)
  {
    hide Slot, Walk, WellFormed, Index;
    if level == 0 {
      RootThere(mem, tab, pgd);
    } else {
      ParentThere(mem, tab, pgd, level - 1, va);
      Reaches(mem, m1, tab, pgd, level - 1, va);
      assert SameAt(mem, m1, tab, level - 1, va);
      SameDown(mem, m1, tab, pgd, level - 1, va);
    }
  }

  lemma RootThere(mem: Memory, tab: Tables, pgd: nat)
    requires WellFormed(mem, tab, pgd)
    ensures Root in tab && tab[Root] == pgd
  {
  }

  lemma ParentThere(mem: Memory, tab: Tables, pgd: nat, level: nat, va: nat)
    requires WellFormed(mem, tab, pgd) && level < 3 && va < VA_LIMIT && PathKey(level + 1, va) in tab
    ensures PathKey(level, va) in tab
  {
    hide Slot;
    PathStep(level, va);
    assert KeyOk(tab, PathKey(level + 1, va));
  }

  /** va is translated through one of the entries first to first + n - 1 of table k. */
  predicate Through(k: Key, first: nat, n: nat, va: nat) {
    k.level <= 3 && PathKey(k.level, va) == k && first <= Index(k.level, va) < first + n
  }

  /** Only these entries of the tree were overwritten. */
  ghost predicate Overwritten(mem: Memory, m1: Memory, tab: Tables, k: Key, first: nat, n: nat) {
    forall l, j :: l in tab && 0 <= j < 512 && !(l == k && first <= j < first + n) ==>
      Entry(m1, tab, l, j) == Entry(mem, tab, l, j)
  }

  /** Then the addresses translated through them go on from the new entry, and all others
      keep their leaf. */
  lemma OverwrittenWalk(mem: Memory, m1: Memory, tab: Tables, pgd: nat, k: Key, first: nat, n: nat, va: nat)
    requires WellFormed(mem, tab, pgd) && k in tab && va < VA_LIMIT && Overwritten(mem, m1, tab, k, first, n)
    ensures k.level <= 3
    ensures Through(k, first, n, va) ==> LeafOf(m1, pgd, va) == ReadLeaf(m1, Walk(m1, tab[k], k.level, va))
    ensures !Through(k, first, n, va) ==> LeafOf(m1, pgd, va) == LeafOf(mem, pgd, va)
  {
    assert KeyOk(tab, k);
    hide Slot, Walk, WellFormed;
    forall l | 0 <= l <= 3 && !(PathKey(l, va) == k && first <= Index(l, va) < first + n)
      ensures SameAt(mem, m1, tab, l, va)
    {
    }
    if Through(k, first, n, va) {
      Reaches(mem, m1, tab, pgd, k.level, va);
    } else {
      RootThere(mem, tab, pgd);
      SamePath(mem, m1, tab, pgd, 0, va);
    }
  }

  // ----- a table that is empty, or points to itself -----

  /** From level L on va takes the same entry at every level. */
  predicate Around(level: nat, i: nat, va: nat) { forall l :: level <= l <= 3 ==> Index(l, va) == i }

  lemma AroundStep(level: nat, i: nat, va: nat)
    requires level <= 3
    ensures Around(level, i, va) <==> Index(level, va) == i && (level < 3 ==> Around(level + 1, i, va))
  {
    hide Index;
  }

  /** A page with one entry, which points back to it: the walk of va goes round or ends. */
  lemma {:induction false} RoundWalk(m: Memory, page: nat, i: nat, level: nat, va: nat)
    requires PageAddress(page) && level <= 3
    requires forall j :: 0 <= j < 512 ==> Load(m, page + 8 * j) == if j == i then page + 3 else 0
    ensures Walk(m, page, level, va) == if Around(level, i, va) then Some(Place(3, page + 8 * i)) else None
    decreases 3 - level
  {
    hide Slot, Around, PagePaddr, PageAddress;
    TableAddress(page);
    AroundStep(level, i, va);
    assert Load(m, page + 8 * Index(level, va)) == if Index(level, va) == i then page + 3 else 0;
    hide Index;
    if Index(level, va) == i && level < 3 { RoundWalk(m, page, i, level + 1, va); }
  }

  lemma EmptyWalk(m: Memory, page: nat, level: nat, va: nat)
    requires ZeroPage(m, page) && level <= 3
    ensures Walk(m, page, level, va) == None
  {
    hide Slot;
    assert Load(m, page + 8 * Index(level, va)) == 0;
  }
}
