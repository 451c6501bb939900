/** The two writes that change a well-formed tree, and what they do to every
    translation: one entry becomes a leaf, or an empty entry gets an empty table. */
module TreeUpdate {
  import opened Bits
  import opened PgTable
  import opened Translation

  lemma EntryDistinct(a: nat, b: nat, i: nat, j: nat)
    requires a % 0x1000 == 0 && b % 0x1000 == 0 && i < 512 && j < 512
    ensures a + 8 * i == b + 8 * j ==> a == b && i == j
  {
  }

  lemma ChildDistinct(k: Key, l: Key, i: nat, j: nat)
    requires i < 512 && j < 512
    ensures Child(k, i) == Child(l, j) ==> k == l && i == j
    ensures Parent(Child(k, i)) == k
  {
  }

  ghost function LeafMem(mem: Memory, tab: Tables, k: Key, i: nat, w: Word): Memory
    requires k in tab
  {
    mem[tab[k] + 8 * i := w]
  }

  /** A write to one entry leaves every other table entry alone. */
  lemma OtherEntries(mem: Memory, tab: Tables, pgd: nat, k: Key, i: nat, w: Word)
    requires WellFormed(mem, tab, pgd) && k in tab && i < 512
    ensures forall l, j :: l in tab && 0 <= j < 512 ==>
              Entry(LeafMem(mem, tab, k, i, w), tab, l, j) == if l == k && j == i then w else Entry(mem, tab, l, j)
  {
    forall l, j | l in tab && 0 <= j < 512
      ensures Entry(LeafMem(mem, tab, k, i, w), tab, l, j) == if l == k && j == i then w else Entry(mem, tab, l, j)
    {
      assert KeyOk(tab, k) && KeyOk(tab, l);
      EntryDistinct(tab[k], tab[l], i, j);
    }
  }

  // ----- an entry becomes a leaf -----

  lemma SetLeafWellFormed(mem: Memory, tab: Tables, pgd: nat, k: Key, i: nat, w: Word)
    requires WellFormed(mem, tab, pgd) && k in tab && i < 512 && LeafDesc(k.level, w)
    ensures WellFormed(LeafMem(mem, tab, k, i, w), tab - {Child(k, i)}, pgd)
    ensures forall l, j :: l in tab - {Child(k, i)} && 0 <= j < 512 ==>
              Entry(LeafMem(mem, tab, k, i, w), tab - {Child(k, i)}, l, j)
              == if l == k && j == i then w else Entry(mem, tab, l, j)
  {
    var mem', tab' := LeafMem(mem, tab, k, i, w), tab - {Child(k, i)};
    OtherEntries(mem, tab, pgd, k, i, w);
    forall l, j | l in tab' && 0 <= j < 512
      ensures Entry(mem', tab', l, j) == if l == k && j == i then w else Entry(mem, tab, l, j)
    {
      assert Entry(mem', tab', l, j) == Entry(mem', tab, l, j);
    }
    forall l | l in tab' ensures KeyOk(tab', l) {
      assert KeyOk(tab, l);
    }
    forall l, j | l in tab' && 0 <= j < 512 ensures SlotOk(mem', tab', l, j) {
      assert SlotOk(mem, tab, l, j);
      ChildDistinct(k, l, i, j);
    }
  }

  /** The entries after a leaf store: w at entry i of k, and the table below it gone. */
  ghost predicate LeafSet(mem: Memory, tab: Tables, mem': Memory, tab': Tables, k: Key, i: nat, w: Word) {
    && k in tab && tab' == tab - {Child(k, i)}
    && forall l, j :: l in tab' && 0 <= j < 512 ==>
         Entry(mem', tab', l, j) == if l == k && j == i then w else Entry(mem, tab, l, j)
  }

  lemma PteDeepest(mem: Memory, tab: Tables, mem': Memory, tab': Tables, k: Key, i: nat, w: Word, va: nat)
    requires LeafSet(mem, tab, mem', tab', k, i, w) && k.level == 3 && w != 0 && Child(k, i) !in tab
    ensures Deepest(mem', tab', va)
            == if PathKey(3, va) == k && Index(3, va) == i then Some(Leaf(3, w)) else Deepest(mem, tab, va)
  {
    hide Slot, Entry;
    assert PathKey(2, va) != k;
  }

  lemma SectionDeepest(mem: Memory, tab: Tables, mem': Memory, tab': Tables, k: Key, i: nat, w: Word, va: nat)
    requires LeafSet(mem, tab, mem', tab', k, i, w) && k.level == 2 && w != 0
    requires PathKey(3, va) == Child(k, i) <==> PathKey(2, va) == k && Index(2, va) == i
    ensures Deepest(mem', tab', va)
            == if PathKey(2, va) == k && Index(2, va) == i then Some(Leaf(2, w)) else Deepest(mem, tab, va)
  {
    hide Slot, Entry;
    assert PathKey(3, va) != k && PathKey(2, va) != Child(k, i);
  }

  lemma SetLeafDeepest(mem: Memory, tab: Tables, pgd: nat, k: Key, i: nat, w: Word, va: nat)
    requires WellFormed(mem, tab, pgd) && k in tab && i < 512 && LeafDesc(k.level, w) && va < VA_LIMIT
    ensures Deepest(LeafMem(mem, tab, k, i, w), tab - {Child(k, i)}, va)
            == if Slot(k.level, va) == 512 * k.n + i then Some(Leaf(k.level, w)) else Deepest(mem, tab, va)
  {
    hide WellFormed, Deepest, Slot;
    SetLeafWellFormed(mem, tab, pgd, k, i, w);
    OnPath(k, i, va);
    if k.level == 3 {
      NothingBelow(mem, tab, pgd, Child(k, i));
      PteDeepest(mem, tab, LeafMem(mem, tab, k, i, w), tab - {Child(k, i)}, k, i, w, va);
    } else {
      ChildOnPath(k, i, va);
      SectionDeepest(mem, tab, LeafMem(mem, tab, k, i, w), tab - {Child(k, i)}, k, i, w, va);
    }
  }

  /** Exactly the addresses of that slot translate through the new leaf. */
  lemma SetLeaf(mem: Memory, tab: Tables, pgd: nat, k: Key, i: nat, w: Word)
    requires WellFormed(mem, tab, pgd) && k in tab && i < 512 && LeafDesc(k.level, w)
    ensures WellFormed(LeafMem(mem, tab, k, i, w), tab - {Child(k, i)}, pgd)
    ensures forall va: nat :: va < VA_LIMIT ==>
              LeafOf(LeafMem(mem, tab, k, i, w), pgd, va)
              == if Slot(k.level, va) == 512 * k.n + i then Some(Leaf(k.level, w)) else LeafOf(mem, pgd, va)
  {
    SetLeafWellFormed(mem, tab, pgd, k, i, w);
    forall va: nat | va < VA_LIMIT
      ensures LeafOf(LeafMem(mem, tab, k, i, w), pgd, va)
              == if Slot(k.level, va) == 512 * k.n + i then Some(Leaf(k.level, w)) else LeafOf(mem, pgd, va)
    {
      Resolve(mem, tab, pgd, va);
      Resolve(LeafMem(mem, tab, k, i, w), tab - {Child(k, i)}, pgd, va);
      SetLeafDeepest(mem, tab, pgd, k, i, w, va);
    }
  }

  lemma OnPath(k: Key, i: nat, va: nat)
    requires 1 <= k.level <= 3 && i < 512
    ensures Slot(k.level, va) == 512 * k.n + i <==> PathKey(k.level, va) == k && Index(k.level, va) == i
  {
    SlotSplit(k.level - 1, va);
  }

  // ----- an empty entry gets an empty table -----

  ghost predicate ZeroPage(mem: Memory, page: nat) {
    forall i :: 0 <= i < 512 ==> Load(mem, page + 8 * i) == 0
  }

  /** Words outside every reachable table do not matter. */
  ghost predicate SameTables(mem: Memory, mem': Memory, tab: Tables) {
    forall k, i :: k in tab && 0 <= i < 512 ==> Entry(mem', tab, k, i) == Entry(mem, tab, k, i)
  }

  lemma SameTablesSameTree(mem: Memory, mem': Memory, tab: Tables, pgd: nat)
    requires WellFormed(mem, tab, pgd) && SameTables(mem, mem', tab)
    ensures WellFormed(mem', tab, pgd)
    ensures forall va: nat :: va < VA_LIMIT ==> LeafOf(mem', pgd, va) == LeafOf(mem, pgd, va)
  {
    forall k, i | k in tab && 0 <= i < 512 ensures SlotOk(mem', tab, k, i) {
      assert SlotOk(mem, tab, k, i) && Entry(mem', tab, k, i) == Entry(mem, tab, k, i);
    }
    forall va: nat | va < VA_LIMIT ensures LeafOf(mem', pgd, va) == LeafOf(mem, pgd, va) {
      Resolve(mem, tab, pgd, va);
      Resolve(mem', tab, pgd, va);
    }
  }

  /** `mem'` and `tab'` add an empty table at `page` under entry i of table k. */
  ghost predicate TableAdded(mem: Memory, tab: Tables, mem': Memory, tab': Tables, k: Key, i: nat, page: nat) {
    && k in tab && k.level < 3 && i < 512 && Entry(mem, tab, k, i) == 0
    && Child(k, i) !in tab && page !in tab.Values && PageAddress(page)
    && tab' == tab[Child(k, i) := page]
    && forall l, j :: l in tab' && 0 <= j < 512 ==>
         Entry(mem', tab', l, j)
         == if l == k && j == i then page + 3 else if l == Child(k, i) then 0 else Entry(mem, tab, l, j)
  }

  lemma TableAddedWellFormed(mem: Memory, tab: Tables, mem': Memory, tab': Tables, pgd: nat, k: Key, i: nat,
                             page: nat)
    requires WellFormed(mem, tab, pgd) && TableAdded(mem, tab, mem', tab', k, i, page)
    ensures WellFormed(mem', tab', pgd)
  {
    ChildDistinct(k, k, i, i);
    forall l | l in tab' ensures KeyOk(tab', l) {
      if l in tab { assert KeyOk(tab, l); }
      assert KeyOk(tab, k);
    }
    forall l, j | l in tab' && 0 <= j < 512 ensures SlotOk(mem', tab', l, j) {
      ChildDistinct(k, l, i, j);
      if l in tab {
        assert SlotOk(mem, tab, l, j);
      } else if Child(l, j) in tab {
        assert KeyOk(tab, Child(l, j));
        ChildDistinct(l, l, j, j);
        assert false;
      }
    }
  }

  lemma ChildOnPath(k: Key, i: nat, va: nat)
    requires k.level < 3 && i < 512 && va < VA_LIMIT
    ensures PathKey(k.level + 1, va) == Child(k, i) <==> PathKey(k.level, va) == k && Index(k.level, va) == i
  {
    PathStep(k.level, va);
    ChildDistinct(k, PathKey(k.level, va), i, Index(k.level, va));
  }

  lemma ParentsOnPath(mem: Memory, tab: Tables, pgd: nat, va: nat)
    requires WellFormed(mem, tab, pgd) && va < VA_LIMIT
    ensures PathKey(3, va) in tab ==> PathKey(2, va) in tab
    ensures PathKey(2, va) in tab ==> PathKey(1, va) in tab
  {
    PathStep(1, va);
    PathStep(2, va);
    assert PathKey(3, va) in tab ==> KeyOk(tab, PathKey(3, va));
    assert PathKey(2, va) in tab ==> KeyOk(tab, PathKey(2, va));
  }

  lemma TableAddedDeepest(mem: Memory, tab: Tables, mem': Memory, tab': Tables, pgd: nat, k: Key, i: nat,
                          page: nat, va: nat)
    requires WellFormed(mem, tab, pgd) && TableAdded(mem, tab, mem', tab', k, i, page) && va < VA_LIMIT
    ensures Deepest(mem', tab', va) == Deepest(mem, tab, va)
  {
    hide WellFormed, Slot, Entry;
    ParentsOnPath(mem, tab, pgd, va);
    ChildOnPath(k, i, va);
    var k2, k3 := PathKey(2, va), PathKey(3, va);
    if k3 in tab {
      assert Entry(mem', tab', k3, Index(3, va)) == Entry(mem, tab, k3, Index(3, va));
    } else if k3 == Child(k, i) {
      assert k2 == k;
    } else if k2 in tab {
      assert Entry(mem', tab', k2, Index(2, va)) == Entry(mem, tab, k2, Index(2, va)) by {
        if k2 == k { assert Index(2, va) != i; }
      }
    }
  }

  /** Hanging an empty table under an empty entry changes no translation. */
  lemma SetTable(mem: Memory, tab: Tables, pgd: nat, k: Key, i: nat, page: nat)
    requires WellFormed(mem, tab, pgd) && k in tab && k.level < 3 && i < 512 && Entry(mem, tab, k, i) == 0
    requires PageAddress(page) && page !in tab.Values && ZeroPage(mem, page)
    ensures Child(k, i) !in tab
    ensures WellFormed(LeafMem(mem, tab, k, i, page + 3), tab[Child(k, i) := page], pgd)
    ensures forall va: nat :: va < VA_LIMIT ==>
              LeafOf(LeafMem(mem, tab, k, i, page + 3), pgd, va) == LeafOf(mem, pgd, va)
  {
    var mem', tab' := LeafMem(mem, tab, k, i, page + 3), tab[Child(k, i) := page];
    AddTable(mem, tab, pgd, k, i, page);
    TableAddedWellFormed(mem, tab, mem', tab', pgd, k, i, page);
    forall va: nat | va < VA_LIMIT ensures LeafOf(mem', pgd, va) == LeafOf(mem, pgd, va) {
      Resolve(mem, tab, pgd, va);
      Resolve(mem', tab', pgd, va);
      TableAddedDeepest(mem, tab, mem', tab', pgd, k, i, page, va);
    }
  }

  lemma AddTable(mem: Memory, tab: Tables, pgd: nat, k: Key, i: nat, page: nat)
    requires WellFormed(mem, tab, pgd) && k in tab && k.level < 3 && i < 512 && Entry(mem, tab, k, i) == 0
    requires PageAddress(page) && page !in tab.Values && ZeroPage(mem, page)
    ensures TableAdded(mem, tab, LeafMem(mem, tab, k, i, page + 3), tab[Child(k, i) := page], k, i, page)
  {
    var mem', tab' := LeafMem(mem, tab, k, i, page + 3), tab[Child(k, i) := page];
    assert SlotOk(mem, tab, k, i);
    OtherEntries(mem, tab, pgd, k, i, page + 3);
    forall l, j | l in tab' && 0 <= j < 512
      ensures Entry(mem', tab', l, j)
              == if l == k && j == i then page + 3 else if l == Child(k, i) then 0 else Entry(mem, tab, l, j)
    {
      assert KeyOk(tab, k);
      if l == Child(k, i) {
        EntryDistinct(tab[k], page, i, j);
      } else {
        assert Entry(mem', tab', l, j) == Entry(mem', tab, l, j);
      }
    }
  }
}
