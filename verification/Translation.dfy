/** What the Arm MMU computes from a four-level table (section D5.3,
    "VMSAv8-64 translation table format descriptors", of the Arm Architecture
    Reference Manual DDI 0487; 4 KB granule, 48-bit addresses), and the
    well-formed trees on which that walk is easy to predict. */
module Translation {
  import opened Bits
  import opened PgTable

  datatype Option<+T> = None | Some(value: T)

  /** Physical memory as 64-bit words; addresses never written read as anything, here 0. */
  type Memory = map<nat, Word>

  function Load(mem: Memory, at: nat): Word { if at in mem then mem[at] else 0 }

  // ----- the walk -----

  /** Number of the level-L entry that covers `va`, counted over the whole address space. */
  function Slot(level: nat, va: nat): nat {
    if level == 0 then va / 0x80_0000_0000
    else if level == 1 then va / 0x4000_0000
    else if level == 2 then va / 0x20_0000
    else va / 0x1000
  }

  function Index(level: nat, va: nat): nat { Slot(level, va) % 512 }

  /** Where the descriptor that decides a translation lies. */
  datatype Place = Place(level: nat, at: nat)

  /** The hardware walk from the table at `base`: None is a translation fault. */
  function Walk(mem: Memory, base: nat, level: nat, va: nat): Option<Place>
    requires level <= 3
    decreases 3 - level
  {
    var at := base + 8 * Index(level, va);
    var desc := Load(mem, at);
    if desc % 4 == 3 then
      if level == 3 then Some(Place(3, at)) else Walk(mem, PagePaddr(desc), level + 1, va)
    else if desc % 4 == 1 && (level == 1 || level == 2) then Some(Place(level, at))
    else None
  }

  datatype Leaf = Leaf(level: nat, desc: Word)

  function LeafOf(mem: Memory, pgd: nat, va: nat): Option<Leaf> { ReadLeaf(mem, Walk(mem, pgd, 0, va)) }

  function ReadLeaf(mem: Memory, p: Option<Place>): Option<Leaf> {
    if p.None? then None else Some(Leaf(p.value.level, Load(mem, p.value.at)))
  }

  /** Output address and attributes: bits 63..48 and 11..2 of the deciding descriptor. */
  datatype Translated = Fault | Mapped(pa: nat, upper: nat, lower: nat)

  function Decode(leaf: Option<Leaf>, va: nat): Translated {
    match leaf
    case None => Fault
    case Some(Leaf(level, d)) =>
      var out := if level == 1 then d % VA_LIMIT / 0x4000_0000 * 0x4000_0000 + va % 0x4000_0000
                 else if level == 2 then d % VA_LIMIT / 0x20_0000 * 0x20_0000 + va % 0x20_0000
                 else d % VA_LIMIT / 0x1000 * 0x1000 + va % 0x1000;
      Mapped(out, d / VA_LIMIT, d % 0x1000 / 4)
  }

  function Translate(mem: Memory, pgd: nat, va: nat): Translated { Decode(LeafOf(mem, pgd, va), va) }

  // ----- well-formed trees -----

  /** The level-L table that covers slot `n` of the level above; the root is (0, 0). */
  datatype Key = Key(level: nat, n: nat)

  /** Where each reachable table lies. */
  type Tables = map<Key, nat>

  const Root: Key := Key(0, 0)

  function Child(k: Key, i: nat): Key { Key(k.level + 1, 512 * k.n + i) }

  function Parent(k: Key): Key
    requires k.level > 0
  {
    Key(k.level - 1, k.n / 512)
  }

  /** The level-L table on the path of `va`. */
  function PathKey(level: nat, va: nat): Key { if level == 0 then Root else Key(level, Slot(level - 1, va)) }

  ghost function Entry(mem: Memory, tab: Tables, k: Key, i: nat): Word
    requires k in tab
  {
    Load(mem, tab[k] + 8 * i)
  }

  /** An entry points to its child table, or is a leaf the builder may write, or is empty. */
  ghost predicate SlotOk(mem: Memory, tab: Tables, k: Key, i: nat)
    requires k in tab
  {
    var d := Entry(mem, tab, k, i);
    if Child(k, i) in tab then d == tab[Child(k, i)] + 3 else d == 0 || LeafDesc(k.level, d)
  }

  predicate LeafDesc(level: nat, d: Word) { (level == 2 && d % 4 == 1) || (level == 3 && d % 4 == 3) }

  ghost predicate KeyOk(tab: Tables, k: Key)
    requires k in tab
  {
    && k.level <= 3
    && PageAddress(tab[k])
    && (k.level == 0 ==> k == Root)
    && (k.level > 0 ==> Parent(k) in tab)
  }

  /** Reachable tables are page-aligned, pairwise distinct, and each is referenced by
      exactly one entry: the one that `Parent` and the slot number name. */
  ghost predicate WellFormed(mem: Memory, tab: Tables, pgd: nat) {
    && Root in tab && tab[Root] == pgd
    && (forall k :: k in tab ==> KeyOk(tab, k))
    && (forall k, l :: k in tab && l in tab && tab[k] == tab[l] ==> k == l)
    && (forall k, i :: k in tab && 0 <= i < 512 ==> SlotOk(mem, tab, k, i))
  }

  /** On a well-formed tree the deepest table on the path decides. */
  ghost function Deepest(mem: Memory, tab: Tables, va: nat): Option<Leaf> {
    if PathKey(3, va) in tab then LeafIn(mem, tab, 3, va)
    else if PathKey(2, va) in tab then LeafIn(mem, tab, 2, va)
    else None
  }

  ghost function LeafIn(mem: Memory, tab: Tables, level: nat, va: nat): Option<Leaf>
    requires PathKey(level, va) in tab
  {
    var d := Entry(mem, tab, PathKey(level, va), Index(level, va));
    if d == 0 then None else Some(Leaf(level, d))
  }

  lemma SlotSplit(level: nat, va: nat)
    requires level < 3
    ensures Slot(level + 1, va) == 512 * Slot(level, va) + Index(level + 1, va)
    ensures Slot(level, va) == Slot(level + 1, va) / 512
  {
  }

  lemma PathStep(level: nat, va: nat)
    requires level < 3 && va < VA_LIMIT
    ensures PathKey(level + 1, va) == Child(PathKey(level, va), Index(level, va))
    ensures Parent(PathKey(level + 1, va)) == PathKey(level, va)
  {
    if level > 0 { SlotSplit(level - 1, va); }
  }

  /** A pointer entry sends the walk one level down. */
  lemma WalkDown(mem: Memory, tab: Tables, pgd: nat, level: nat, va: nat)
    requires WellFormed(mem, tab, pgd) && level < 3 && va < VA_LIMIT
    requires PathKey(level, va) in tab && PathKey(level + 1, va) in tab
    ensures Walk(mem, tab[PathKey(level, va)], level, va)
            == Walk(mem, tab[PathKey(level + 1, va)], level + 1, va)
  {
    var k, l := PathKey(level, va), PathKey(level + 1, va);
    PathStep(level, va);
    assert SlotOk(mem, tab, k, Index(level, va)) && KeyOk(tab, l);
    TableAddress(tab[l]);
  }

  lemma TableAddress(pa: nat)
    requires PageAddress(pa)
    ensures PagePaddr(pa + 3) == pa && (pa + 3) % 4 == 3
  {
    hide PagePaddr;
    var page := pa / 0x1000;
    assert page < 0x10_0000_0000;
    SmallRemainders(page);
  }

  lemma SmallRemainders(page: nat)
    requires page < 0x10_0000_0000
    ensures (page * 0x1000 + 3) % 0x1000 == 3 && (page * 0x1000 + 3) % 4 == 3
    ensures (page * 0x1000 + 3) % 0x1_0000_0000_0000 == page * 0x1000 + 3
  {
    var x := page * 0x1000 + 3;
    Quotient(x, 0x1000, page, 3);
    Quotient(x, 4, page * 0x400, 3);
    Quotient(x, 0x1_0000_0000_0000, 0, x);
  }

  /** An empty entry or a leaf ends the walk. */
  lemma EntryEnds(mem: Memory, base: nat, level: nat, va: nat)
    requires level <= 3
    requires var d := Load(mem, base + 8 * Index(level, va)); d == 0 || LeafDesc(level, d)
    ensures Walk(mem, base, level, va)
            == if level >= 2 && Load(mem, base + 8 * Index(level, va)) != 0
               then Some(Place(level, base + 8 * Index(level, va))) else None
  {
    hide Index, Load;
  }

  /** Any other entry ends the walk. */
  lemma WalkEnds(mem: Memory, tab: Tables, pgd: nat, level: nat, va: nat)
    requires WellFormed(mem, tab, pgd) && level <= 3 && va < VA_LIMIT
    requires PathKey(level, va) in tab && Child(PathKey(level, va), Index(level, va)) !in tab
    ensures Walk(mem, tab[PathKey(level, va)], level, va)
            == if level >= 2 && Entry(mem, tab, PathKey(level, va), Index(level, va)) != 0
               then Some(Place(level, tab[PathKey(level, va)] + 8 * Index(level, va))) else None
  {
    hide Walk, Slot, Load;
    assert SlotOk(mem, tab, PathKey(level, va), Index(level, va));
    EntryEnds(mem, tab[PathKey(level, va)], level, va);
  }

  lemma NothingBelow(mem: Memory, tab: Tables, pgd: nat, k: Key)
    requires WellFormed(mem, tab, pgd) && k.level > 3
    ensures k !in tab
  {
    assert k in tab ==> KeyOk(tab, k);
  }

  /** The place the walk of a well-formed tree stops at. */
  ghost function DeepestPlace(mem: Memory, tab: Tables, va: nat): Option<Place> {
    if PathKey(3, va) in tab then PlaceIn(mem, tab, 3, va)
    else if PathKey(2, va) in tab then PlaceIn(mem, tab, 2, va)
    else None
  }

  ghost function PlaceIn(mem: Memory, tab: Tables, level: nat, va: nat): Option<Place>
    requires PathKey(level, va) in tab
  {
    var k, i := PathKey(level, va), Index(level, va);
    if Entry(mem, tab, k, i) == 0 then None else Some(Place(level, tab[k] + 8 * i))
  }

  lemma ResolveFrom2(mem: Memory, tab: Tables, pgd: nat, va: nat)
    requires WellFormed(mem, tab, pgd) && va < VA_LIMIT && PathKey(2, va) in tab
    ensures Walk(mem, tab[PathKey(2, va)], 2, va)
            == if PathKey(3, va) in tab then PlaceIn(mem, tab, 3, va) else PlaceIn(mem, tab, 2, va)
  {
    PathStep(2, va);
    if PathKey(3, va) !in tab {
      WalkEnds(mem, tab, pgd, 2, va);
    } else {
      WalkDown(mem, tab, pgd, 2, va);
      NothingBelow(mem, tab, pgd, Child(PathKey(3, va), Index(3, va)));
      WalkEnds(mem, tab, pgd, 3, va);
    }
  }

  lemma ResolveFrom0(mem: Memory, tab: Tables, pgd: nat, va: nat)
    requires WellFormed(mem, tab, pgd) && va < VA_LIMIT
    ensures Walk(mem, pgd, 0, va)
            == if PathKey(2, va) in tab then Walk(mem, tab[PathKey(2, va)], 2, va) else None
    ensures PathKey(3, va) in tab ==> PathKey(2, va) in tab
  {
    PathStep(0, va); PathStep(1, va); PathStep(2, va);
    assert PathKey(3, va) in tab ==> KeyOk(tab, PathKey(3, va));
    assert PathKey(2, va) in tab ==> KeyOk(tab, PathKey(2, va));
    if PathKey(1, va) !in tab {
      WalkEnds(mem, tab, pgd, 0, va);
    } else {
      WalkDown(mem, tab, pgd, 0, va);
      if PathKey(2, va) in tab { WalkDown(mem, tab, pgd, 1, va); } else { WalkEnds(mem, tab, pgd, 1, va); }
    }
  }

  lemma ResolvePlace(mem: Memory, tab: Tables, pgd: nat, va: nat)
    requires WellFormed(mem, tab, pgd) && va < VA_LIMIT
    ensures Walk(mem, pgd, 0, va) == DeepestPlace(mem, tab, va)
  {
    ResolveFrom0(mem, tab, pgd, va);
    if PathKey(2, va) in tab { ResolveFrom2(mem, tab, pgd, va); }
  }

  lemma Resolve(mem: Memory, tab: Tables, pgd: nat, va: nat)
    requires WellFormed(mem, tab, pgd) && va < VA_LIMIT
    ensures LeafOf(mem, pgd, va) == Deepest(mem, tab, va)
  {
    ResolvePlace(mem, tab, pgd, va);
    ReadDeepest(mem, tab, va);
  }

  lemma ReadDeepest(mem: Memory, tab: Tables, va: nat)
    ensures ReadLeaf(mem, DeepestPlace(mem, tab, va)) == Deepest(mem, tab, va)
  {
  }
}
