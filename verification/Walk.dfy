/** dump_pgtable.c: the software walkers, against the hardware walk, and the
    permission update of one leaf. */
module Walkers {
  import opened Bits
  import opened PgTable
  import opened Translation
  import opened TreeUpdate
  import opened PageAlloc
  import opened MapSpec
  import opened MapSteps
  import opened Mmu

  // ----- entries of a well-formed tree, as the walkers read them -----

  lemma EntryTable(s: State, pgd: nat, k: Key, i: nat)
    requires Good(s, pgd) && k in s.tab && i < 512
    ensures Child(k, i) in s.tab ==>
              PagePaddr(Entry(s.mem, s.tab, k, i)) == s.tab[Child(k, i)] && Entry(s.mem, s.tab, k, i) % 4 == 3
    ensures Child(k, i) !in s.tab ==>
              Entry(s.mem, s.tab, k, i) == 0 || LeafDesc(k.level, Entry(s.mem, s.tab, k, i))
  {
    assert SlotOk(s.mem, s.tab, k, i);
    if Child(k, i) in s.tab {
      assert KeyOk(s.tab, Child(k, i));
      TableAddress(s.tab[Child(k, i)]);
    }
  }

  /** One level of a walk: the entry for `va` is empty, a leaf, or leads to the next table. */
  lemma PathEntry(s: State, pgd: nat, level: nat, va: nat)
    requires Good(s, pgd) && level <= 3 && va < VA_LIMIT && PathKey(level, va) in s.tab
    ensures var d := Entry(s.mem, s.tab, PathKey(level, va), Index(level, va));
            if level < 3 && PathKey(level + 1, va) in s.tab
            then PagePaddr(d) == s.tab[PathKey(level + 1, va)] && d % 4 == 3
            else d == 0 || LeafDesc(level, d)
  {
    EntryTable(s, pgd, PathKey(level, va), Index(level, va));
    if level < 3 { PathStep(level, va); }
    else { NothingBelow(s.mem, s.tab, pgd, Child(PathKey(3, va), Index(3, va))); }
  }

  /** The entry the walk of va reads at a level lies at address 0. */
  ghost predicate NullAt(tab: Tables, level: nat, va: nat) {
    PathKey(level, va) in tab && tab[PathKey(level, va)] + 8 * Index(level, va) == 0
  }

  ghost predicate NullOnPath(tab: Tables, va: nat) {
    NullAt(tab, 0, va) || NullAt(tab, 1, va) || NullAt(tab, 2, va) || NullAt(tab, 3, va)
  }

  /** Only a table at address 0 can have such an entry. */
  lemma NullNeedsZeroTable(tab: Tables, va: nat)
    requires 0 !in tab.Values
    ensures !NullOnPath(tab, va)
  {
    hide Slot;
    forall l: nat ensures !NullAt(tab, l, va) {
      if PathKey(l, va) in tab { assert tab[PathKey(l, va)] in tab.Values; }
    }
  }

  lemma PathParents(s: State, pgd: nat, va: nat)
    requires Good(s, pgd) && va < VA_LIMIT
    ensures PathKey(0, va) in s.tab && s.tab[PathKey(0, va)] == pgd
    ensures PathKey(3, va) in s.tab ==> PathKey(2, va) in s.tab
    ensures PathKey(2, va) in s.tab ==> PathKey(1, va) in s.tab
  {
    ParentsOnPath(s.mem, s.tab, pgd, va);
  }

  lemma Indices(va: Word)
    ensures PgdIndex(va) == Index(0, va) && PudIndex(va) == Index(1, va)
    ensures PmdIndex(va) == Index(2, va) && PteIndex(va) == Index(3, va)
  {
  }

  lemma FaultIff(mem: Memory, pgd: nat, va: nat)
    ensures Translate(mem, pgd, va) == Fault <==> Walk(mem, pgd, 0, va) == None
  {
    hide Walk;
  }

  /** Where the walk stops, by the deepest table on the path. */
  lemma StopsAt(s: State, pgd: nat, va: nat)
    requires Good(s, pgd) && va < VA_LIMIT
    ensures PathKey(2, va) !in s.tab ==> Walk(s.mem, pgd, 0, va) == None
    ensures PathKey(2, va) in s.tab && PathKey(3, va) !in s.tab ==>
              PlaceAddress(Walk(s.mem, pgd, 0, va)) == AddressIfSet(s.mem, s.tab[PathKey(2, va)] + 8 * Index(2, va))
    ensures PathKey(3, va) in s.tab ==>
              PlaceAddress(Walk(s.mem, pgd, 0, va)) == AddressIfSet(s.mem, s.tab[PathKey(3, va)] + 8 * Index(3, va))
  {
    hide Good, WellFormed, Walk, Index, PathKey;
    PathParents(s, pgd, va);
    assert Walk(s.mem, pgd, 0, va) == DeepestPlace(s.mem, s.tab, va) by {
      GoodTree(s, pgd);
      ResolvePlace(s.mem, s.tab, pgd, va);
    }
  }

  lemma GoodTree(s: State, pgd: nat)
    requires Good(s, pgd)
    ensures WellFormed(s.mem, s.tab, pgd)
  {
  }

  function AddressIfSet(mem: Memory, at: nat): Option<nat> { if Load(mem, at) == 0 then None else Some(at) }

  function PlaceAddress(p: Option<Place>): Option<nat> { if p.None? then None else Some(p.value.at) }

  /** walk_pgtable: the address of the deciding descriptor as the hardware finds it, or none;
      an entry at address 0 on the way reads as none too. */
  method WalkPgtable(t: PageTables, address: Word) returns (p: Option<nat>)
    requires t.Valid() && address < VA_LIMIT
    ensures p == if NullOnPath(t.tab, address) then None else PlaceAddress(Walk(t.mem, t.pgd, 0, address))
    ensures p == None <==> Translate(t.mem, t.pgd, address) == Fault || NullOnPath(t.tab, address)
  {
    hide Good, Walk, PathKey, Index, PgdIndex, PudIndex, PmdIndex, PteIndex, Translate, PagePaddr, DescType, Takeable;
    ghost var s := t.Now();
    StopsAt(s, t.pgd, address);
    FaultIff(t.mem, t.pgd, address);
    PathParents(s, t.pgd, address);
    Indices(address);
    PathEntry(s, t.pgd, 0, address);
    var pgdp := t.pgd + 8 * PgdIndex(address);
    if pgdp == 0 || Load(t.mem, pgdp) == 0 { return None; }
    PathEntry(s, t.pgd, 1, address);
    var pud := PagePaddr(Load(t.mem, pgdp)) + 8 * PudIndex(address);
    if pud == 0 || Load(t.mem, pud) == 0 { return None; }
    PathEntry(s, t.pgd, 2, address);
    var pmd := PagePaddr(Load(t.mem, pud)) + 8 * PmdIndex(address);
    if pmd == 0 || Load(t.mem, pmd) == 0 { return None; }
    if DescType(Load(t.mem, pmd)) == TYPE_SECT { return Some(pmd); }
    PathEntry(s, t.pgd, 3, address);
    var pte := PagePaddr(Load(t.mem, pmd)) + 8 * PteIndex(address);
    if pte == 0 || Load(t.mem, pte) == 0 { return None; }
    return Some(pte);
  }

  // ----- the dump walk -----

  /** One call of print_pgtable: levels 1 to 4 stand for PGD to PTE. */
  datatype Report = Report(start: nat, end: nat, level: nat, val: Word)

  /** Consecutive, non-empty pieces from a to e. */
  predicate Tiles(log: seq<Report>, a: nat, e: nat) {
    if log == [] then a == e
    else
      var last := log[|log| - 1];
      last.start < last.end == e && Tiles(log[..|log| - 1], a, last.start)
  }

  /** The level of the last table that the walk of va reads. */
  function StopLevel(mem: Memory, base: nat, level: nat, va: nat): nat
    requires level <= 3
    decreases 3 - level
  {
    var desc := Load(mem, base + 8 * Index(level, va));
    if level < 3 && desc % 4 == 3 then StopLevel(mem, PagePaddr(desc), level + 1, va) else level
  }

  /** It is the deepest table on the path. */
  function Deepest(tab: Tables, va: nat): nat {
    if PathKey(3, va) in tab then 3 else if PathKey(2, va) in tab then 2 else if PathKey(1, va) in tab then 1 else 0
  }

  lemma {:induction false} StopsAtDeepest(s: State, pgd: nat, level: nat, va: nat)
    requires Good(s, pgd) && level <= 3 && va < VA_LIMIT && PathKey(level, va) in s.tab
    ensures level <= Deepest(s.tab, va) && StopLevel(s.mem, s.tab[PathKey(level, va)], level, va) == Deepest(s.tab, va)
    decreases 3 - level
  {
    hide Good, PathKey, Index, PagePaddr;
    PathParents(s, pgd, va);
    PathEntry(s, pgd, level, va);
    if level < 3 && PathKey(level + 1, va) in s.tab { StopsAtDeepest(s, pgd, level + 1, va); }
  }

  lemma StopsRoot(s: State, pgd: nat, va: nat)
    requires Good(s, pgd) && va < VA_LIMIT
    ensures StopLevel(s.mem, pgd, 0, va) == Deepest(s.tab, va)
  {
    PathParents(s, pgd, va);
    StopsAtDeepest(s, pgd, 0, va);
  }

  /** Every address of the piece has exactly the reported leaf, or none if the value is 0, and
      its walk ends at the reported level. */
  ghost predicate Truthful(mem: Memory, pgd: nat, p: Report) {
    forall va: nat :: p.start <= va < p.end && va < VA_LIMIT ==>
      && p.level == StopLevel(mem, pgd, 0, va) + 1
      && LeafOf(mem, pgd, va) == if p.val == 0 then None else Some(Leaf(p.level - 1, p.val))
  }

  ghost predicate AllTruthful(mem: Memory, pgd: nat, log: seq<Report>) {
    forall i :: 0 <= i < |log| ==> Truthful(mem, pgd, log[i])
  }

  lemma TilesAppend(log: seq<Report>, p: Report, a: nat, b: nat)
    requires Tiles(log, a, b) && p.start == b < p.end
    ensures Tiles(log + [p], a, p.end)
  {
    assert (log + [p])[..|log|] == log;
  }

  /** The range [start, end) lies in one 1 GB slot. */
  predicate InOneGig(start: nat, end: nat) { (end - 1) / 0x4000_0000 == start / 0x4000_0000 }

  /** pgd_index, as a number. */
  function TopIndex(addr: nat): nat { addr / 0x80_0000_0000 % 512 }

  class Dump {
    var log: seq<Report>

    constructor ()
      ensures log == []
    {
      log := [];
    }

    method PrintPgtable(start: nat, end: nat, level: nat, val: Word, ghost t: PageTables, ghost a: nat)
      requires Tiles(log, a, start) && start < end
      requires AllTruthful(t.mem, t.pgd, log) && Truthful(t.mem, t.pgd, Report(start, end, level, val))
      modifies this
      ensures log == old(log) + [Report(start, end, level, val)]
      ensures Tiles(log, a, end) && AllTruthful(t.mem, t.pgd, log)
    {
      TilesAppend(log, Report(start, end, level, val), a, start);
      log := log + [Report(start, end, level, val)];
    }

    /** walk_pte: the pages of one 2 MB slot. */
    method WalkPte(t: PageTables, pmdp: nat, start: Word, end: Word, ghost a: nat)
      requires t.Valid() && start < end <= VA_LIMIT && start % 0x1000 == 0 && end % 0x1000 == 0
      requires (end - 1) / 0x20_0000 == start / 0x20_0000 && Key(3, start / 0x20_0000) in t.tab
      requires PagePaddr(Load(t.mem, pmdp)) == t.tab[Key(3, start / 0x20_0000)]
      requires Tiles(log, a, start) && AllTruthful(t.mem, t.pgd, log)
      modifies this
      ensures Tiles(log, a, end) && AllTruthful(t.mem, t.pgd, log)
    {
      hide Good, Truthful, AllTruthful, Tiles, PteIndex, PagePaddr, Takeable;
      ghost var m := start / 0x20_0000;
      var ptep := PagePaddr(Load(t.mem, pmdp)) + 8 * PteIndex(start);
      var addr := start;
      while true
        invariant start <= addr < end && addr % 0x1000 == 0
        invariant ptep == t.tab[Key(3, m)] + 8 * (addr / 0x1000 % 512)
        invariant Tiles(log, a, addr) && AllTruthful(t.mem, t.pgd, log)
        decreases end - addr
      {
        SameSlot(start, addr, end);
        PageReport(t.Now(), t.pgd, addr);
        PrintPgtable(addr, addr + 0x1000, 4, Load(t.mem, ptep), t, a);
        ptep := ptep + 8;
        addr := addr + 0x1000;
        if addr == end { break; }
      }
    }

    /** walk_pmd: the 2 MB slots of one 1 GB slot. */
    method WalkPmd(t: PageTables, pudp: nat, start: Word, end: Word, ghost a: nat)
      requires t.Valid() && start < end <= VA_LIMIT && start % 0x1000 == 0 && end % 0x1000 == 0
      requires InOneGig(start, end) && Key(2, start / 0x4000_0000) in t.tab
      requires PagePaddr(Load(t.mem, pudp)) == t.tab[Key(2, start / 0x4000_0000)]
      requires Tiles(log, a, start) && AllTruthful(t.mem, t.pgd, log)
      modifies this
      ensures Tiles(log, a, end) && AllTruthful(t.mem, t.pgd, log)
    {
      hide Good, Truthful, AllTruthful, Tiles, PmdIndex, PagePaddr, PmdAddrEnd, DescType, Load, Takeable;
      ghost var g := start / 0x4000_0000;
      var pmdp := PagePaddr(Load(t.mem, pudp)) + 8 * PmdIndex(start);
      var addr := start;
      while true
        invariant start <= addr < end && addr % 0x1000 == 0
        invariant addr == start || addr % 0x20_0000 == 0
        invariant pmdp == t.tab[Key(2, g)] + 8 * (addr / 0x20_0000 % 512)
        invariant Tiles(log, a, addr) && AllTruthful(t.mem, t.pgd, log)
        decreases end - addr
      {
        var pmd := Load(t.mem, pmdp);
        var next := PmdAddrEnd(addr, end);
        DumpPiece(start, addr, end);
        SlotReport(t.Now(), t.pgd, addr, next, pmd);
        if pmd == 0 || DescType(pmd) == TYPE_SECT {
          PrintPgtable(addr, next, 3, pmd, t, a);
        } else {
          WalkPte(t, pmdp, addr, next, a);
        }
        pmdp := pmdp + 8;
        addr := next;
        if addr == end { break; }
      }
    }

    /** walk_pud, on a range inside one 1 GB slot: `next` is computed from `start`, so
        only there does the loop end, and it ends after its first turn (`PudLoopEndsIff`). */
    method WalkPud(t: PageTables, pgdp: nat, start: Word, end: Word, ghost a: nat)
      requires t.Valid() && start < end <= VA_LIMIT && start % 0x1000 == 0 && end % 0x1000 == 0
      requires InOneGig(start, end) && Key(1, start / 0x80_0000_0000) in t.tab
      requires PagePaddr(Load(t.mem, pgdp)) == t.tab[Key(1, start / 0x80_0000_0000)]
      requires Tiles(log, a, start) && AllTruthful(t.mem, t.pgd, log)
      modifies this
      ensures Tiles(log, a, end) && AllTruthful(t.mem, t.pgd, log)
    {
      hide Good, Truthful, AllTruthful, Tiles, PudIndex, PagePaddr, PudAddrEnd, DescType, Load, Takeable;
      var pudp := PagePaddr(Load(t.mem, pgdp)) + 8 * PudIndex(start);
      var pud := Load(t.mem, pudp);
      var next := PudAddrEnd(start, end);
      OnePudPiece(start, end);
      GigReport(t.Now(), t.pgd, start, end, pud);
      if pud == 0 || DescType(pud) == TYPE_SECT {
        PrintPgtable(start, next, 2, pud, t, a);
      } else {
        WalkPmd(t, pudp, start, next, a);
      }
    }

    /** walk_pgd, where every 512 GB piece of the range lies inside one 1 GB slot. */
    method WalkPgd(t: PageTables, start: Word, size: Word)
      requires t.Valid() && size > 0 && start + size <= VA_LIMIT && start % 0x1000 == 0 && size % 0x1000 == 0
      requires Dumpable(start, start + size)
      requires log == []
      modifies this
      ensures Tiles(log, start, start + size) && AllTruthful(t.mem, t.pgd, log)
    {
      hide Good, Truthful, AllTruthful, Tiles, PgdIndex, PgdAddrEnd, Load, Dumpable, FreeIn, InOneGig, TopIndex,
           PagePaddr, Usable, Takeable;
      var end := start + size;
      SumAligned(start, size, 0x1000);
      EmptyLog(t.mem, t.pgd, start);
      StartIndex(start);
      var pgdp := t.pgd + 8 * PgdIndex(start);
      var addr := start;
      while true
        invariant start <= addr < end && addr % 0x1000 == 0 && Dumpable(addr, end)
        invariant Tiles(log, start, addr) && AllTruthful(t.mem, t.pgd, log)
        invariant pgdp == t.pgd + 8 * TopIndex(addr)
        decreases end - addr
      {
        var pgd := Load(t.mem, pgdp);
        var next := PgdAddrEnd(addr, end);
        TopPiece(addr, end);
        TopReport(t.Now(), t.pgd, addr, next, pgd);
        if pgd == 0 {
          PrintPgtable(addr, next, 1, pgd, t, start);
        } else {
          WalkPud(t, pgdp, addr, next, start);
        }
        pgdp := pgdp + 8;
        addr := next;
        if addr == end { break; }
      }
    }
  }

  lemma StartIndex(addr: Word)
    ensures PgdIndex(addr) == TopIndex(addr)
  {
  }

  lemma EmptyLog(mem: Memory, pgd: nat, a: nat)
    ensures Tiles([], a, a) && AllTruthful(mem, pgd, [])
  {
  }

  /** Inside one 1 GB slot, or across one 512 GB boundary with less than a slot on each side. */
  predicate Dumpable(a: nat, e: nat)
    requires a < e
  {
    || (e - 1) / 0x4000_0000 == a / 0x4000_0000
    || ((e - 1) / 0x4000_0000 == a / 0x4000_0000 + 1 && (e - 1) / 0x4000_0000 % 512 == 0)
  }

  lemma TopPiece(addr: Word, end: Word)
    requires addr < end <= VA_LIMIT && addr % 0x1000 == 0 && end % 0x1000 == 0 && Dumpable(addr, end)
    ensures var next := PgdAddrEnd(addr, end);
            && addr < next <= end && next % 0x1000 == 0 && InOneGig(addr, next)
            && (next < end ==>
                  && Dumpable(next, end)
                  && TopIndex(next) == TopIndex(addr) + 1)
  {
    hide PgdAddrEnd;
    PgdCut(addr, end);
    var q := addr / 0x80_0000_0000;
    var next := PgdAddrEnd(addr, end);
    if next < end {
      NextPgdIndex(q);
      BoundaryGig(q + 1, addr, end);
    }
  }

  /** Below the boundary h * 512 GB of a dumpable range only the last 1 GB slot is touched,
      above it only the first. */
  lemma BoundaryGig(h: nat, addr: nat, end: nat)
    requires addr < h * 0x80_0000_0000 < end && Dumpable(addr, end) && addr / 0x80_0000_0000 == h - 1
    ensures (h * 0x80_0000_0000 - 1) / 0x4000_0000 == addr / 0x4000_0000
    ensures (end - 1) / 0x4000_0000 == h * 0x80_0000_0000 / 0x4000_0000
  {
    var g, l := addr / 0x4000_0000, (end - 1) / 0x4000_0000;
    assert h * 0x80_0000_0000 == 512 * h * 0x4000_0000;
    assert g <= 512 * h - 1;
    assert l >= 512 * h;
  }

  /** The address walk_pud has reached after k turns of its loop. */
  function PudLoopAddr(start: Word, end: Word, k: nat): Word {
    if k == 0 then start else PudAddrEnd(start, end)
  }

  /** Its loop leaves through `addr != end` if and only if the range lies in one 1 GB slot. */
  lemma PudLoopEndsIff(start: Word, end: Word)
    requires start < end <= VA_LIMIT
    ensures (exists k: nat :: k > 0 && PudLoopAddr(start, end, k) == end)
            <==> InOneGig(start, end)
  {
    PudCut(start, end);
    hide PudAddrEnd;
    if InOneGig(start, end) {
      assert PudLoopAddr(start, end, 1) == end;
    }
  }

  /** So a dump of the first 2 GB never leaves its first 1 GB. */
  lemma TwoGigabytesNeverEnd(k: nat)
    requires k > 0
    ensures PudLoopAddr(0, 0x8000_0000, k) == 0x4000_0000 != 0x8000_0000
  {
    PudCut(0, 0x8000_0000);
  }

  lemma PageReport(s: State, pgd: nat, addr: nat)
    requires Good(s, pgd) && addr % 0x1000 == 0 && addr < VA_LIMIT && Key(3, addr / 0x20_0000) in s.tab
    ensures Truthful(s.mem, pgd,
            Report(addr, addr + 0x1000, 4, Load(s.mem, s.tab[Key(3, addr / 0x20_0000)] + 8 * (addr / 0x1000 % 512))))
  {
    hide Good, WellFormed, StopLevel, LeafOf;
    var d := Load(s.mem, s.tab[Key(3, addr / 0x20_0000)] + 8 * (addr / 0x1000 % 512));
    forall va: nat | addr <= va < addr + 0x1000 && va < VA_LIMIT
      ensures StopLevel(s.mem, pgd, 0, va) == 3
      ensures LeafOf(s.mem, pgd, va) == if d == 0 then None else Some(Leaf(3, d))
    {
      PageOfVa(addr, va);
      StopsRoot(s, pgd, va);
      GoodTree(s, pgd);
      PathParents(s, pgd, va);
      Resolve(s.mem, s.tab, pgd, va);
    }
  }

  lemma PageOfVa(addr: nat, va: nat)
    requires addr % 0x1000 == 0 && addr <= va < addr + 0x1000
    ensures PathKey(3, va) == Key(3, addr / 0x20_0000) && Index(3, va) == addr / 0x1000 % 512
  {
    assert va / 0x1000 == addr / 0x1000;
    SlotSplit(2, va);
    SlotSplit(2, addr);
  }

  lemma DumpPiece(start: nat, addr: Word, end: Word)
    requires start <= addr < end <= VA_LIMIT && addr % 0x1000 == 0 && end % 0x1000 == 0
    requires InOneGig(start, end)
    ensures var next := PmdAddrEnd(addr, end);
            && addr < next <= end && (next - 1) / 0x20_0000 == addr / 0x20_0000 && next % 0x1000 == 0
            && addr / 0x4000_0000 == start / 0x4000_0000
            && (next < end ==> next % 0x20_0000 == 0 && next / 0x20_0000 % 512 == addr / 0x20_0000 % 512 + 1)
  {
    PmdCut(addr, end);
    hide PmdAddrEnd;
    var q := addr / 0x20_0000;
    if PmdAddrEnd(addr, end) < end { NextIndex(q, end, start / 0x4000_0000); }
  }

  lemma SlotReport(s: State, pgd: nat, addr: nat, next: nat, pmd: Word)
    requires Good(s, pgd) && addr < next <= VA_LIMIT && (next - 1) / 0x20_0000 == addr / 0x20_0000
    requires Key(2, addr / 0x4000_0000) in s.tab
    requires pmd == Load(s.mem, s.tab[Key(2, addr / 0x4000_0000)] + 8 * (addr / 0x20_0000 % 512))
    ensures pmd == 0 || DescType(pmd) == TYPE_SECT ==> Truthful(s.mem, pgd, Report(addr, next, 3, pmd))
    ensures !(pmd == 0 || DescType(pmd) == TYPE_SECT) ==>
              Key(3, addr / 0x20_0000) in s.tab && PagePaddr(pmd) == s.tab[Key(3, addr / 0x20_0000)]
  {
    hide WellFormed;
    ChildOfPmd(addr);
    EntryTable(s, pgd, Key(2, addr / 0x4000_0000), addr / 0x20_0000 % 512);
    if Key(3, addr / 0x20_0000) !in s.tab {
      forall va: nat | addr <= va < next && va < VA_LIMIT
        ensures StopLevel(s.mem, pgd, 0, va) == 2
        ensures LeafOf(s.mem, pgd, va) == if pmd == 0 then None else Some(Leaf(2, pmd))
      {
        SlotOfVa(addr, next, va);
        StopsRoot(s, pgd, va);
        Resolve(s.mem, s.tab, pgd, va);
      }
    }
  }

  lemma SlotOfVa(addr: nat, next: nat, va: nat)
    requires addr <= va < next && (next - 1) / 0x20_0000 == addr / 0x20_0000
    ensures PathKey(3, va) == Key(3, addr / 0x20_0000)
    ensures PathKey(2, va) == Key(2, addr / 0x4000_0000) && Index(2, va) == addr / 0x20_0000 % 512
  {
  }

  lemma OnePudPiece(start: Word, end: Word)
    requires start < end <= VA_LIMIT && InOneGig(start, end)
    ensures PudAddrEnd(start, end) == end
  {
    PudCut(start, end);
    hide PudAddrEnd;
  }

  lemma GigReport(s: State, pgd: nat, start: nat, end: nat, pud: Word)
    requires Good(s, pgd) && start < end <= VA_LIMIT && InOneGig(start, end)
    requires Key(1, start / 0x80_0000_0000) in s.tab
    requires pud == Load(s.mem, s.tab[Key(1, start / 0x80_0000_0000)] + 8 * (start / 0x4000_0000 % 512))
    ensures pud == 0 || DescType(pud) == TYPE_SECT ==> Truthful(s.mem, pgd, Report(start, end, 2, pud))
    ensures !(pud == 0 || DescType(pud) == TYPE_SECT) ==>
              Key(2, start / 0x4000_0000) in s.tab && PagePaddr(pud) == s.tab[Key(2, start / 0x4000_0000)]
  {
    hide Good, LeafOf, StopLevel, PagePaddr, DescType;
    ChildOfPud(start);
    EntryTable(s, pgd, Key(1, start / 0x80_0000_0000), start / 0x4000_0000 % 512);
    if Key(2, start / 0x4000_0000) !in s.tab { NothingMapped(s, pgd, 1, start, end); }
  }

  lemma NothingTruthful(mem: Memory, pgd: nat, start: nat, end: nat, level: nat)
    requires forall va: nat :: start <= va < end ==> LeafOf(mem, pgd, va) == None
    requires forall va: nat :: start <= va < end ==> StopLevel(mem, pgd, 0, va) + 1 == level
    ensures Truthful(mem, pgd, Report(start, end, level, 0))
  {
  }

  lemma TopReport(s: State, pgd: nat, start: nat, end: nat, d: Word)
    requires Good(s, pgd) && start < end <= VA_LIMIT && InOneGig(start, end)
    requires d == Load(s.mem, pgd + 8 * TopIndex(start))
    ensures d == 0 ==> Truthful(s.mem, pgd, Report(start, end, 1, d))
    ensures d != 0 ==>
              Key(1, start / 0x80_0000_0000) in s.tab && PagePaddr(d) == s.tab[Key(1, start / 0x80_0000_0000)]
  {
    hide Good, LeafOf, StopLevel, PagePaddr, InOneGig, Truthful;
    RootPresent(s, pgd);
    ChildOfRoot(start);
    EntryTable(s, pgd, Root, start / 0x80_0000_0000 % 512);
    if Key(1, start / 0x80_0000_0000) !in s.tab {
      NothingMapped(s, pgd, 0, start, end);
      NothingTruthful(s.mem, pgd, start, end, 1);
    }
  }

  /** Below a missing table nothing is mapped. */
  lemma NothingMapped(s: State, pgd: nat, level: nat, start: nat, end: nat)
    requires Good(s, pgd) && start < end <= VA_LIMIT && InOneGig(start, end)
    requires level <= 1
    requires if level == 0 then Key(1, start / 0x80_0000_0000) !in s.tab else Key(2, start / 0x4000_0000) !in s.tab
    requires level == 1 ==> Key(1, start / 0x80_0000_0000) in s.tab
    ensures forall va: nat :: start <= va < end ==> LeafOf(s.mem, pgd, va) == None
    ensures forall va: nat :: start <= va < end ==> StopLevel(s.mem, pgd, 0, va) == level
  {
    forall va: nat | start <= va < end
      ensures LeafOf(s.mem, pgd, va) == None && StopLevel(s.mem, pgd, 0, va) == level
    {
      SameGig(start, end, va);
      PathParents(s, pgd, va);
      StopsRoot(s, pgd, va);
      Resolve(s.mem, s.tab, pgd, va);
    }
  }

  lemma SameGig(start: nat, end: nat, va: nat)
    requires start <= va < end && InOneGig(start, end)
    ensures PathKey(2, va) == PathKey(2, start) && PathKey(1, va) == PathKey(1, start)
  {
    assert va / 0x4000_0000 == start / 0x4000_0000;
    SlotSplit(0, va);
    SlotSplit(0, start);
  }

  // ----- the permission update of one leaf -----

  function Writable(pte: Word): Word { PteMkwrite(PteMkyoung(pte)) }

  /** test_walk_pgtable: make the leaf of `address` young and writable, in place. */
  method MakeLeafWritable(t: PageTables, address: Word)
    requires t.Valid() && address < VA_LIMIT && Translate(t.mem, t.pgd, address) != Fault
             && !NullOnPath(t.tab, address)
    modifies t
    ensures t.Valid() && old(LeafOf(t.mem, t.pgd, address)).Some?
    ensures var leaf := old(LeafOf(t.mem, t.pgd, address)).value;
            forall va: nat :: va < VA_LIMIT ==>
              LeafOf(t.mem, t.pgd, va)
              == if Slot(leaf.level, va) == Slot(leaf.level, address) then Some(Leaf(leaf.level, Writable(leaf.desc)))
                 else old(LeafOf(t.mem, t.pgd, va))
  {
    hide Good, Writable, Walk;
    ghost var s := t.Now();
    var p := WalkPgtable(t, address);
    LeafPlace(s, t.pgd, address);
    var ptep := p.value;
    var pteNew := Writable(Load(t.mem, ptep));
    t.mem := t.mem[ptep := pteNew];
  }

  /** Rewriting a leaf's permissions where the walk found it. */
  lemma LeafPlace(s: State, pgd: nat, address: Word)
    requires Good(s, pgd) && address < VA_LIMIT && Translate(s.mem, pgd, address) != Fault
    ensures LeafOf(s.mem, pgd, address).Some? && PlaceAddress(Walk(s.mem, pgd, 0, address)).Some?
    ensures var leaf := LeafOf(s.mem, pgd, address).value;
            var at := PlaceAddress(Walk(s.mem, pgd, 0, address)).value;
            && Load(s.mem, at) == leaf.desc
            && Good(s.(mem := s.mem[at := Writable(leaf.desc)]), pgd)
            && forall va: nat :: va < VA_LIMIT ==>
                 LeafOf(s.mem[at := Writable(leaf.desc)], pgd, va)
                 == if Slot(leaf.level, va)
                     == Slot(leaf.level, address) then Some(Leaf(leaf.level, Writable(leaf.desc)))
                    else LeafOf(s.mem, pgd, va)
  {
    hide Writable, Walk, WellFormed, Slot, Owned;
    ResolvePlace(s.mem, s.tab, pgd, address);
    Resolve(s.mem, s.tab, pgd, address);
    var leaf := LeafOf(s.mem, pgd, address).value;
    var k, i := PathKey(leaf.level, address), Index(leaf.level, address);
    PathEntry(s, pgd, leaf.level, address);
    LeafHasNoTable(s, pgd, leaf.level, address);
    WritableType(leaf.desc);
    SetLeaf(s.mem, s.tab, pgd, k, i, Writable(leaf.desc));
    MinusAbsent(s.tab, {Child(k, i)});
    SlotSplit(leaf.level - 1, address);
  }

  lemma LeafHasNoTable(s: State, pgd: nat, level: nat, va: nat)
    requires Good(s, pgd) && va < VA_LIMIT && 2 <= level <= 3 && PathKey(level, va) in s.tab
    requires level == 2 ==> PathKey(3, va) !in s.tab
    ensures Child(PathKey(level, va), Index(level, va)) !in s.tab
  {
    if level == 2 { PathStep(2, va); }
    else { NothingBelow(s.mem, s.tab, pgd, Child(PathKey(3, va), Index(3, va))); }
  }

  lemma WritableType(pte: Word)
    ensures Writable(pte) % 4 == pte % 4
  {
    hide PteMkyoung, PteMkwrite, WritableUpper, WritableLower;
    WritableWord(pte);
    var hi, a, lo := pte / VA_LIMIT, pte % VA_LIMIT / 0x1000, pte % 0x1000;
    Joins(pte);
    JoinedType(hi, a, lo);
    JoinedType(WritableUpper(hi), a, WritableLower(lo));
    LowerType(lo);
  }

  lemma JoinedType(hi: nat, a: nat, lo: nat)
    ensures Joined(hi, a, lo) % 4 == lo % 4
  {
    assert Joined(hi, a, lo) == (hi * 0x4000_0000_0000 + a * 0x400) * 4 + lo;
  }

  lemma LowerType(lo: nat)
    requires lo < 0x1000
    ensures WritableLower(lo) % 4 == lo % 4 && WritableLower(lo) < 0x1000
  {
    var q, r := lo / 128, lo % 128;
    assert lo == (q * 32) * 4 + r;
    assert WritableLower(lo) == (lo / 2048 * 512 + 256 + lo / 256 % 4 * 64) * 4 + r;
  }

  /** The update keeps every output address and changes only the access flag, DBM and
      read-only attributes: the leaf becomes accessible and writable. */
  lemma WritableTranslates(level: nat, desc: Word, va: nat)
    requires level == 2 || level == 3
    ensures Decode(Some(Leaf(level, Writable(desc))), va).pa == Decode(Some(Leaf(level, desc)), va).pa
    ensures Decode(Some(Leaf(level, Writable(desc))), va).upper == WritableUpper(desc / VA_LIMIT)
    ensures Decode(Some(Leaf(level, Writable(desc))), va).lower == WritableLower(desc % 0x1000) / 4
  {
    hide PteMkyoung, PteMkwrite, WritableUpper, WritableLower;
    WritableWord(desc);
    var hi, a, lo := desc / VA_LIMIT, desc % VA_LIMIT / 0x1000, desc % 0x1000;
    Joins(desc);
    LowerType(lo);
    Parts(WritableUpper(hi), a, WritableLower(lo));
    hide Joined;
    SectionField(desc);
    SectionField(Writable(desc));
  }

  /** The 2 MB address field is the 4 KB field without its low nine bits. */
  lemma SectionField(d: Word)
    ensures d % VA_LIMIT / 0x20_0000 == d % VA_LIMIT / 0x1000 / 512
  {
  }
}
