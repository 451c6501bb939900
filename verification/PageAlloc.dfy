/** mm/page_alloc.c: first-fit allocation of 4 KB pages. */
module PageAlloc {
  const NR_PAGES: nat := 0x2_0000      // TOTAL_MEMORY / PAGE_SIZE
  const LOW_MEMORY: nat := 0x40_0000

  /** Pages as the allocator numbers them. */
  function PageAt(i: nat): nat { LOW_MEMORY + i * 0x1000 }

  function PageIndex(p: nat): int { (p - LOW_MEMORY) / 0x1000 }

  predicate IsPage(p: nat) {
    LOW_MEMORY <= p < LOW_MEMORY + NR_PAGES * 0x1000 && p % 0x1000 == 0
  }

  /** Page i is the i-th 4 KB from 4 MB on, and there are 131072 of them. */
  lemma PageNumbers(p: nat, i: nat)
    ensures IsPage(p) && PageIndex(p) == i <==> p == 0x40_0000 + 0x1000 * i && i < 0x2_0000
    ensures PageIndex(p) == i <==> 0x40_0000 + 0x1000 * i <= p < 0x40_1000 + 0x1000 * i
    ensures PageAt(i) == 0x40_0000 + 0x1000 * i
  {
  }

  function FreeIn(map_: seq<int>): set<nat> { set i: nat | i < |map_| && map_[i] == 0 }

  class PageAllocator {
    const memMap: array<int>

    ghost predicate Valid() reads memMap { memMap.Length == NR_PAGES }

    ghost function Free(): set<nat>
      reads memMap
    {
      FreeIn(memMap[..])
    }

    constructor ()
      ensures Valid() && fresh(memMap)
      ensures forall i :: i in Free() <==> 0 <= i < NR_PAGES
    {
      memMap := new int[NR_PAGES](_ => 0);
    }

    /** The lowest free page, now marked used; 0 when there is none. */
    method GetFreePage() returns (p: nat)
      requires Valid()
      modifies memMap
      ensures old(Free()) == {} ==> p == 0 && memMap[..] == old(memMap[..])
      ensures old(Free()) != {} ==>
                && IsPage(p) && PageIndex(p) in old(Free())
                && (forall j :: j in old(Free()) ==> PageIndex(p) <= j)
                && memMap[..] == old(memMap[..])[PageIndex(p) := 1]
                && Free() == old(Free()) - {PageIndex(p)}
    {
      for i := 0 to NR_PAGES
        invariant memMap[..] == old(memMap[..])
        invariant forall j :: 0 <= j < i ==> memMap[j] != 0
      {
        if memMap[i] == 0 {
          memMap[i] := 1;
          p := LOW_MEMORY + i * 0x1000;
          assert PageIndex(p) == i;
          assert i in old(Free());
          assert memMap[..] == old(memMap[..])[i := 1];
          return p;
        }
      }
      p := 0;
    }

    method FreePage(p: nat)
      requires Valid() && LOW_MEMORY <= p < LOW_MEMORY + NR_PAGES * 0x1000
      modifies memMap
      ensures memMap[..] == old(memMap[..])[PageIndex(p) := 0]
      ensures Free() == old(Free()) + {PageIndex(p)}
    {
      memMap[(p - LOW_MEMORY) / 0x1000] := 0;
      assert memMap[..] == old(memMap[..])[PageIndex(p) := 0];
    }
  }

  // ----- mem_map in memory -----

  /** The byte of page j, in a map that starts at `at`, lies in page i. */
  predicate InPage(at: nat, j: nat, i: nat) { PageAt(i) <= at + j < PageAt(i) + 0x1000 }

  /** The map after page i is cleared, where its own bytes lie in memory from `at` on. */
  function MapCleared(map_: seq<int>, at: nat, i: nat): seq<int> {
    seq(|map_|, j requires 0 <= j < |map_| => if InPage(at, j, i) then 0 else map_[j])
  }

  /** Clearing the page just taken frees no page, as it is here throughout, if and only if the
      bytes of the map that lie in it are those of other pages that are free anyway. */
  lemma MapClearedIff(map_: seq<int>, at: nat, i: nat)
    requires i in FreeIn(map_)
    ensures FreeIn(MapCleared(map_[i := 1], at, i)) == FreeIn(map_) - {i}
            <==> forall j :: 0 <= j < |map_| && InPage(at, j, i) ==> j != i && map_[j] == 0
  {
    var after := FreeIn(MapCleared(map_[i := 1], at, i));
    forall j | 0 <= j < |map_| ensures j in after <==> InPage(at, j, i) || (j != i && map_[j] == 0) {
    }
    if after == FreeIn(map_) - {i} {
      forall j | 0 <= j < |map_| && InPage(at, j, i) ensures j != i && map_[j] == 0 {
        assert j in after;
      }
    }
  }
}
