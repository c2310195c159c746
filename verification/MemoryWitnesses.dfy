/**
 Address spaces on which copyuvm and allocuvm run out of memory in the ways that lose frames or pages.
 */
module MemoryWitnesses {
  import opened Basics
  import opened PageTable
  import opened AddressSpace
  import opened FrameCount
  import opened VirtualMemory
  import opened Growth

  /** One user page, at address 0, and n free frames. */
  function OnePageSpace(n: nat): Mem {
    Mem(map[1 := NoEntries()[0 := Present(2, 7)], 2 := NoEntries()[0 := Present(3, 7)]], map[3 := ZeroPage()], seq(n, i => 4 + i))
  }

  lemma OnePageOk(n: nat)
    requires n <= 100
    ensures MemOk(OnePageSpace(n), 1) && Shape(OnePageSpace(n), 1) && UserOk(OnePageSpace(n), 1)
    ensures Leading(OnePageSpace(n), 1, 1, 1) && |OnePageSpace(n).free| == n
  {
    var m := OnePageSpace(n);
    assert m.tab[1][0] == Present(2, 7) && m.tab[2][0] == Present(3, 7);
    forall v | 0 <= v < VPAGES ensures Flat(m, 1, v).Present? <==> v == 0 {
      assert v / ENTRIES == 0 && v % ENTRIES == 0 <==> v == 0;
    }
  }

  /** With 64 free frames setupkvm fails: none is left, and all of them hang below a directory nobody has. */
  method CopyWith64(data: nat) returns (vm: Vm, r: CopyResult)
    requires DataOk(data)
    ensures r.NoSetup? && vm.free == [] && AllLost(OnePageSpace(64), vm.Now())
  {
    hide MemOk, Shape, UserOk, Leading, Flat, AllLost, OnePageSpace;
    OnePageOk(64);
    vm := new Vm(OnePageSpace(64), 1);
    r := vm.CopyUvm(1, PGSIZE, data);
    assert RoundUp(PGSIZE) == 1;
    assert Outcome(r, 64, 1, 1);
  }

  /** With 66 the copy gets its directory, kernel tables and page, but no table for it: the page is lost. */
  method CopyWith66(data: nat) returns (vm: Vm, r: CopyResult)
    requires DataOk(data)
    ensures r.NoTable? && LostOne(OnePageSpace(66), vm.Now())
  {
    hide MemOk, Shape, UserOk, Leading, Flat, LostOne, OnePageSpace;
    OnePageOk(66);
    vm := new Vm(OnePageSpace(66), 1);
    r := vm.CopyUvm(1, PGSIZE, data);
    assert RoundUp(PGSIZE) == 1;
    assert Outcome(r, 66, 1, 1);
    assert 66 == FramesFor(0) + 1;
  }

  /** An empty space with one free frame grown by a page: the new size is reported and the page is absent. */
  method GrowWithOneFrame() returns (vm: Vm, r: Option<nat>)
    ensures r == Some(PGSIZE) && Shape(vm.Now(), 1) && Flat(vm.Now(), 1, 0).Absent?
  {
    hide MemOk, Shape, UserOk, Flat, OneFrame, Growing, Need, Opens, Restored, Gap;
    OneFrameOk();
    vm := new Vm(OneFrame(), 1);
    assert RoundUp(PGSIZE) == 1 && RoundUp(0) == 0;
    ghost var how; ghost var lost;
    r, how, lost := AllocUvm(vm, 1, 0, PGSIZE);
    assert GrowthOutcome(OneFrame(), 1, 0, 1, 1, how, lost != {});
    OneFrameShort(how, lost != {});
  }
}
