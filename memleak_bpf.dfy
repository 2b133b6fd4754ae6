// mem_watcher's leak tracker: the size requested at malloc entry is held
// per process until malloc returns; a returned address is then recorded with
// its size and user stack, and the per-stack totals grow; a free of a
// recorded address shrinks its stack's totals and forgets the address.
module MemleakBpf {
  import opened BpfMaps

  /** max_entries of sizes. */
  const SIZES_CAP: nat := 10240

  datatype AllocInfo = AllocInfo(size: u64, stackId: int)
  /** The per-stack totals: bytes still allocated and number of live allocations. */
  datatype Combined = Combined(totalSize: int, numberOfAllocs: int)

  datatype LeakMaps = LeakMaps(sizes: map<int, u64>, allocs: map<u64, AllocInfo>, combined: map<int, Combined>)

  /** The capacities of allocs and combined_allocs, set at build time. */
  datatype Caps = Caps(allocs: nat, combined: nat)

  function Plus(c: Combined, size: int): Combined { Combined(c.totalSize + size, c.numberOfAllocs + 1) }
  function Minus(c: Combined, size: int): Combined { Combined(c.totalSize - size, c.numberOfAllocs - 1) }

  /** gen_alloc_enter: the size requested by process `tgid`, overwriting an earlier one. */
  function AllocEnter(s: LeakMaps, tgid: int, size: u64): (r: LeakMaps)
    ensures r.allocs == s.allocs && r.combined == s.combined
    ensures tgid in s.sizes || |s.sizes| < SIZES_CAP ==> r.sizes == s.sizes[tgid := size]
    ensures tgid !in s.sizes && |s.sizes| >= SIZES_CAP ==> r.sizes == s.sizes
  {
    s.(sizes := Update(s.sizes, SIZES_CAP, tgid, size, BpfAny).m)
  }

  /** gen_alloc_exit2: malloc of process `tgid` returned `address`, called from user stack `stackId`. */
  function AllocExit(s: LeakMaps, caps: Caps, tgid: int, address: u64, stackId: int): (r: LeakMaps)
    ensures tgid !in s.sizes ==> r == s
    ensures tgid in s.sizes ==> r.sizes == s.sizes - {tgid}
    ensures tgid in s.sizes && address == 0 ==> r.allocs == s.allocs && r.combined == s.combined
    ensures tgid in s.sizes && address != 0 ==>
      var size := s.sizes[tgid];
      && (address in s.allocs || |s.allocs| < caps.allocs ==> r.allocs == s.allocs[address := AllocInfo(size, stackId)])
      && (address !in s.allocs && |s.allocs| >= caps.allocs ==> r.allocs == s.allocs)
      && (stackId in s.combined ==> r.combined == s.combined[stackId := Plus(s.combined[stackId], size)])
      && (stackId !in s.combined && |s.combined| < caps.combined ==> r.combined == s.combined[stackId := Combined(size, 1)])
      && (stackId !in s.combined && |s.combined| >= caps.combined ==> r.combined == s.combined)
  {
    if tgid !in s.sizes then s
    else
      var info := AllocInfo(s.sizes[tgid], 0);
      var sizes := Delete(s.sizes, tgid);
      if address == 0 then s.(sizes := sizes)
      else
        var info := info.(stackId := stackId);
        var allocs := Update(s.allocs, caps.allocs, address, info, BpfAny).m;
        var combined := if stackId !in s.combined then Update(s.combined, caps.combined, stackId, Combined(info.size, 1), BpfNoExist).m
                        else s.combined[stackId := Plus(s.combined[stackId], info.size)];
        LeakMaps(sizes, allocs, combined)
  }

  /** gen_free_enter: a free of `address`. */
  function FreeEnter(s: LeakMaps, address: u64): (r: LeakMaps)
    ensures address !in s.allocs || s.allocs[address].stackId !in s.combined ==> r == s
    ensures address in s.allocs && s.allocs[address].stackId in s.combined ==>
      var info := s.allocs[address];
      && r.sizes == s.sizes
      && r.allocs == s.allocs - {address}
      && r.combined == s.combined[info.stackId := Minus(s.combined[info.stackId], info.size)]
  {
    if address !in s.allocs then s
    else
      var info := s.allocs[address];
      if info.stackId !in s.combined then s
      else LeakMaps(s.sizes, Delete(s.allocs, address), s.combined[info.stackId := Minus(s.combined[info.stackId], info.size)])
  }

  /**
   * A malloc of `size` at a fresh address followed by its free restores
   * sizes and allocs, and restores combined too when the stack already had
   * totals; a stack seen for the first time is left with zero totals.
   */
  lemma AllocThenFree(s: LeakMaps, caps: Caps, tgid: int, size: u64, address: u64, stackId: int)
    requires tgid !in s.sizes && |s.sizes| < SIZES_CAP
    requires address != 0 && address !in s.allocs && |s.allocs| < caps.allocs
    requires stackId in s.combined || |s.combined| < caps.combined
    ensures
      var r := FreeEnter(AllocExit(AllocEnter(s, tgid, size), caps, tgid, address, stackId), address);
      && r.sizes == s.sizes
      && r.allocs == s.allocs
      && r.combined == if stackId in s.combined then s.combined else s.combined[stackId := Combined(0, 0)]
  {
    var exited := AllocExit(AllocEnter(s, tgid, size), caps, tgid, address, stackId);
    var c := if stackId in s.combined then s.combined[stackId] else Combined(0, 0);
    AllocRecords(s, caps, tgid, size, address, stackId);
    FreeAfterAlloc(exited, address, s.combined, stackId, c, size);
  }

  /** The malloc step of AllocThenFree: the size moves to the address, and the stack's totals grow. */
  lemma AllocRecords(s: LeakMaps, caps: Caps, tgid: int, size: u64, address: u64, stackId: int)
    requires tgid !in s.sizes && |s.sizes| < SIZES_CAP
    requires address != 0 && address !in s.allocs && |s.allocs| < caps.allocs
    requires stackId in s.combined || |s.combined| < caps.combined
    ensures var exited := AllocExit(AllocEnter(s, tgid, size), caps, tgid, address, stackId);
      var c := if stackId in s.combined then s.combined[stackId] else Combined(0, 0);
      && exited.sizes == s.sizes
      && exited.allocs == s.allocs[address := AllocInfo(size, stackId)]
      && exited.combined == s.combined[stackId := Plus(c, size)]
  {
    var entered := AllocEnter(s, tgid, size);
    assert entered.sizes == s.sizes[tgid := size];
    assert tgid in entered.sizes && entered.sizes[tgid] == size;
    assert entered.allocs == s.allocs && entered.combined == s.combined;
  }

  /** The free step of AllocThenFree: the stack's totals lose exactly what the allocation added. */
  lemma FreeAfterAlloc(exited: LeakMaps, address: u64, combined: map<int, Combined>, stackId: int, c: Combined, size: u64)
    requires address in exited.allocs && exited.allocs[address] == AllocInfo(size, stackId)
    requires exited.combined == combined[stackId := Plus(c, size)]
    ensures FreeEnter(exited, address).allocs == exited.allocs - {address}
    ensures FreeEnter(exited, address).sizes == exited.sizes
    ensures FreeEnter(exited, address).combined == combined[stackId := c]
    ensures stackId in combined && combined[stackId] == c ==> combined[stackId := c] == combined
  {
    assert Minus(Plus(c, size), size) == c;
  }

  /** A malloc that returned NULL only consumes the recorded size. */
  lemma FailedMallocRecordsNothing(s: LeakMaps, caps: Caps, tgid: int, size: u64, stackId: int)
    requires tgid !in s.sizes && |s.sizes| < SIZES_CAP
    ensures AllocExit(AllocEnter(s, tgid, size), caps, tgid, 0, stackId) == s
  {
    assert AllocEnter(s, tgid, size).sizes - {tgid} == s.sizes;
  }

  /** The three maps of the program, in place. */
  class MemleakProgram {
    const caps: Caps
    var sizes: map<int, u64>
    var allocs: map<u64, AllocInfo>
    var combined: map<int, Combined>

    function Maps(): LeakMaps
      reads this
    {
      LeakMaps(sizes, allocs, combined)
    }

    constructor (caps: Caps)
      ensures this.caps == caps && Maps() == LeakMaps(map[], map[], map[])
    {
      this.caps := caps;
      sizes, allocs, combined := map[], map[], map[];
    }

    method GenAllocEnter(tgid: int, size: u64) returns (ret: int)
      modifies this
      ensures ret == 0 && Maps() == AllocEnter(old(Maps()), tgid, size)
    {
      sizes := Update(sizes, SIZES_CAP, tgid, size, BpfAny).m;
      ret := 0;
    }

    method GenAllocExit2(tgid: int, address: u64, stackId: int) returns (ret: int)
      modifies this
      ensures ret == 0 && Maps() == AllocExit(old(Maps()), caps, tgid, address, stackId)
    {
      ret := 0;
      if tgid !in sizes {
        return;
      }
      var info := AllocInfo(sizes[tgid], 0);
      sizes := Delete(sizes, tgid);
      if address != 0 {
        info := info.(stackId := stackId);
        allocs := Update(allocs, caps.allocs, address, info, BpfAny).m;
        if info.stackId !in combined {
          combined := Update(combined, caps.combined, info.stackId, Combined(info.size, 1), BpfNoExist).m;
        } else {
          combined := combined[info.stackId := Plus(combined[info.stackId], info.size)];
        }
      }
    }

    method GenFreeEnter(address: u64) returns (ret: int)
      modifies this
      ensures ret == 0 && Maps() == FreeEnter(old(Maps()), address)
    {
      ret := 0;
      if address !in allocs {
        return;
      }
      var info := allocs[address];
      if info.stackId !in combined {
        return;
      }
      combined := combined[info.stackId := Minus(combined[info.stackId], info.size)];
      allocs := Delete(allocs, address);
    }
  }
}
