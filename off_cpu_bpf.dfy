// The off-CPU sampler: a kprobe on finish_task_switch that stamps the task
// being switched out and, when a stamped task is switched back in, adds the
// time it spent off the CPU (in units of 2^20 ns) to its count.
module OffCpuBpf {
  import opened BpfMaps
  import opened SaEbpf

  /** The time unit of the counts: deltas are shifted right by 20 bits. */
  const SHIFT_DIVISOR: nat := 0x10_0000

  /** psid_count_map and pid_info_map, plus the start map of switch-out times. */
  datatype OffCpuMaps = OffCpuMaps(common: CommonMaps, start: map<u32, u64>)

  /** The configured target pid selects one task; a negative target selects every user task but the collector. */
  predicate Traced(vals: CommonVals, targetPid: int, pid: u32)
    ensures targetPid >= 0 ==> (Traced(vals, targetPid, pid) <==> pid == ToU32(targetPid))
    ensures targetPid < 0 && (pid == 0 || pid == ToU32(vals.selfPid)) ==> !Traced(vals, targetPid, pid)
    ensures targetPid < 0 && pid != 0 && pid != ToU32(vals.selfPid) ==> Traced(vals, targetPid, pid)
  {
    (targetPid >= 0 && pid == ToU32(targetPid)) || (targetPid < 0 && pid != 0 && pid != ToU32(vals.selfPid))
  }

  /** The 32-bit count increment for a task stamped at `ts` and switched in at `now`. */
  function OffCpuDelta(ts: u64, now: u64): (d: u32)
    ensures ts <= now && now - ts < U32_LIMIT * SHIFT_DIVISOR ==> d == (now - ts) / SHIFT_DIVISOR
  {
    ToU32(SubU64(now, ts) / SHIFT_DIVISOR)
  }

  /** The switch-out half: stamp `curr` at `now` if it is traced and not yet stamped. */
  function RecordStart(start: map<u32, u64>, cap: nat, vals: CommonVals, targetPid: int, curr: Task, now: u64): (r: map<u32, u64>)
    ensures !Traced(vals, targetPid, curr.pid) || curr.pid in start || |start| >= cap ==> r == start
    ensures Traced(vals, targetPid, curr.pid) && curr.pid !in start && |start| < cap ==> r == start[curr.pid := now]
  {
    if Traced(vals, targetPid, curr.pid) then Update(start, cap, curr.pid, now, BpfNoExist).m else start
  }

  /** The switch-in half: consume the stamp of `next` and accumulate its non-zero delta. */
  function Account(s: OffCpuMaps, cap: nat, vals: CommonVals, next: Task, now: u64, usid: int, ksid: int): (r: OffCpuMaps)
    ensures next.pid !in s.start ==> r == s
    ensures next.pid in s.start ==> r.start == s.start - {next.pid}
    ensures next.pid in s.start && OffCpuDelta(s.start[next.pid], now) == 0 ==> r.common == s.common
    ensures next.pid in s.start && OffCpuDelta(s.start[next.pid], now) != 0 ==>
      var d := OffCpuDelta(s.start[next.pid], now);
      var k := CountKey(vals, next.pid, usid, ksid);
      && r.common.infos == SaveTaskInfo(s.common.infos, cap, next.pid, next)
      && (k in s.common.counts ==> r.common.counts == s.common.counts[k := AddU32(s.common.counts[k], d)])
      && (k !in s.common.counts && |s.common.counts| < cap ==> r.common.counts == s.common.counts[k := d])
      && (k !in s.common.counts && |s.common.counts| >= cap ==> r.common.counts == s.common.counts)
  {
    if next.pid !in s.start then s
    else
      var start := Delete(s.start, next.pid);
      var d := OffCpuDelta(s.start[next.pid], now);
      if d == 0 then OffCpuMaps(s.common, start)
      else
        var infos := SaveTaskInfo(s.common.infos, cap, next.pid, next);
        var k := CountKey(vals, next.pid, usid, ksid);
        var counts := if k in s.common.counts then s.common.counts[k := AddU32(s.common.counts[k], d)]
                      else Update(s.common.counts, cap, k, d, BpfNoExist).m;
        OffCpuMaps(CommonMaps(counts, infos), start)
  }

  /**
   * One context switch from `curr` to `next`: `stampTime` and `now` are the
   * two clock readings the program takes; a kernel thread switched out stops
   * the program before either half runs.
   */
  function Switch(s: OffCpuMaps, cap: nat, vals: CommonVals, targetPid: int, curr: Task, next: Task,
                  stampTime: u64, now: u64, usid: int, ksid: int): (r: OffCpuMaps)
    ensures IsKernelThread(curr) ==> r == s
  {
    if IsKernelThread(curr) then s
    else Account(OffCpuMaps(s.common, RecordStart(s.start, cap, vals, targetPid, curr, stampTime)),
                 cap, vals, next, now, usid, ksid)
  }

  /**
   * A traced user task switched out for `other` at `t0` and switched back in
   * when `other`, also a user task, is switched out at `t1` leaves no stamp
   * behind and has (t1 - t0) >> 20 as its new count, whatever the first
   * switch did for `other`.
   */
  lemma OffTimeAccumulates(s: OffCpuMaps, cap: nat, vals: CommonVals, targetPid: int,
                           task: Task, other: Task, t0: u64, ta: u64, tb: u64, t1: u64,
                           usid0: int, ksid0: int, usid: int, ksid: int)
    requires !IsKernelThread(task) && !IsKernelThread(other) && task.pid != other.pid
    requires Traced(vals, targetPid, task.pid)
    requires task.pid !in s.start && |s.start| < cap
    requires t0 <= t1 && (t1 - t0) / SHIFT_DIVISOR != 0 && t1 - t0 < U32_LIMIT * SHIFT_DIVISOR
    requires CountKey(vals, task.pid, usid, ksid) !in s.common.counts && |s.common.counts| + 1 < cap
    ensures
      var out := Switch(s, cap, vals, targetPid, task, other, t0, ta, usid0, ksid0);
      var back := Switch(out, cap, vals, targetPid, other, task, tb, t1, usid, ksid);
      && task.pid !in back.start
      && CountKey(vals, task.pid, usid, ksid) in back.common.counts
      && back.common.counts[CountKey(vals, task.pid, usid, ksid)] == (t1 - t0) / SHIFT_DIVISOR
  {
    var k := CountKey(vals, task.pid, usid, ksid);
    var stamped := RecordStart(s.start, cap, vals, targetPid, task, t0);
    assert task.pid in stamped && stamped[task.pid] == t0;
    var out := Switch(s, cap, vals, targetPid, task, other, t0, ta, usid0, ksid0);
    assert task.pid in out.start && out.start[task.pid] == t0;
    assert k !in out.common.counts && |out.common.counts| < cap;
    var restamped := RecordStart(out.start, cap, vals, targetPid, other, tb);
    assert task.pid in restamped && restamped[task.pid] == t0;
  }

  /** A stamp is consumed by the first switch-in: a second one without a new stamp changes nothing. */
  lemma StampConsumedOnce(s: OffCpuMaps, cap: nat, vals: CommonVals, next: Task, t1: u64, t2: u64, usid: int, ksid: int)
    ensures
      var once := Account(s, cap, vals, next, t1, usid, ksid);
      Account(once, cap, vals, next, t2, usid, ksid) == once
  {
  }

  /** The program's maps, in place, and the read-only data it was loaded with. */
  class OffCpuProgram {
    const vals: CommonVals
    const targetPid: int
    const cap: nat
    var counts: map<Psid, u32>
    var infos: map<u32, TaskInfo>
    var start: map<u32, u64>

    function Maps(): OffCpuMaps
      reads this
    {
      OffCpuMaps(CommonMaps(counts, infos), start)
    }

    constructor (vals: CommonVals, targetPid: int, cap: nat)
      ensures this.vals == vals && this.targetPid == targetPid && this.cap == cap
      ensures counts == map[] && infos == map[] && start == map[]
    {
      this.vals := vals;
      this.targetPid := targetPid;
      this.cap := cap;
      counts, infos, start := map[], map[], map[];
    }

    /** do_stack: the switch from `curr` to the now-current task `next`. */
    method DoStack(curr: Task, next: Task, stampTime: u64, now: u64, usid: int, ksid: int) returns (ret: int)
      modifies this
      ensures ret == 0
      ensures Maps() == Switch(old(Maps()), cap, vals, targetPid, curr, next, stampTime, now, usid, ksid)
    {
      ret := 0;
      var pid := curr.pid;
      if curr.flags & PF_KTHREAD != 0 {
        return;
      }
      if (targetPid >= 0 && pid == ToU32(targetPid)) || (targetPid < 0 && pid != 0 && pid != ToU32(vals.selfPid)) {
        start := Update(start, cap, pid, stampTime, BpfNoExist).m;
      }
      pid := next.pid;
      if pid !in start {
        return;
      }
      var ts := start[pid];
      start := Delete(start, pid);
      var delta := ToU32(SubU64(now, ts) / SHIFT_DIVISOR);
      if delta == 0 {
        return;
      }
      if pid !in infos {
        infos := Update(infos, cap, pid, InfoOf(next), BpfNoExist).m;
      }
      var apsid := CountKey(vals, pid, usid, ksid);
      if apsid in counts {
        counts := counts[apsid := AddU32(counts[apsid], delta)];
      } else {
        counts := Update(counts, cap, apsid, delta, BpfNoExist).m;
      }
    }
  }
}
