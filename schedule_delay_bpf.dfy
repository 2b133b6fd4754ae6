// cpu_watcher's scheduling-delay tracer: a wakeup stamps the task's
// enter time, the switch that runs it measures the delay since that stamp
// and folds it into one system-wide summary of count, sum, maximum and
// minimum.
module ScheduleDelayBpf {
  import opened BpfMaps

  const TASK_RUNNING: u32 := 0
  /** max_entries of has_scheduled and enter_schedule. */
  const SCHED_MAP_CAP: nat := 10240

  /** The key of both hash maps: idle tasks (pid 0) are told apart by their CPU. */
  datatype ProcId = ProcId(pid: int, cpuId: int)
  datatype ScheduleEvent = ScheduleEvent(pid: int, count: int, enterTime: u64)
  datatype SumSchedule = SumSchedule(sumCount: u64, sumDelay: u64, maxDelay: u64, minDelay: u64)

  datatype SchedMaps = SchedMaps(hasScheduled: map<ProcId, bool>,
                                 enterSchedule: map<ProcId, ScheduleEvent>,
                                 sysSchedule: map<int, SumSchedule>)

  const ZERO_SUM: SumSchedule := SumSchedule(0, 0, 0, 0)

  function KeyOf(pid: int, cpu: int): (id: ProcId)
    ensures id.pid == pid
    ensures id.cpuId == if pid == 0 then cpu else 0
  {
    ProcId(pid, if pid == 0 then cpu else 0)
  }

  /** Two non-idle tasks share a key exactly when their pids agree, whatever CPU they are on. */
  lemma KeyIgnoresCpuOfUserTasks(p1: int, c1: int, p2: int, c2: int)
    requires p1 != 0 && p2 != 0
    ensures KeyOf(p1, c1) == KeyOf(p2, c2) <==> p1 == p2
  {
  }

  /**
   * A task becoming runnable: a task with no event gets a fresh one (count
   * 1, stamped now) and has_scheduled=false; a task with an event only has
   * its enter time refreshed.
   */
  function MarkRunnable(s: SchedMaps, id: ProcId, now: u64): (r: SchedMaps)
    ensures r.sysSchedule == s.sysSchedule
    ensures id in s.enterSchedule ==>
      r.hasScheduled == s.hasScheduled && r.enterSchedule == s.enterSchedule[id := s.enterSchedule[id].(enterTime := now)]
    ensures id !in s.enterSchedule && |s.enterSchedule| < SCHED_MAP_CAP ==>
      r.enterSchedule == s.enterSchedule[id := ScheduleEvent(id.pid, 1, now)]
    ensures id !in s.enterSchedule && (id in s.hasScheduled || |s.hasScheduled| < SCHED_MAP_CAP) ==>
      r.hasScheduled == s.hasScheduled[id := false]
  {
    if id !in s.enterSchedule then
      var hs := Update(s.hasScheduled, SCHED_MAP_CAP, id, false, BpfAny).m;
      var es := Update(s.enterSchedule, SCHED_MAP_CAP, id, ScheduleEvent(id.pid, 1, now), BpfAny).m;
      SchedMaps(hs, es, s.sysSchedule)
    else
      SchedMaps(s.hasScheduled, s.enterSchedule[id := s.enterSchedule[id].(enterTime := now)], s.sysSchedule)
  }

  /** sched_wakeup of task `pid` on `cpu`. */
  function Wakeup(s: SchedMaps, pid: int, cpu: int, now: u64): (r: SchedMaps)
    ensures r == MarkRunnable(s, KeyOf(pid, cpu), now)
  {
    MarkRunnable(s, KeyOf(pid, cpu), now)
  }

  /** sched_wakeup_new: a new task's entries are overwritten whatever they held. */
  function WakeupNew(s: SchedMaps, pid: int, cpu: int, now: u64): (r: SchedMaps)
    ensures r.sysSchedule == s.sysSchedule
    ensures var id := KeyOf(pid, cpu);
      && (id in s.hasScheduled || |s.hasScheduled| < SCHED_MAP_CAP ==> r.hasScheduled == s.hasScheduled[id := false])
      && (id in s.enterSchedule || |s.enterSchedule| < SCHED_MAP_CAP ==>
            r.enterSchedule == s.enterSchedule[id := ScheduleEvent(pid, 1, now)])
  {
    var id := KeyOf(pid, cpu);
    SchedMaps(Update(s.hasScheduled, SCHED_MAP_CAP, id, false, BpfAny).m,
              Update(s.enterSchedule, SCHED_MAP_CAP, id, ScheduleEvent(pid, 1, now), BpfAny).m,
              s.sysSchedule)
  }

  function Max(a: u64, b: u64): u64 { if a > b then a else b }

  /** The in-place update of the summary by one measured delay; a zero minimum means "none yet". */
  function Summarize(sum: SumSchedule, delay: u64): (r: SumSchedule)
    ensures r.sumCount == AddU64(sum.sumCount, 1)
    ensures r.sumDelay == AddU64(sum.sumDelay, delay)
    ensures r.maxDelay == Max(sum.maxDelay, delay)
    ensures r.minDelay == if sum.minDelay == 0 || delay < sum.minDelay then delay else sum.minDelay
    ensures r.minDelay <= delay <= r.maxDelay
  {
    var mx := if delay > sum.maxDelay then delay else sum.maxDelay;
    var mn := if sum.minDelay == 0 || delay < sum.minDelay then delay else sum.minDelay;
    SumSchedule(AddU64(sum.sumCount, 1), AddU64(sum.sumDelay, delay), mx, mn)
  }

  /** The summary built from scratch when the summary slot is missing. */
  function FreshSummary(delay: u64): SumSchedule
  {
    SumSchedule(1, delay, if delay > 0 then delay else 0, delay)
  }

  /** Both summary branches of sched_switch agree: the fresh one is the update of a zeroed summary. */
  lemma FreshIsUpdateOfZero(delay: u64)
    ensures FreshSummary(delay) == Summarize(ZERO_SUM, delay)
  {
  }

  /** The summary slot after one delay, through whichever branch the lookup selects. */
  function Record(sys: map<int, SumSchedule>, delay: u64): (r: map<int, SumSchedule>)
    ensures 0 in r && r[0] == Summarize(if 0 in sys then sys[0] else ZERO_SUM, delay)
    ensures forall k :: k in r && k != 0 ==> k in sys && r[k] == sys[k]
  {
    FreshIsUpdateOfZero(delay);
    if 0 !in sys then sys[0 := FreshSummary(delay)]
    else sys[0 := Summarize(sys[0], delay)]
  }

  /**
   * sched_switch from `prevPid` (in state `prevState`) to `nextPid` on
   * `cpu`: a still-running prev is marked runnable; then, if next has both
   * entries, its switch is counted and its delay recorded.
   */
  function Switch(s: SchedMaps, prevPid: int, prevState: u32, nextPid: int, cpu: int, now: u64): (r: SchedMaps)
    ensures var mid := if prevState == TASK_RUNNING then MarkRunnable(s, KeyOf(prevPid, cpu), now) else s;
      var id := KeyOf(nextPid, cpu);
      && (id !in mid.enterSchedule || id !in mid.hasScheduled ==> r == mid)
      && (id in mid.enterSchedule && id in mid.hasScheduled ==>
            var ev := mid.enterSchedule[id];
            && r.hasScheduled == mid.hasScheduled[id := true]
            && r.enterSchedule == mid.enterSchedule[id := if mid.hasScheduled[id] then ev.(count := ev.count + 1) else ev]
            && 0 in r.sysSchedule
            && r.sysSchedule[0] == Summarize(if 0 in mid.sysSchedule then mid.sysSchedule[0] else ZERO_SUM, SubU64(now, ev.enterTime)))
  {
    var mid := if prevState == TASK_RUNNING then MarkRunnable(s, KeyOf(prevPid, cpu), now) else s;
    var id := KeyOf(nextPid, cpu);
    if id !in mid.enterSchedule || id !in mid.hasScheduled then mid
    else
      var ev := mid.enterSchedule[id];
      var ev' := if mid.hasScheduled[id] then ev.(count := ev.count + 1) else ev;
      SchedMaps(mid.hasScheduled[id := true], mid.enterSchedule[id := ev'],
                Record(mid.sysSchedule, SubU64(now, ev.enterTime)))
  }

  /** sched_process_exit: both entries of the exiting task go; nothing else changes. */
  function Exit(s: SchedMaps, pid: int, cpu: int): (r: SchedMaps)
    ensures var id := KeyOf(pid, cpu);
      && id !in r.hasScheduled && id !in r.enterSchedule
      && r.hasScheduled == s.hasScheduled - {id}
      && r.enterSchedule == s.enterSchedule - {id}
      && r.sysSchedule == s.sysSchedule
  {
    var id := KeyOf(pid, cpu);
    SchedMaps(if id in s.hasScheduled then Delete(s.hasScheduled, id) else s.hasScheduled,
              if id in s.enterSchedule then Delete(s.enterSchedule, id) else s.enterSchedule,
              s.sysSchedule)
  }

  /** The first switch to a woken task only flips has_scheduled; the second one counts it. */
  lemma FirstSwitchDoesNotCount(s: SchedMaps, pid: int, cpu: int, t0: u64, t1: u64, t2: u64, prevPid: int)
    requires pid != 0 && prevPid != pid
    requires KeyOf(pid, cpu) !in s.enterSchedule
    requires |s.enterSchedule| < SCHED_MAP_CAP && |s.hasScheduled| < SCHED_MAP_CAP
    ensures
      var woken := Wakeup(s, pid, cpu, t0);
      var first := Switch(woken, prevPid, 1, pid, cpu, t1);
      var second := Switch(first, prevPid, 1, pid, cpu, t2);
      && first.enterSchedule[KeyOf(pid, cpu)].count == 1
      && first.hasScheduled[KeyOf(pid, cpu)]
      && second.enterSchedule[KeyOf(pid, cpu)].count == 2
  {
    var id := KeyOf(pid, cpu);
    var woken := Wakeup(s, pid, cpu, t0);
    assert id in woken.enterSchedule && woken.enterSchedule[id].count == 1;
    assert id in woken.hasScheduled && !woken.hasScheduled[id];
  }

  function MinOf(d: seq<u64>): u64
    requires |d| > 0
  {
    if |d| == 1 then d[0] else var m := MinOf(d[..|d| - 1]); if d[|d| - 1] < m then d[|d| - 1] else m
  }

  function MaxOf(d: seq<u64>): u64
    requires |d| > 0
  {
    if |d| == 1 then d[0] else Max(MaxOf(d[..|d| - 1]), d[|d| - 1])
  }

  function SumOf(d: seq<u64>): nat
  {
    if |d| == 0 then 0 else SumOf(d[..|d| - 1]) + d[|d| - 1]
  }

  /** The summary after recording the delays `d` in order. */
  function SummarizeAll(sum: SumSchedule, d: seq<u64>): (r: SumSchedule)
    ensures r.maxDelay >= sum.maxDelay
    ensures forall i :: 0 <= i < |d| ==> d[i] <= r.maxDelay
    ensures |d| > 0 ==> r.minDelay <= d[|d| - 1]
  {
    if |d| == 0 then sum else Summarize(SummarizeAll(sum, d[..|d| - 1]), d[|d| - 1])
  }

  /** Starting from a zeroed summary, the count and the sum of the recorded delays are kept modulo 2^64. */
  lemma {:induction false} SummaryCountsAndSums(d: seq<u64>)
    ensures SummarizeAll(ZERO_SUM, d).sumCount == |d| % U64_LIMIT
    ensures SummarizeAll(ZERO_SUM, d).sumDelay == SumOf(d) % U64_LIMIT
  {
    if |d| > 0 {
      var p := d[..|d| - 1];
      SummaryCountsAndSums(p);
      ModAdd(|p|, 1);
      ModAdd(SumOf(p), d[|d| - 1]);
    }
  }

  lemma ModAdd(a: int, b: int)
    ensures (a % U64_LIMIT + b) % U64_LIMIT == (a + b) % U64_LIMIT
  {
  }

  /** Starting from a zeroed summary, the maximum is the largest delay recorded. */
  lemma {:induction false} SummaryMaximum(d: seq<u64>)
    requires |d| > 0
    ensures SummarizeAll(ZERO_SUM, d).maxDelay == MaxOf(d)
  {
    if |d| > 1 {
      SummaryMaximum(d[..|d| - 1]);
    }
  }

  /** Starting from a zeroed summary, a run of non-zero delays leaves the smallest one as the minimum. */
  lemma {:induction false} SummaryMinimum(d: seq<u64>)
    requires |d| > 0 && forall i :: 0 <= i < |d| ==> d[i] > 0
    ensures SummarizeAll(ZERO_SUM, d).minDelay == MinOf(d) > 0
  {
    if |d| > 1 {
      var p := d[..|d| - 1];
      assert forall i :: 0 <= i < |p| ==> p[i] > 0 by {
        forall i | 0 <= i < |p| ensures p[i] > 0 { assert p[i] == d[i]; }
      }
      SummaryMinimum(p);
    }
  }

  /**
   * A zero delay empties the minimum, since zero stands for "none yet":
   * whatever came before, the next delay becomes the minimum even when larger.
   */
  lemma ZeroDelayResetsMinimum(sum: SumSchedule, d: seq<u64>, next: u64)
    ensures SummarizeAll(sum, d + [0]).minDelay == 0
    ensures SummarizeAll(sum, d + [0, next]).minDelay == next
  {
    assert (d + [0])[..|d|] == d;
    assert (d + [0, next])[..|d| + 1] == d + [0];
  }

  /** The maps of the program, in place. */
  class ScheduleDelayProgram {
    var hasScheduled: map<ProcId, bool>
    var enterSchedule: map<ProcId, ScheduleEvent>
    var sysSchedule: map<int, SumSchedule>

    function Maps(): SchedMaps
      reads this
    {
      SchedMaps(hasScheduled, enterSchedule, sysSchedule)
    }

    /** The one-slot array map starts zeroed; the hash maps start empty. */
    constructor ()
      ensures Maps() == SchedMaps(map[], map[], map[0 := ZERO_SUM])
    {
      hasScheduled, enterSchedule, sysSchedule := map[], map[], map[0 := ZERO_SUM];
    }

    method Runnable(id: ProcId, now: u64)
      modifies this
      ensures Maps() == MarkRunnable(old(Maps()), id, now)
    {
      if id !in enterSchedule {
        hasScheduled := Update(hasScheduled, SCHED_MAP_CAP, id, false, BpfAny).m;
        enterSchedule := Update(enterSchedule, SCHED_MAP_CAP, id, ScheduleEvent(id.pid, 1, now), BpfAny).m;
      } else {
        enterSchedule := enterSchedule[id := enterSchedule[id].(enterTime := now)];
      }
    }

    method SchedWakeup(pid: int, cpu: int, now: u64) returns (ret: int)
      modifies this
      ensures ret == 0 && Maps() == Wakeup(old(Maps()), pid, cpu, now)
    {
      var id := ProcId(pid, 0);
      if pid == 0 {
        id := id.(cpuId := cpu);
      }
      Runnable(id, now);
      ret := 0;
    }

    method SchedWakeupNew(pid: int, cpu: int, now: u64) returns (ret: int)
      modifies this
      ensures ret == 0 && Maps() == WakeupNew(old(Maps()), pid, cpu, now)
    {
      var id := ProcId(pid, 0);
      if pid == 0 {
        id := id.(cpuId := cpu);
      }
      hasScheduled := Update(hasScheduled, SCHED_MAP_CAP, id, false, BpfAny).m;
      enterSchedule := Update(enterSchedule, SCHED_MAP_CAP, id, ScheduleEvent(pid, 1, now), BpfAny).m;
      ret := 0;
    }

    method SchedSwitch(prevPid: int, prevState: u32, nextPid: int, cpu: int, now: u64) returns (ret: int)
      modifies this
      ensures ret == 0 && Maps() == Switch(old(Maps()), prevPid, prevState, nextPid, cpu, now)
    {
      ret := 0;
      if prevState == TASK_RUNNING {
        Runnable(KeyOf(prevPid, cpu), now);
      }
      var nextId := KeyOf(nextPid, cpu);
      if nextId !in enterSchedule {
        return;
      }
      if nextId !in hasScheduled {
        return;
      }
      var ev := enterSchedule[nextId];
      if hasScheduled[nextId] {
        enterSchedule := enterSchedule[nextId := ev.(count := ev.count + 1)];
      } else {
        hasScheduled := hasScheduled[nextId := true];
      }
      RecordDelay(SubU64(now, ev.enterTime));
    }

    /** The summary update at the end of sched_switch, on the one entry of sys_schedule. */
    method RecordDelay(delay: u64)
      modifies this`sysSchedule
      ensures sysSchedule == Record(old(sysSchedule), delay)
    {
      if 0 !in sysSchedule {
        var sum := ZERO_SUM;
        sum := sum.(sumCount := AddU64(sum.sumCount, 1));
        sum := sum.(sumDelay := AddU64(sum.sumDelay, delay));
        if delay > sum.maxDelay {
          sum := sum.(maxDelay := delay);
        }
        if sum.minDelay == 0 || delay < sum.minDelay {
          sum := sum.(minDelay := delay);
        }
        // an array-map update of an in-range index always succeeds
        sysSchedule := sysSchedule[0 := sum];
      } else {
        var sum := sysSchedule[0];
        sum := sum.(sumCount := AddU64(sum.sumCount, 1));
        sum := sum.(sumDelay := AddU64(sum.sumDelay, delay));
        if delay > sum.maxDelay {
          sum := sum.(maxDelay := delay);
        }
        if sum.minDelay == 0 || delay < sum.minDelay {
          sum := sum.(minDelay := delay);
        }
        sysSchedule := sysSchedule[0 := sum];
      }
    }

    method SchedProcessExit(pid: int, cpu: int) returns (ret: int)
      modifies this
      ensures ret == 0 && Maps() == Exit(old(Maps()), pid, cpu)
    {
      var id := KeyOf(pid, cpu);
      if id in enterSchedule {
        enterSchedule := Delete(enterSchedule, id);
      }
      if id in hasScheduled {
        hasScheduled := Delete(hasScheduled, id);
      }
      ret := 0;
    }
  }
}
