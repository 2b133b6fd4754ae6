// cpu_watcher's preemption tracer: a preempting switch stamps the task
// switched out; when that task's switch completes, one event with the time
// since the stamp goes to the ring buffer and the stamp is removed.
module PreemptBpf {
  import opened BpfMaps

  /** max_entries of preemptTime. */
  const PREEMPT_MAP_CAP: nat := 4096

  datatype PreemptEvent = PreemptEvent(prevPid: int, nextPid: int, duration: u64, comm: string)

  /** preemptTime and the events submitted to the ring buffer so far. */
  datatype PreemptState = PreemptState(preemptTime: map<int, u64>, submitted: seq<PreemptEvent>)

  /** sched_switch: a preempted prev is stamped, overwriting any earlier stamp. */
  function SchedSwitch(s: PreemptState, preempt: bool, prevPid: int, now: u64): (r: PreemptState)
    ensures r.submitted == s.submitted
    ensures !preempt ==> r == s
    ensures preempt && (prevPid in s.preemptTime || |s.preemptTime| < PREEMPT_MAP_CAP) ==>
              r.preemptTime == s.preemptTime[prevPid := now]
    ensures preempt && prevPid !in s.preemptTime && |s.preemptTime| >= PREEMPT_MAP_CAP ==> r == s
  {
    if preempt then s.(preemptTime := Update(s.preemptTime, PREEMPT_MAP_CAP, prevPid, now, BpfAny).m) else s
  }

  /**
   * finish_task_switch for `prevPid`, with `currentTgid` and `comm` the
   * running task's tgid and command name and `reserved` whether the ring
   * buffer had room for one more event.
   */
  function FinishTaskSwitch(s: PreemptState, prevPid: int, now: u64, reserved: bool,
                            currentTgid: int, comm: string): (r: PreemptState)
    ensures prevPid !in s.preemptTime || !reserved ==> r == s
    ensures prevPid in s.preemptTime && reserved ==>
      && r.submitted == s.submitted + [PreemptEvent(prevPid, currentTgid, SubU64(now, s.preemptTime[prevPid]), comm)]
      && r.preemptTime == s.preemptTime - {prevPid}
  {
    if prevPid in s.preemptTime && reserved then
      var e := PreemptEvent(prevPid, currentTgid, SubU64(now, s.preemptTime[prevPid]), comm);
      PreemptState(Delete(s.preemptTime, prevPid), s.submitted + [e])
    else s
  }

  /**
   * A task preempted at `t0` whose switch completes at `t1 >= t0` yields
   * exactly one event with duration t1 - t0 and leaves no stamp behind; a
   * second completion then emits nothing.
   */
  lemma PreemptionPairs(s: PreemptState, pid: int, t0: u64, t1: u64, tgid: int, comm: string)
    requires pid !in s.preemptTime && |s.preemptTime| < PREEMPT_MAP_CAP && t0 <= t1
    ensures
      var done := FinishTaskSwitch(SchedSwitch(s, true, pid, t0), pid, t1, true, tgid, comm);
      && done.submitted == s.submitted + [PreemptEvent(pid, tgid, t1 - t0, comm)]
      && done.preemptTime == s.preemptTime
      && FinishTaskSwitch(done, pid, t1, true, tgid, comm) == done
  {
    var stamped := SchedSwitch(s, true, pid, t0);
    assert stamped.preemptTime == s.preemptTime[pid := t0];
    assert stamped.preemptTime - {pid} == s.preemptTime;
  }

  /** A failed reservation keeps the stamp, so a later completion still reports the whole time. */
  lemma FailedReserveKeepsStamp(s: PreemptState, pid: int, t1: u64, t2: u64, tgid: int, comm: string)
    requires pid in s.preemptTime
    ensures
      var retried := FinishTaskSwitch(FinishTaskSwitch(s, pid, t1, false, tgid, comm), pid, t2, true, tgid, comm);
      retried.submitted == s.submitted + [PreemptEvent(pid, tgid, SubU64(t2, s.preemptTime[pid]), comm)]
  {
  }

  /** The program's map and ring-buffer output, in place. */
  class PreemptProgram {
    var preemptTime: map<int, u64>
    var submitted: seq<PreemptEvent>

    function State(): PreemptState
      reads this
    {
      PreemptState(preemptTime, submitted)
    }

    constructor ()
      ensures State() == PreemptState(map[], [])
    {
      preemptTime, submitted := map[], [];
    }

    method OnSchedSwitch(preempt: bool, prevPid: int, now: u64) returns (ret: int)
      modifies this
      ensures ret == 0 && State() == SchedSwitch(old(State()), preempt, prevPid, now)
    {
      if preempt {
        preemptTime := Update(preemptTime, PREEMPT_MAP_CAP, prevPid, now, BpfAny).m;
      }
      ret := 0;
    }

    method OnFinishTaskSwitch(prevPid: int, now: u64, reserved: bool, currentTgid: int, comm: string) returns (ret: int)
      modifies this
      ensures ret == 0 && State() == FinishTaskSwitch(old(State()), prevPid, now, reserved, currentTgid, comm)
    {
      ret := 0;
      if prevPid in preemptTime {
        var delta := SubU64(now, preemptTime[prevPid]);
        if !reserved {
          return;
        }
        submitted := submitted + [PreemptEvent(prevPid, currentTgid, delta, comm)];
        preemptTime := Delete(preemptTime, prevPid);
      }
    }
  }
}
