// The probe counter: the same handler behind a kprobe/uprobe entry and a
// tracepoint entry counts, per pid and stack pair, how often the probed
// function or event was hit.
module ProbeBpf {
  import opened BpfMaps
  import opened SaEbpf
  import OnCpuBpf

  /** handle_func drops kernel threads, pids other than a non-negative target, pid 0 and the collector. */
  predicate Accepts(vals: CommonVals, targetPid: int, t: Task)
    ensures Accepts(vals, targetPid, t) ==> !IsKernelThread(t) && t.nsPid != 0 && t.nsPid != ToU32(vals.selfPid)
    ensures Accepts(vals, targetPid, t) && targetPid >= 0 ==> t.nsPid == ToU32(targetPid)
    ensures targetPid < 0 && !IsKernelThread(t) && t.nsPid != 0 && t.nsPid != ToU32(vals.selfPid) ==> Accepts(vals, targetPid, t)
  {
    !IsKernelThread(t) && !(targetPid >= 0 && t.nsPid != ToU32(targetPid)) && t.nsPid != 0 && t.nsPid != ToU32(vals.selfPid)
  }

  /** The maps after one hit by task `t`, keyed by the task's namespace pid. */
  function Hit(s: CommonMaps, cap: nat, vals: CommonVals, targetPid: int, t: Task, usid: int, ksid: int): (r: CommonMaps)
    ensures !Accepts(vals, targetPid, t) ==> r == s
    ensures Accepts(vals, targetPid, t) ==> r.infos == SaveTaskInfo(s.infos, cap, t.nsPid, t)
    ensures Accepts(vals, targetPid, t) ==>
      var k := CountKey(vals, t.nsPid, usid, ksid);
      && (k in s.counts ==> r.counts == s.counts[k := AddU32(s.counts[k], 1)])
      && (k !in s.counts && |s.counts| < cap ==> r.counts == s.counts[k := 1])
      && (k !in s.counts && |s.counts| >= cap ==> r.counts == s.counts)
  {
    if !Accepts(vals, targetPid, t) then s
    else
      var k := CountKey(vals, t.nsPid, usid, ksid);
      var counts := if k !in s.counts then Update(s.counts, cap, k, 1, BpfNoExist).m
                    else s.counts[k := AddU32(s.counts[k], 1)];
      CommonMaps(counts, SaveTaskInfo(s.infos, cap, t.nsPid, t))
  }

  /**
   * With no target pid the probe counter and the on-CPU sampler make the
   * same transition for a task whose level-0 and namespace pids agree: the
   * BPF_NOEXIST insert here and the BPF_ANY insert there coincide.
   */
  lemma SameCountingAsOnCpu(s: CommonMaps, cap: nat, vals: CommonVals, t: Task, usid: int, ksid: int)
    requires t.pid == t.nsPid
    ensures Hit(s, cap, vals, -1, t, usid, ksid) == OnCpuBpf.Sample(s, cap, vals, t, usid, ksid)
  {
    var k := CountKey(vals, t.nsPid, usid, ksid);
    if OnCpuBpf.Accepts(vals, t) && k !in s.counts {
      InsertFlagsAgree(s.counts, cap, k, 1);
    }
  }

  /** The program's maps, in place, and the read-only data it was loaded with. */
  class ProbeProgram {
    const vals: CommonVals
    const targetPid: int
    const cap: nat
    var counts: map<Psid, u32>
    var infos: map<u32, TaskInfo>

    function Maps(): CommonMaps
      reads this
    {
      CommonMaps(counts, infos)
    }

    constructor (vals: CommonVals, targetPid: int, cap: nat)
      ensures this.vals == vals && this.targetPid == targetPid && this.cap == cap
      ensures counts == map[] && infos == map[]
    {
      this.vals := vals;
      this.targetPid := targetPid;
      this.cap := cap;
      counts, infos := map[], map[];
    }

    /** handle_func: the shared body of both entry points. */
    method HandleFunc(curr: Task, usid: int, ksid: int) returns (ret: int)
      modifies this
      ensures ret == 0
      ensures Maps() == Hit(old(Maps()), cap, vals, targetPid, curr, usid, ksid)
    {
      ret := 0;
      if curr.flags & PF_KTHREAD != 0 {
        return;
      }
      var pid := curr.nsPid;
      if (targetPid >= 0 && pid != ToU32(targetPid)) || pid == 0 || pid == ToU32(vals.selfPid) {
        return;
      }
      if pid !in infos {
        infos := Update(infos, cap, pid, InfoOf(curr), BpfNoExist).m;
      }
      var apsid := CountKey(vals, pid, usid, ksid);
      if apsid !in counts {
        counts := Update(counts, cap, apsid, 1, BpfNoExist).m;
      } else {
        counts := counts[apsid := AddU32(counts[apsid], 1)];
      }
    }

    /** handle: the kprobe/uprobe entry point. */
    method Handle(curr: Task, usid: int, ksid: int) returns (ret: int)
      modifies this
      ensures ret == 0
      ensures Maps() == Hit(old(Maps()), cap, vals, targetPid, curr, usid, ksid)
    {
      var _ := HandleFunc(curr, usid, ksid);
      ret := 0;
    }

    /** handle_tp: the tracepoint entry point, with the same effect as `Handle`. */
    method HandleTp(curr: Task, usid: int, ksid: int) returns (ret: int)
      modifies this
      ensures ret == 0
      ensures Maps() == Hit(old(Maps()), cap, vals, targetPid, curr, usid, ksid)
    {
      var _ := HandleFunc(curr, usid, ksid);
      ret := 0;
    }
  }
}
