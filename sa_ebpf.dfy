// The macros shared by the Stack_Analyser kernel programs: the kernel-thread
// filter, the count key, the per-pid task-info record and the read-only
// configuration every program carries.
module SaEbpf {
  import opened BpfMaps

  /** Task flag bit of kernel threads. */
  const PF_KTHREAD: bv32 := 0x0020_0000

  /**
   * What a probe can read about a task: its flags, its level-0 pid, its pid
   * and tgid in its own pid namespace, the name of the running command and
   * the container id.  Reading them is left to the kernel; here they are data.
   */
  datatype Task = Task(flags: bv32, pid: u32, nsPid: u32, nsTgid: u32, comm: string, cid: string)

  /** The value type of pid_info_map. */
  datatype TaskInfo = TaskInfo(pid: u32, tgid: u32, comm: string, cid: string)

  /** The key of psid_count_map: a pid and its user and kernel stack ids. */
  datatype Psid = Psid(pid: u32, usid: int, ksid: int)

  /** The read-only data every program is loaded with. */
  datatype CommonVals = CommonVals(traceUser: bool, traceKernel: bool, selfPid: int)

  /** psid_count_map and pid_info_map, with u32 counts. */
  datatype CommonMaps = CommonMaps(counts: map<Psid, u32>, infos: map<u32, TaskInfo>)

  /** Neither map holds more keys than the capacity all common maps share. */
  predicate Bounded(s: CommonMaps, cap: nat)
  {
    |s.counts| <= cap && |s.infos| <= cap
  }

  /** The values a program starts with until the host overwrites them. */
  function DefaultVals(): (v: CommonVals)
    ensures !v.traceUser && !v.traceKernel && v.selfPid == 0
  {
    CommonVals(false, false, 0)
  }

  /** The test behind the early return for kernel threads: bit 21 of the task flags. */
  predicate IsKernelThread(t: Task)
    ensures IsKernelThread(t) <==> (t.flags >> 21) & 1 == 1
  {
    t.flags & PF_KTHREAD != 0
  }

  /** The record saved for a task: namespace pid and tgid, command and container. */
  function InfoOf(t: Task): (r: TaskInfo)
    ensures r.pid == t.nsPid && r.tgid == t.nsTgid
    ensures r.comm == t.comm && r.cid == t.cid
  {
    TaskInfo(t.nsPid, t.nsTgid, t.comm, t.cid)
  }

  /** pid_info_map after saving the info of `t` under `pid` (insert only if absent). */
  function SaveTaskInfo(infos: map<u32, TaskInfo>, cap: nat, pid: u32, t: Task): (r: map<u32, TaskInfo>)
    ensures pid in infos ==> r == infos
    ensures pid !in infos && |infos| < cap ==> r == infos[pid := InfoOf(t)]
    ensures pid !in infos && |infos| >= cap ==> r == infos
  {
    if pid !in infos then Update(infos, cap, pid, InfoOf(t), BpfNoExist).m else infos
  }

  /**
   * The count key of a sample: the stack ids the kernel returned for the
   * sample, each replaced by -1 when that kind of stack is not traced.
   */
  function CountKey(vals: CommonVals, pid: u32, userStackId: int, kernelStackId: int): (k: Psid)
    ensures k.pid == pid
    ensures k.usid == if vals.traceUser then userStackId else -1
    ensures k.ksid == if vals.traceKernel then kernelStackId else -1
  {
    Psid(pid, if vals.traceUser then userStackId else -1, if vals.traceKernel then kernelStackId else -1)
  }

  /** With user stacks off, samples of one pid that differ only in their user stack share a key. */
  lemma UntracedStacksMerge(vals: CommonVals, pid: u32, u1: int, u2: int, k: int)
    requires !vals.traceUser
    ensures CountKey(vals, pid, u1, k) == CountKey(vals, pid, u2, k)
    ensures CountKey(vals, pid, u1, k).usid == -1
  {
  }

  /** With both stacks traced, distinct stack pairs of one pid never share a key. */
  lemma TracedStacksSeparate(vals: CommonVals, pid: u32, u1: int, k1: int, u2: int, k2: int)
    requires vals.traceUser && vals.traceKernel
    requires (u1, k1) != (u2, k2)
    ensures CountKey(vals, pid, u1, k1) != CountKey(vals, pid, u2, k2)
  {
  }

  /** Saving task info keeps pid_info_map within its capacity. */
  lemma SaveTaskInfoBounded(infos: map<u32, TaskInfo>, cap: nat, pid: u32, t: Task)
    requires |infos| <= cap
    ensures |SaveTaskInfo(infos, cap, pid, t)| <= cap
  {
    if pid !in infos {
      UpdateKeepsCapacity(infos, cap, pid, InfoOf(t), BpfNoExist);
    }
  }
}
