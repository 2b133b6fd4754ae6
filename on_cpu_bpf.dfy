// The on-CPU sampler: a perf-event program that counts, per pid and stack
// pair, how many timer samples found the task running.
module OnCpuBpf {
  import opened BpfMaps
  import opened SaEbpf

  /** A sample is kept unless it comes from a kernel thread, pid 0 or the collector itself. */
  predicate Accepts(vals: CommonVals, t: Task)
    ensures IsKernelThread(t) || t.pid == 0 || t.pid == ToU32(vals.selfPid) ==> !Accepts(vals, t)
    ensures !IsKernelThread(t) && t.pid != 0 && t.pid != ToU32(vals.selfPid) ==> Accepts(vals, t)
  {
    !IsKernelThread(t) && t.pid != 0 && t.pid != ToU32(vals.selfPid)
  }

  /**
   * The maps after one sample of task `t`, whose user and kernel stack ids
   * would be `usid` and `ksid`: the task info is saved, then the count for
   * the sample's key is incremented in place or created as 1.
   */
  function Sample(s: CommonMaps, cap: nat, vals: CommonVals, t: Task, usid: int, ksid: int): (r: CommonMaps)
    ensures !Accepts(vals, t) ==> r == s
    ensures Accepts(vals, t) ==> r.infos == SaveTaskInfo(s.infos, cap, t.pid, t)
    ensures Accepts(vals, t) ==>
      var k := CountKey(vals, t.pid, usid, ksid);
      && (k in s.counts ==> r.counts == s.counts[k := AddU32(s.counts[k], 1)])
      && (k !in s.counts && |s.counts| < cap ==> r.counts == s.counts[k := 1])
      && (k !in s.counts && |s.counts| >= cap ==> r.counts == s.counts)
  {
    if !Accepts(vals, t) then s
    else
      var k := CountKey(vals, t.pid, usid, ksid);
      var counts := if k in s.counts then s.counts[k := AddU32(s.counts[k], 1)]
                    else Update(s.counts, cap, k, 1, BpfAny).m;
      CommonMaps(counts, SaveTaskInfo(s.infos, cap, t.pid, t))
  }

  /** `n` consecutive samples of the same task and stacks. */
  function Samples(s: CommonMaps, cap: nat, vals: CommonVals, t: Task, usid: int, ksid: int, n: nat): CommonMaps
    decreases n
  {
    if n == 0 then s else Sample(Samples(s, cap, vals, t, usid, ksid, n - 1), cap, vals, t, usid, ksid)
  }

  /** On an empty count map, n accepted samples of one key leave exactly that key with count n (mod 2^32). */
  lemma {:induction false} RepeatedSamples(infos: map<u32, TaskInfo>, cap: nat, vals: CommonVals, t: Task, usid: int, ksid: int, n: nat)
    requires Accepts(vals, t) && cap >= 1 && n >= 1
    ensures Samples(CommonMaps(map[], infos), cap, vals, t, usid, ksid, n).counts
            == map[CountKey(vals, t.pid, usid, ksid) := n % U32_LIMIT]
  {
    var k := CountKey(vals, t.pid, usid, ksid);
    if n > 1 {
      RepeatedSamples(infos, cap, vals, t, usid, ksid, n - 1);
      var before := Samples(CommonMaps(map[], infos), cap, vals, t, usid, ksid, n - 1);
      var m := (n - 1) % U32_LIMIT;
      assert before.counts == map[k := m];
      assert Sample(before, cap, vals, t, usid, ksid).counts == map[k := m][k := AddU32(m, 1)];
      IncrementWraps(n);
      assert map[k := m][k := AddU32(m, 1)] == map[k := n % U32_LIMIT];
    }
  }

  /** Incrementing a count of n - 1 modulo 2^32 gives n modulo 2^32. */
  lemma IncrementWraps(n: nat)
    requires n >= 1
    ensures AddU32((n - 1) % U32_LIMIT, 1) == n % U32_LIMIT
  {
  }

  /** A sample never lets either map grow past the shared capacity. */
  lemma SampleBounded(s: CommonMaps, cap: nat, vals: CommonVals, t: Task, usid: int, ksid: int)
    requires Bounded(s, cap)
    ensures Bounded(Sample(s, cap, vals, t, usid, ksid), cap)
  {
    if Accepts(vals, t) {
      var k := CountKey(vals, t.pid, usid, ksid);
      SaveTaskInfoBounded(s.infos, cap, t.pid, t);
      if k in s.counts {
        assert s.counts[k := AddU32(s.counts[k], 1)].Keys == s.counts.Keys;
      } else {
        UpdateKeepsCapacity(s.counts, cap, k, 1, BpfAny);
      }
    }
  }

  /** The program's maps, in place, and the read-only data it was loaded with. */
  class OnCpuProgram {
    const vals: CommonVals
    const cap: nat
    var counts: map<Psid, u32>
    var infos: map<u32, TaskInfo>

    function Maps(): CommonMaps
      reads this
    {
      CommonMaps(counts, infos)
    }

    constructor (vals: CommonVals, cap: nat)
      ensures this.vals == vals && this.cap == cap
      ensures counts == map[] && infos == map[]
    {
      this.vals := vals;
      this.cap := cap;
      counts := map[];
      infos := map[];
    }

    /** do_stack: one timer sample of the running task. */
    method DoStack(curr: Task, usid: int, ksid: int) returns (ret: int)
      modifies this
      ensures ret == 0
      ensures Maps() == Sample(old(Maps()), cap, vals, curr, usid, ksid)
    {
      ret := 0;
      if curr.flags & PF_KTHREAD != 0 {
        return;
      }
      var pid := curr.pid;
      if pid == 0 || pid == ToU32(vals.selfPid) {
        return;
      }
      if pid !in infos {
        infos := Update(infos, cap, pid, InfoOf(curr), BpfNoExist).m;
      }
      var apsid := CountKey(vals, pid, usid, ksid);
      if apsid in counts {
        counts := counts[apsid := AddU32(counts[apsid], 1)];
      } else {
        counts := Update(counts, cap, apsid, 1, BpfAny).m;
      }
    }
  }
}
