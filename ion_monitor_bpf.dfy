// ion_monitor: the time from an ion allocation to the process's next ion
// ioctl is counted in one of six 10 ms buckets, the last one open-ended.
module IonMonitorBpf {
  import opened BpfMaps

  const INTERVAL_MAX: nat := 6
  /** The bucket width, 10 ms in nanoseconds. */
  const BUCKET_NS: nat := 10_000_000
  /** max_entries of both maps. */
  const ION_MAP_CAP: nat := 8192

  datatype IonMaps = IonMaps(countMap: map<u32, u64>, timeMap: map<u32, u64>)

  /**
   * The bucket of an elapsed time: the quotient is converted to a 32-bit
   * unsigned key before it is clamped to the last bucket.
   */
  function Bucket(elapsed: u64): (key: u32)
    ensures key <= INTERVAL_MAX - 1
    ensures elapsed / BUCKET_NS < INTERVAL_MAX - 1 ==> key == elapsed / BUCKET_NS
    ensures INTERVAL_MAX - 1 <= elapsed / BUCKET_NS < U32_LIMIT ==> key == INTERVAL_MAX - 1
  {
    var key := ToU32(elapsed / BUCKET_NS);
    if key > INTERVAL_MAX - 1 then INTERVAL_MAX - 1 else key
  }

  /** Up to 2^32 buckets' worth, a longer wait never lands in an earlier bucket. */
  lemma BucketMonotone(e1: u64, e2: u64)
    requires e1 <= e2 && e2 / BUCKET_NS < U32_LIMIT
    ensures Bucket(e1) <= Bucket(e2)
  {
  }

  /** The 32-bit conversion comes before the clamp: a wait of 2^32 buckets is counted in bucket 0. */
  lemma TruncatedWaitLandsInFirstBucket()
    ensures Bucket(U32_LIMIT * BUCKET_NS) == 0
  {
  }

  /** bpf_prog1: process `tgid` entered ion_alloc at `now`, overwriting an earlier stamp. */
  function Prog1(s: IonMaps, tgid: u32, now: u64): (r: IonMaps)
    ensures r.countMap == s.countMap
    ensures tgid in s.timeMap || |s.timeMap| < ION_MAP_CAP ==> r.timeMap == s.timeMap[tgid := now]
    ensures tgid !in s.timeMap && |s.timeMap| >= ION_MAP_CAP ==> r.timeMap == s.timeMap
  {
    s.(timeMap := Update(s.timeMap, ION_MAP_CAP, tgid, now, BpfAny).m)
  }

  /** bpf_prog2: process `tgid` entered ion_ioctl at `now`; -1 when it has no stamp. */
  function Prog2(s: IonMaps, tgid: u32, now: u64): (r: (IonMaps, int))
    ensures tgid !in s.timeMap ==> r == (s, -1)
    ensures tgid in s.timeMap ==>
      var key := Bucket(SubU64(now, s.timeMap[tgid]));
      && r.1 == 0
      && r.0.timeMap == s.timeMap - {tgid}
      && (key in s.countMap ==> r.0.countMap == s.countMap[key := AddU64(s.countMap[key], 1)])
      && (key !in s.countMap && |s.countMap| < ION_MAP_CAP ==> r.0.countMap == s.countMap[key := 1])
      && (key !in s.countMap && |s.countMap| >= ION_MAP_CAP ==> r.0.countMap == s.countMap)
  {
    if tgid !in s.timeMap then (s, -1)
    else
      var key := Bucket(SubU64(now, s.timeMap[tgid]));
      var counts := if key in s.countMap then s.countMap[key := AddU64(s.countMap[key], 1)]
                    else Update(s.countMap, ION_MAP_CAP, key, 1, BpfAny).m;
      (IonMaps(counts, Delete(s.timeMap, tgid)), 0)
  }

  /** Every key of count_map is one of the six buckets. */
  predicate BucketsOnly(s: IonMaps)
  {
    forall k :: k in s.countMap ==> k < INTERVAL_MAX
  }

  /** Both programs keep count_map's keys among the six buckets. */
  lemma ProgramsKeepBuckets(s: IonMaps, tgid: u32, now: u64)
    requires BucketsOnly(s)
    ensures BucketsOnly(Prog1(s, tgid, now))
    ensures BucketsOnly(Prog2(s, tgid, now).0)
  {
    if tgid in s.timeMap {
      var key := Bucket(SubU64(now, s.timeMap[tgid]));
      assert key < INTERVAL_MAX;
      var r := Prog2(s, tgid, now).0;
      assert forall k :: k in r.countMap ==> k in s.countMap || k == key;
    }
  }

  /** The two maps of the program, in place. */
  class IonMonitorProgram {
    var countMap: map<u32, u64>
    var timeMap: map<u32, u64>

    function Maps(): IonMaps
      reads this
    {
      IonMaps(countMap, timeMap)
    }

    constructor ()
      ensures Maps() == IonMaps(map[], map[])
    {
      countMap, timeMap := map[], map[];
    }

    method BpfProg1(tgid: u32, now: u64) returns (ret: int)
      modifies this
      ensures ret == 0 && Maps() == Prog1(old(Maps()), tgid, now)
    {
      timeMap := Update(timeMap, ION_MAP_CAP, tgid, now, BpfAny).m;
      ret := 0;
    }

    method BpfProg2(tgid: u32, now: u64) returns (ret: int)
      modifies this
      ensures (Maps(), ret) == Prog2(old(Maps()), tgid, now)
    {
      var tm := now;
      if tgid in timeMap {
        tm := SubU64(tm, timeMap[tgid]);
      } else {
        return -1;
      }
      var key := ToU32(tm / BUCKET_NS);
      if key > INTERVAL_MAX - 1 {
        key := INTERVAL_MAX - 1;
      }
      if key in countMap {
        countMap := countMap[key := AddU64(countMap[key], 1)];
      } else {
        countMap := Update(countMap, ION_MAP_CAP, key, 1, BpfAny).m;
      }
      timeMap := Delete(timeMap, tgid);
      ret := 0;
    }
  }
}
