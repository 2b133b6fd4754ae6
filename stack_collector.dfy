// The host side of Stack_Analyser's collector framework: the order on count
// items, the sorted count list read from psid_count_map, the report of one
// collection round, the skeleton life cycle behind the load/attach/detach/
// unload interface, and the concrete on-CPU, off-CPU, IO and stack-count
// collectors.
module SaCollector {
  import opened BpfMaps
  import opened Wrappers
  import opened SaEbpf
  import OffCpuBpf
  import ProbeString

  /** The errno value the batch reads of the maps are compared with. */
  const EFAULT: int := 14

  /** What the counts mean.  The NULL strings of the zeroed Scale are empty strings here. */
  datatype Scale = Scale(typeName: string, unit: string, period: int)

  const ZERO_SCALE: Scale := Scale("", "", 0)

  /** A count-map entry with its value as the collector reads it. */
  datatype CountItem = CountItem(k: Psid, v: int)

  /** operator<: by value, ties by pid. */
  predicate Less(a: CountItem, b: CountItem)
    ensures a.v < b.v ==> Less(a, b)
    ensures Less(a, b) ==> a.v <= b.v
    ensures a.v == b.v ==> (Less(a, b) <==> a.k.pid < b.k.pid)
  {
    a.v < b.v || (a.v == b.v && a.k.pid < b.k.pid)
  }

  /** operator< is a strict order whose incomparable items share value and pid. */
  lemma LessIsStrictOrder(a: CountItem, b: CountItem, c: CountItem)
    ensures !Less(a, a)
    ensures Less(a, b) ==> !Less(b, a)
    ensures Less(a, b) && Less(b, c) ==> Less(a, c)
    ensures !Less(a, b) && !Less(b, a) <==> a.v == b.v && a.k.pid == b.k.pid
  {
  }

  /** A list in which no item is less than an earlier one. */
  predicate Sorted(d: seq<CountItem>)
  {
    forall i, j :: 0 <= i < j < |d| ==> !Less(d[j], d[i])
  }

  /** A sorted list ascends by value, and by pid among equal values. */
  lemma SortedAscends(d: seq<CountItem>, i: nat, j: nat)
    requires Sorted(d) && i < j < |d|
    ensures d[i].v <= d[j].v
    ensures d[i].v == d[j].v ==> d[i].k.pid <= d[j].k.pid
  {
  }

  /** std::lower_bound: the first position whose item is not less than `x`. */
  function LowerBound(d: seq<CountItem>, x: CountItem): (i: nat)
    ensures i <= |d|
    ensures forall j :: 0 <= j < i ==> Less(d[j], x)
    ensures i < |d| ==> !Less(d[i], x)
  {
    if |d| == 0 || !Less(d[0], x) then 0 else 1 + LowerBound(d[1..], x)
  }

  /** In a sorted list, no item from the lower bound on is less than `x`. */
  lemma LowerBoundPartitions(d: seq<CountItem>, x: CountItem)
    requires Sorted(d)
    ensures forall j :: LowerBound(d, x) <= j < |d| ==> !Less(d[j], x)
  {
  }

  /** `d` with `x` inserted at its lower bound. */
  function InsertAtLowerBound(d: seq<CountItem>, x: CountItem): (r: seq<CountItem>)
    ensures |r| == |d| + 1
    ensures r[LowerBound(d, x)] == x
    ensures r[..LowerBound(d, x)] == d[..LowerBound(d, x)]
    ensures r[LowerBound(d, x) + 1..] == d[LowerBound(d, x)..]
  {
    var i := LowerBound(d, x);
    d[..i] + [x] + d[i..]
  }

  /** Inserting at the lower bound keeps a list sorted and adds exactly the item. */
  lemma InsertKeepsSorted(d: seq<CountItem>, x: CountItem)
    requires Sorted(d)
    ensures Sorted(InsertAtLowerBound(d, x))
    ensures multiset(InsertAtLowerBound(d, x)) == multiset(d) + multiset{x}
  {
    InsertOrders(d, x);
    var i := LowerBound(d, x);
    assert d == d[..i] + d[i..];
    assert multiset(d) == multiset(d[..i]) + multiset(d[i..]);
  }

  lemma InsertOrders(d: seq<CountItem>, x: CountItem)
    requires Sorted(d)
    ensures Sorted(InsertAtLowerBound(d, x))
  {
    var i := LowerBound(d, x);
    var e := InsertAtLowerBound(d, x);
    LowerBoundPartitions(d, x);
    forall p, q | 0 <= p < q < |e|
      ensures !Less(e[q], e[p])
    {
      if q < i {
        assert e[p] == d[p] && e[q] == d[q];
      } else if q == i {
        assert e[p] == d[p] && e[q] == x;
      } else if p < i {
        assert e[p] == d[p] && e[q] == d[q - 1];
      } else if p == i {
        assert e[p] == x && e[q] == d[q - 1];
      } else {
        assert e[p] == d[p - 1] && e[q] == d[q - 1];
      }
    }
  }

  /** The insertion loop of sortedCountList: the items in sorted order, none lost or added. */
  method SortItems(items: seq<CountItem>) returns (d: seq<CountItem>)
    ensures Sorted(d)
    ensures multiset(d) == multiset(items)
    ensures |d| == |items|
  {
    d := [];
    for i := 0 to |items|
      invariant Sorted(d)
      invariant multiset(d) == multiset(items[..i])
    {
      InsertKeepsSorted(d, items[i]);
      d := InsertAtLowerBound(d, items[i]);
      assert items[..i + 1] == items[..i] + [items[i]];
    }
    assert items[..|items|] == items;
    assert |multiset(d)| == |multiset(items)|;
  }

  /** The statistic an IO collector reports, in the order COUNT, SIZE, AVE of its enum. */
  datatype IoMode = Count | Size | Ave

  function IoModeIndex(m: IoMode): (i: nat)
    ensures i < 3
    ensures m == Count <==> i == 0
    ensures m == Size <==> i == 1
    ensures m == Ave <==> i == 2
  {
    match m
    case Count => 0
    case Size => 1
    case Ave => 2
  }

  const IO_TYPES: seq<string> := ["IOCount", "IOSize", "AverageIOSize"]
  const IO_UNITS: seq<string> := ["counts", "bytes", "bytes"]

  /** IOStackCollector::setScale: the type and unit tables indexed by the mode, period 1. */
  function IoScale(m: IoMode): (s: Scale)
    ensures m == Count ==> s == Scale("IOCount", "counts", 1)
    ensures m == Size ==> s == Scale("IOSize", "bytes", 1)
    ensures m == Ave ==> s == Scale("AverageIOSize", "bytes", 1)
  {
    Scale(IO_TYPES[IoModeIndex(m)], IO_UNITS[IoModeIndex(m)], 1)
  }

  /** The value an IO collector reads from an io_tuple. */
  function IoValue(m: IoMode, size: u64, count: u64): (r: int)
    ensures m == Count ==> r == count
    ensures m == Size ==> r == size
    ensures m == Ave && count > 0 ==> r * count <= size < (r + 1) * count
    ensures m == Ave && count == 0 ==> r == 0
  {
    match m
    case Count => count
    case Size => size
    case Ave => if count == 0 then 0 else size / count
  }

  /** OnCPUStackCollector::setScale: one sample every 1e9/freq nanoseconds. */
  function OnCpuScale(freq: nat): (s: Scale)
    requires freq > 0
    ensures s.typeName == "OnCPUTime" && s.unit == "nanoseconds"
    ensures s.period * freq <= 1_000_000_000 < (s.period + 1) * freq
  {
    Scale("OnCPUTime", "nanoseconds", 1_000_000_000 / freq)
  }

  /** The off-CPU counts are in units of 2^20 nanoseconds. */
  const OFF_CPU_SCALE: Scale := Scale("OffCPUTime", "nanoseconds", 0x10_0000)

  /** The unit of the off-CPU collector is the divisor of its kernel program. */
  lemma OffCpuPeriodIsKernelShift()
    ensures OFF_CPU_SCALE.period == OffCpuBpf.SHIFT_DIVISOR
  {
  }

  /** The stack-count collector's Scale before a probe is set. */
  const PROBE_SCALE: Scale := Scale("StackCounts", "Counts", 1)

  /** StackCountStackCollector::setScale: the probe string prefixed to the current type. */
  function ProbeScale(s: Scale, probe: string): (r: Scale)
    ensures r.typeName == probe + s.typeName && r.unit == s.unit && r.period == s.period
  {
    s.(typeName := probe + s.typeName)
  }

  /** Which collector; a collector's own parameters live here. */
  datatype Kind = OnCpu(freq: nat) | OffCpu | Io(mode: IoMode) | Probe(probe: string)

  /** A count-map value: a 32-bit counter, or the io_tuple of the IO program. */
  datatype CountVal = Word(n: u32) | IoTuple(size: u64, count: u64)

  /** The value layout of the program of each kind. */
  predicate Fits(kind: Kind, cv: CountVal)
  {
    if kind.Io? then cv.IoTuple? else cv.Word?
  }

  /** count_value: the stored u32 unchanged, or the IO statistic of the configured mode. */
  function CountValue(kind: Kind, cv: CountVal): (r: int)
    requires Fits(kind, cv)
    ensures !kind.Io? ==> r == cv.n
    ensures kind.Io? ==> r == IoValue(kind.mode, cv.size, cv.count)
  {
    match kind
    case Io(m) => IoValue(m, cv.size, cv.count)
    case _ => cv.n
  }

  /** `order` lists every key of a map exactly once: what a batch read returns. */
  predicate Enumerates<K>(order: seq<K>, keys: set<K>)
  {
    && (forall i, j :: 0 <= i < j < |order| ==> order[i] != order[j])
    && (forall k :: k in keys ==> k in order)
    && (forall i :: 0 <= i < |order| ==> order[i] in keys)
  }

  /** The items read from the count map in the order the batch returned the keys. */
  function Items(kind: Kind, counts: map<Psid, CountVal>, order: seq<Psid>): (r: seq<CountItem>)
    requires forall i :: 0 <= i < |order| ==> order[i] in counts && Fits(kind, counts[order[i]])
    ensures |r| == |order|
    ensures forall i :: 0 <= i < |order| ==> r[i] == CountItem(order[i], CountValue(kind, counts[order[i]]))
  {
    seq(|order|, i requires 0 <= i < |order| => CountItem(order[i], CountValue(kind, counts[order[i]])))
  }

  /** A list of items of the map holds each key at most once and only keys of the map. */
  lemma ItemsFromMap(kind: Kind, counts: map<Psid, CountVal>, order: seq<Psid>, x: CountItem)
    requires forall i :: 0 <= i < |order| ==> order[i] in counts && Fits(kind, counts[order[i]])
    requires x in multiset(Items(kind, counts, order))
    ensures x.k in counts && x.v == CountValue(kind, counts[x.k])
  {
    var r := Items(kind, counts, order);
    assert x in r;
    var i :| 0 <= i < |r| && r[i] == x;
  }

  /** A stack trace can be printed only if it holds a non-zero slot. */
  predicate HasNonZero(t: seq<u64>)
  {
    exists j :: 0 <= j < |t| && t[j] != 0
  }

  /** The last non-zero slot of a stack trace: the first frame printed. */
  function LastNonZero(t: seq<u64>): (p: nat)
    requires HasNonZero(t)
    ensures p < |t| && t[p] != 0
    ensures forall j :: p < j < |t| ==> t[j] == 0
    decreases |t|
  {
    if t[|t| - 1] != 0 then |t| - 1
    else
      assert HasNonZero(t[..|t| - 1]) by {
        var j :| 0 <= j < |t| && t[j] != 0;
        assert t[..|t| - 1][j] == t[j];
      }
      LastNonZero(t[..|t| - 1])
  }

  /** The frames of a trace in print order: from the last non-zero slot back to slot 0. */
  function TraceFrames(t: seq<u64>): (f: seq<u64>)
    requires HasNonZero(t)
    ensures |f| == LastNonZero(t) + 1
    ensures forall j :: 0 <= j < |f| ==> f[j] == t[|f| - 1 - j]
    ensures f[0] != 0
  {
    var p := LastNonZero(t);
    seq(p + 1, j requires 0 <= j <= p => t[p - j])
  }

  /** The two loops over a trace: skip the trailing zeros, then walk back to slot 0. */
  method ResolveTrace(trace: seq<u64>) returns (frames: seq<u64>)
    requires HasNonZero(trace)
    ensures frames == TraceFrames(trace)
  {
    var p := |trace| - 1;
    while trace[p] == 0
      invariant LastNonZero(trace) <= p < |trace|
      decreases p
    {
      p := p - 1;
    }
    frames := [];
    var q := p;
    while q >= 0
      invariant -1 <= q <= p
      invariant |frames| == p - q
      invariant forall j :: 0 <= j < |frames| ==> frames[j] == trace[p - j]
      decreases q
    {
      frames := frames + [trace[q]];
      q := q - 1;
    }
  }

  /** The stack ids of an item that get a trace line: the positive ones. */
  function OwnSids(x: CountItem): set<int>
  {
    (if x.k.usid > 0 then {x.k.usid} else {}) + (if x.k.ksid > 0 then {x.k.ksid} else {})
  }

  /** The stack ids of a list of items that get a trace line. */
  function Sids(d: seq<CountItem>): set<int>
  {
    if |d| == 0 then {} else Sids(d[..|d| - 1]) + OwnSids(d[|d| - 1])
  }

  predicate Distinct<T(==)>(s: seq<T>)
  {
    forall i, j :: 0 <= i < j < |s| ==> s[i] != s[j]
  }

  /** Every positive stack id of the items has a printable trace. */
  predicate TracesCover(d: seq<CountItem>, traces: map<int, seq<u64>>)
  {
    forall i :: 0 <= i < |d| ==> forall sid :: sid in OwnSids(d[i]) ==> sid in traces && HasNonZero(traces[sid])
  }

  /** Each resolved trace is the frames of its stack id, and each was looked up exactly once. */
  ghost predicate TraceTable(t: map<int, seq<u64>>, resolved: seq<int>, traces: map<int, seq<u64>>)
  {
    && (forall sid :: sid in t ==> sid in traces && HasNonZero(traces[sid]) && t[sid] == TraceFrames(traces[sid]))
    && Distinct(resolved) && (forall sid :: sid in resolved <==> sid in t)
  }

  /** One `traces.find(sid) == traces.end()` test: a positive id not yet resolved is looked up and resolved. */
  method ResolveOnce(sid: int, t: map<int, seq<u64>>, resolved: seq<int>, traces: map<int, seq<u64>>)
    returns (t2: map<int, seq<u64>>, resolved2: seq<int>)
    requires sid > 0 ==> sid in traces && HasNonZero(traces[sid])
    requires TraceTable(t, resolved, traces)
    ensures TraceTable(t2, resolved2, traces)
    ensures t2.Keys == t.Keys + (if sid > 0 then {sid} else {})
    ensures sid in t || sid <= 0 ==> t2 == t && resolved2 == resolved
  {
    t2, resolved2 := t, resolved;
    if sid > 0 && sid !in t {
      var frames := ResolveTrace(traces[sid]);
      t2 := t[sid := frames];
      resolved2 := resolved + [sid];
    }
  }

  /**
   * The loop over the sorted counts of operator std::string: the trace of each
   * positive stack id is looked up and resolved the first time the id is met,
   * and only then; `resolved` lists the lookups in the order they are made.
   */
  method ResolveTraces(d: seq<CountItem>, traces: map<int, seq<u64>>) returns (t: map<int, seq<u64>>, resolved: seq<int>)
    requires TracesCover(d, traces)
    ensures t.Keys == Sids(d)
    ensures forall sid :: sid in t ==> sid in traces && HasNonZero(traces[sid]) && t[sid] == TraceFrames(traces[sid])
    ensures Distinct(resolved) && (forall sid :: sid in resolved <==> sid in t)
  {
    t := map[];
    resolved := [];
    for i := 0 to |d|
      invariant t.Keys == Sids(d[..i])
      invariant TraceTable(t, resolved, traces)
    {
      var id := d[i].k;
      assert id.usid > 0 ==> id.usid in OwnSids(d[i]);
      assert id.ksid > 0 ==> id.ksid in OwnSids(d[i]);
      t, resolved := ResolveOnce(id.usid, t, resolved, traces);
      t, resolved := ResolveOnce(id.ksid, t, resolved, traces);
      assert d[..i + 1][..i] == d[..i];
    }
    assert d[..|d|] == d;
  }

  /** The rows of the info section, in the order the batch returned the pids. */
  function InfoRows(infos: map<u32, TaskInfo>, order: seq<u32>): (r: seq<(u32, TaskInfo)>)
    requires forall i :: 0 <= i < |order| ==> order[i] in infos
    ensures |r| == |order|
    ensures forall i :: 0 <= i < |order| ==> r[i] == (order[i], infos[order[i]])
  {
    seq(|order|, i requires 0 <= i < |order| => (order[i], infos[order[i]]))
  }

  /**
   * What one rendering holds: the Scale header, the sorted count list (None
   * when the count batch failed, which ends the report), the trace of every
   * stack id by id, the info rows (None when the info batch failed), and
   * whether the closing "OK" line was reached.
   */
  datatype Report = Report(
    scale: Scale,
    counts: Option<seq<CountItem>>,
    traces: map<int, seq<u64>>,
    infos: Option<seq<(u32, TaskInfo)>>,
    complete: bool)

  /** The read-only data a skeleton is loaded with; only some programs have a target_pid. */
  datatype Rodata = Rodata(vals: CommonVals, targetPid: Option<int>)

  /** The skeleton pointer: NULL, opened but not loaded, or loaded (and attached or not). */
  datatype Skel = NoSkel | Opened(rodata: Rodata) | Loaded(rodata: Rodata, attached: bool)

  /** The configuration StackProgLoadOpen writes before loading. */
  function LoadRodata(kind: Kind, ustack: bool, kstack: bool, selfPid: int, pid: int): (r: Rodata)
    ensures r.vals == CommonVals(ustack, kstack, selfPid)
    ensures r.targetPid.Some? <==> !kind.OnCpu?
    ensures r.targetPid.Some? ==> r.targetPid.value == pid
  {
    Rodata(CommonVals(ustack, kstack, selfPid), if kind.OnCpu? then None else Some(pid))
  }

  /** Without a target, the off-CPU program loaded by a collector never stamps the collector itself. */
  lemma LoadedProgramSkipsCollector(ustack: bool, kstack: bool, selfPid: int, pid: int)
    requires pid < 0
    ensures var rd := LoadRodata(OffCpu, ustack, kstack, selfPid, pid);
      !OffCpuBpf.Traced(rd.vals, rd.targetPid.value, ToU32(selfPid))
  {
  }

  /** defaultDetach: a loaded skeleton is detached; NULL or a skeleton that never loaded is left alone. */
  function DetachSkel(s: Skel): (r: Skel)
    ensures s.Loaded? ==> r == Loaded(s.rodata, false)
    ensures !s.Loaded? ==> r == s
  {
    match s
    case Loaded(rd, _) => Loaded(rd, false)
    case _ => s
  }

  /** Detaching twice is detaching once. */
  lemma DetachIdempotent(s: Skel)
    ensures DetachSkel(DetachSkel(s)) == DetachSkel(s)
  {
  }

  /** The first CPU at or after `c` whose perf event or link fails, or `n` when every online CPU succeeds. */
  function FirstBadCpu(online: seq<bool>, fds: seq<int>, links: seq<bool>, n: nat, c: nat): (r: nat)
    requires |fds| >= n && |links| >= n && c <= n
    ensures c <= r <= n
    ensures forall j :: c <= j < r && j < |online| && online[j] ==> fds[j] >= 0 && links[j]
    ensures r < n ==> r < |online| && online[r] && (fds[r] < 0 || !links[r])
    decreases n - c
  {
    if c == n then n
    else if c < |online| && online[c] && (fds[c] < 0 || !links[c]) then c
    else FirstBadCpu(online, fds, links, n, c + 1)
  }

  /**
   * The per-CPU loop of OnCPUStackCollector::attach on the buffers it
   * allocates: for each online CPU, in order, the perf event's descriptor
   * (`fds`), then the link (`linkOk`); the first failure returns -1 and leaves
   * the later CPUs at -1 and no link.
   */
  method OpenCpuEvents(online: seq<bool>, fds: seq<int>, linkOk: seq<bool>, n: nat) returns (ret: int, p: seq<int>, l: seq<bool>)
    requires |fds| == n && |linkOk| == n
    ensures var bad := FirstBadCpu(online, fds, linkOk, n, 0);
      && (ret == 0 <==> bad == n) && (ret != 0 ==> ret == -1)
      && |p| == n && |l| == n
      && (forall c :: 0 <= c < n ==> p[c] == (if Online(online, c) && c <= bad && fds[c] >= 0 then fds[c] else -1))
      && (forall c :: 0 <= c < n ==> l[c] == (Online(online, c) && c <= bad && fds[c] >= 0 && linkOk[c]))
  {
    p := seq(n, _ => -1);
    l := seq(n, _ => false);
    ghost var bad := FirstBadCpu(online, fds, linkOk, n, 0);
    for cpu := 0 to n
      invariant cpu <= bad
      invariant |p| == n && |l| == n
      invariant forall c :: 0 <= c < n ==> p[c] == (if Online(online, c) && c < cpu && fds[c] >= 0 then fds[c] else -1)
      invariant forall c :: 0 <= c < n ==> l[c] == (Online(online, c) && c < cpu && fds[c] >= 0 && linkOk[c])
    {
      if cpu >= |online| || !online[cpu] {
        continue;
      }
      var pefd := fds[cpu];
      if pefd < 0 {
        return -1, p, l;
      }
      p := p[cpu := pefd];
      l := l[cpu := linkOk[cpu]];
      if !linkOk[cpu] {
        return -1, p, l;
      }
    }
    return 0, p, l;
  }

  /** A CPU the online mask lists. */
  predicate Online(online: seq<bool>, c: nat)
  {
    c < |online| && online[c]
  }

  /** The descriptors a detach closes: the non-negative ones, in CPU order. */
  function OpenFds(fds: seq<int>): (r: seq<int>)
    ensures forall i :: 0 <= i < |r| ==> r[i] >= 0
    ensures |r| <= |fds|
    ensures forall x :: x in r <==> x in fds && x >= 0
    ensures (forall i :: 0 <= i < |fds| ==> fds[i] >= 0) ==> r == fds
    ensures (forall i :: 0 <= i < |fds| ==> fds[i] < 0) ==> r == []
  {
    if |fds| == 0 then []
    else OpenFds(fds[..|fds| - 1]) + (if fds[|fds| - 1] >= 0 then [fds[|fds| - 1]] else [])
  }

  /**
   * One collector.  The count, info and trace maps of its loaded program are
   * the fields `counts`, `infos` and `traces`; the kernel programs change
   * them between the calls modelled here.  `objSet` says whether `obj`
   * points at a loaded object.  `numCpus`, `pefds` and `links` belong to the
   * on-CPU collector.
   */
  class StackCollector {
    var kind: Kind
    const selfPid: int
    var objSet: bool
    var showDelta: bool
    var scale: Scale
    var pid: int
    var err: int
    var ustack: bool
    var kstack: bool
    var skel: Skel
    var numCpus: int
    var pefds: Option<seq<int>>
    var links: Option<seq<bool>>
    var counts: map<Psid, CountVal>
    var infos: map<u32, TaskInfo>
    var traces: map<int, seq<u64>>

    /** The StackCollector defaults; `self` is the process id getpid returns. */
    predicate HasDefaults(self: int)
      reads this
    {
      && selfPid == self && !objSet && showDelta && pid == -1 && err == 0
      && skel == NoSkel && pefds.None? && links.None?
      && counts == map[] && infos == map[] && traces == map[]
    }

    /** OnCPUStackCollector(): the defaults, then setScale with the initial frequency. */
    constructor OnCpuCollector(self: int, freq: nat)
      requires freq > 0
      ensures HasDefaults(self) && kind == OnCpu(freq) && scale == OnCpuScale(freq)
      ensures !ustack && !kstack
    {
      kind := OnCpu(freq);
      selfPid := self;
      objSet := false;
      showDelta := true;
      scale := OnCpuScale(freq);
      pid := -1;
      err := 0;
      ustack := false;
      kstack := false;
      skel := NoSkel;
      numCpus := 0;
      pefds := None;
      links := None;
      counts := map[];
      infos := map[];
      traces := map[];
    }

    /** OffCPUStackCollector(): the defaults with the 2^20 ns unit. */
    constructor OffCpuCollector(self: int)
      ensures HasDefaults(self) && kind == OffCpu && scale == OFF_CPU_SCALE
      ensures !ustack && !kstack
    {
      kind := OffCpu;
      selfPid := self;
      objSet := false;
      showDelta := true;
      scale := OFF_CPU_SCALE;
      pid := -1;
      err := 0;
      ustack := false;
      kstack := false;
      skel := NoSkel;
      numCpus := 0;
      pefds := None;
      links := None;
      counts := map[];
      infos := map[];
      traces := map[];
    }

    /** IOStackCollector(): user stacks on, kernel stacks off, mode COUNT. */
    constructor IoCollector(self: int)
      ensures HasDefaults(self) && kind == Io(Count) && scale == IoScale(Count)
      ensures ustack && !kstack
    {
      kind := Io(Count);
      selfPid := self;
      objSet := false;
      showDelta := true;
      scale := IoScale(Count);
      pid := -1;
      err := 0;
      ustack := true;
      kstack := false;
      skel := NoSkel;
      numCpus := 0;
      pefds := None;
      links := None;
      counts := map[];
      infos := map[];
      traces := map[];
    }

    /** StackCountStackCollector(): no probe yet, Scale "StackCounts" in "Counts" with period 1. */
    constructor ProbeCollector(self: int)
      ensures HasDefaults(self) && kind == Probe("") && scale == PROBE_SCALE
      ensures !ustack && !kstack
    {
      kind := Probe("");
      selfPid := self;
      objSet := false;
      showDelta := true;
      scale := PROBE_SCALE;
      pid := -1;
      err := 0;
      ustack := false;
      kstack := false;
      skel := NoSkel;
      numCpus := 0;
      pefds := None;
      links := None;
      counts := map[];
      infos := map[];
      traces := map[];
    }

    /** The -M option of an IO collector. */
    method SetIoScale(m: IoMode)
      requires kind.Io?
      modifies this`kind, this`scale
      ensures kind == Io(m) && scale == IoScale(m)
    {
      kind := Io(m);
      scale := IoScale(m);
    }

    /** The -f option of an on-CPU collector. */
    method SetOnCpuScale(freq: nat)
      requires kind.OnCpu? && freq > 0
      modifies this`kind, this`scale
      ensures kind == OnCpu(freq) && scale == OnCpuScale(freq)
    {
      kind := OnCpu(freq);
      scale := OnCpuScale(freq);
    }

    /** The -b option of a stack-count collector. */
    method SetProbeScale(p: string)
      requires kind.Probe?
      modifies this`kind, this`scale
      ensures kind == Probe(p) && scale == ProbeScale(old(scale), p)
    {
      kind := Probe(p);
      scale := ProbeScale(scale, p);
    }

    /**
     * load through StackProgLoadOpen: open the skeleton (`openOk` says whether
     * it opened), write the configuration, load it (`loadErr` is what the
     * loader returns) and remember the object.  Any failure returns -1.
     */
    method Load(openOk: bool, loadErr: int) returns (ret: int)
      modifies this`skel, this`err, this`objSet
      ensures ret == 0 <==> openOk && loadErr == 0
      ensures ret != 0 ==> ret == -1
      ensures !openOk ==> skel == NoSkel && err == old(err) && objSet == old(objSet)
      ensures openOk ==> err == loadErr
      ensures openOk && loadErr != 0 ==> skel == Opened(LoadRodata(kind, ustack, kstack, selfPid, pid)) && objSet == old(objSet)
      ensures ret == 0 ==> skel == Loaded(LoadRodata(kind, ustack, kstack, selfPid, pid), false) && objSet
    {
      if !openOk {
        skel := NoSkel;
        return -1;
      }
      var rodata := LoadRodata(kind, ustack, kstack, selfPid, pid);
      skel := Opened(rodata);
      err := loadErr;
      if err != 0 {
        return -1;
      }
      skel := Loaded(rodata, false);
      objSet := true;
      return 0;
    }

    /** defaultAttach, used by the IO collector: `attachErr` is what the skeleton's attach returns. */
    method DefaultAttach(attachErr: int) returns (ret: int)
      requires kind.Io? && skel.Loaded?
      modifies this`skel, this`err
      ensures err == attachErr
      ensures ret == 0 <==> attachErr == 0
      ensures ret != 0 ==> ret == -1
      ensures skel == Loaded(old(skel).rodata, attachErr == 0)
    {
      err := attachErr;
      if err != 0 {
        skel := Loaded(skel.rodata, false);
        return -1;
      }
      skel := Loaded(skel.rodata, true);
      return 0;
    }

    /**
     * OffCPUStackCollector::attach: -1 when finish_task_switch is not among the
     * kernel symbols; otherwise the kprobe is attached (the link may be NULL)
     * and the result is 0 either way.
     */
    method OffCpuAttach(symbolFound: bool, linkOk: bool) returns (ret: int)
      requires kind.OffCpu? && skel.Loaded?
      modifies this`skel
      ensures ret == (if symbolFound then 0 else -1)
      ensures skel == (if symbolFound then Loaded(old(skel).rodata, linkOk) else old(skel))
    {
      if !symbolFound {
        return -1;
      }
      skel := Loaded(skel.rodata, linkOk);
      return 0;
    }

    /**
     * StackCountStackCollector::attach: the probe string's fields choose the
     * hook; a kprobe, tracepoint or uprobe whose link fails returns -1, a USDT
     * probe returns 0 unattached, and any other shape prefixes the probe to
     * the type again and returns 0.
     */
    method ProbeAttach(linkOk: bool) returns (ret: int, target: ProbeString.ProbeTarget)
      requires kind.Probe? && skel.Loaded?
      modifies this`skel, this`scale
      ensures target == ProbeString.TargetOf(kind.probe)
      ensures target.Kprobe? || target.Tracepoint? || target.Uprobe? ==>
        && skel == Loaded(old(skel).rodata, linkOk) && (ret == if linkOk then 0 else -1) && scale == old(scale)
      ensures target.Usdt? ==> ret == 0 && skel == old(skel) && scale == old(scale)
      ensures target.Unsupported? ==> ret == 0 && skel == old(skel) && scale == ProbeScale(old(scale), kind.probe)
    {
      var strList := ProbeString.SplitString(kind.probe, ':', []);
      ProbeString.SplitFieldCount(kind.probe);
      ProbeString.ThreeFieldsJoin(strList);
      target := ProbeString.Classify(kind.probe, strList);
      match target
      case Kprobe(_) =>
        skel := Loaded(skel.rodata, linkOk);
        ret := if linkOk then 0 else -1;
      case Tracepoint(_, _) =>
        skel := Loaded(skel.rodata, linkOk);
        ret := if linkOk then 0 else -1;
      case Uprobe(_, _) =>
        skel := Loaded(skel.rodata, linkOk);
        ret := if linkOk then 0 else -1;
      case Usdt =>
        ret := 0;
      case Unsupported =>
        scale := ProbeScale(scale, kind.probe);
        ret := 0;
    }

    /**
     * OnCPUStackCollector::attach.  `maskErr` is what reading the online mask
     * returns, `online` the mask (its length is the number of online CPUs),
     * `possible` the number of possible CPUs, and `fds[c]`/`linkOk[c]` what
     * perf_event_open and the attach return on CPU `c`.  Every slot starts at
     * -1 and unlinked; offline CPUs are skipped; the first failing online CPU
     * ends the loop with -1.
     */
    method OnCpuAttach(maskErr: int, online: seq<bool>, possible: int, fds: seq<int>, linkOk: seq<bool>) returns (ret: int)
      requires kind.OnCpu? && skel.Loaded? && pefds.None? && links.None?
      requires possible > 0 ==> |fds| == possible && |linkOk| == possible
      modifies this`err, this`numCpus, this`pefds, this`links
      ensures err == maskErr
      ensures maskErr != 0 ==> ret == -1 && numCpus == old(numCpus) && pefds.None? && links.None?
      ensures maskErr == 0 ==> numCpus == possible
      ensures maskErr == 0 && possible <= 0 ==> ret == -1 && pefds.None? && links.None?
      ensures maskErr == 0 && possible > 0 ==>
        var bad := FirstBadCpu(online, fds, linkOk, possible, 0);
        && (ret == 0 <==> bad == possible) && (ret != 0 ==> ret == -1)
        && pefds.Some? && |pefds.value| == possible && links.Some? && |links.value| == possible
        && (forall c :: 0 <= c < possible ==>
              pefds.value[c] == (if Online(online, c) && c <= bad && fds[c] >= 0 then fds[c] else -1))
        && (forall c :: 0 <= c < possible ==>
              links.value[c] == (Online(online, c) && c <= bad && fds[c] >= 0 && linkOk[c]))
    {
      err := maskErr;
      if err != 0 {
        return -1;
      }
      numCpus := possible;
      if numCpus <= 0 {
        return -1;
      }
      var p, l;
      ret, p, l := OpenCpuEvents(online, fds, linkOk, numCpus);
      pefds, links := Some(p), Some(l);
    }

    /**
     * OnCPUStackCollector::detach: destroy the links, close the descriptors
     * that are not -1 (returned in CPU order) and drop both buffers, so a
     * second detach closes nothing.
     */
    method OnCpuDetach() returns (closed: seq<int>)
      requires kind.OnCpu?
      requires pefds.Some? ==> |pefds.value| == numCpus
      modifies this`pefds, this`links
      ensures closed == (if old(pefds).Some? then OpenFds(old(pefds).value) else [])
      ensures pefds.None? && links.None?
    {
      closed := [];
      links := None;
      if pefds.Some? {
        var fds := pefds.value;
        for i := 0 to numCpus
          invariant closed == OpenFds(fds[..i])
        {
          if fds[i] >= 0 {
            closed := closed + [fds[i]];
          }
          assert fds[..i + 1][..i] == fds[..i];
        }
        assert fds[..numCpus] == fds;
        pefds := None;
      }
    }

    /** defaultDetach, used by every collector but the on-CPU one. */
    method DefaultDetach()
      requires !kind.OnCpu?
      modifies this`skel
      ensures skel == DetachSkel(old(skel))
    {
      if skel != NoSkel {
        skel := DetachSkel(skel);
      }
    }

    /** defaultUnload: destroy a skeleton if there is one and forget it; `obj` is left as it was. */
    method Unload() returns (destroyed: bool)
      modifies this`skel
      ensures destroyed == (old(skel) != NoSkel)
      ensures skel == NoSkel
    {
      destroyed := skel != NoSkel;
      skel := NoSkel;
    }

    /** The count map holds values of the collector's layout, and every printed stack id has a trace. */
    predicate Readable()
      reads this
    {
      && (forall k :: k in counts ==> Fits(kind, counts[k]))
      && (forall k :: k in counts && k.usid > 0 ==> k.usid in traces && HasNonZero(traces[k.usid]))
      && (forall k :: k in counts && k.ksid > 0 ==> k.ksid in traces && HasNonZero(traces[k.ksid]))
    }

    /**
     * sortedCountList: one batch read of the count map (`order` is the order
     * the keys come back in, `batchErr` what the call returns) with delete-on-
     * read when showDelta is set, then the insertion loop.  EFAULT gives NULL.
     */
    method SortedCountList(order: seq<Psid>, batchErr: int) returns (d: Option<seq<CountItem>>)
      requires objSet && Readable()
      requires Enumerates(order, counts.Keys)
      modifies this`counts
      ensures counts == if showDelta then map[] else old(counts)
      ensures d.None? <==> batchErr == EFAULT
      ensures d.Some? ==> Sorted(d.value) && multiset(d.value) == multiset(Items(kind, old(counts), order))
      ensures d.Some? ==> |d.value| == |order|
      ensures d.Some? ==> forall x :: x in d.value ==> x.k in old(counts) && x.v == CountValue(kind, old(counts)[x.k])
    {
      var items := Items(kind, counts, order);
      if showDelta {
        counts := map[];
      }
      if batchErr == EFAULT {
        return None;
      }
      var sorted := SortItems(items);
      forall x | x in sorted
        ensures x.k in old(counts) && x.v == CountValue(kind, old(counts)[x.k])
      {
        assert x in multiset(sorted);
        ItemsFromMap(kind, old(counts), order, x);
      }
      d := Some(sorted);
    }

    /**
     * operator std::string: the Scale header, the sorted counts, the trace of
     * every positive stack id resolved once (`resolved` lists the lookups in
     * the order they are made), then the info rows of one batch read of
     * pid_info_map with delete-on-read when showDelta is set.  A failing
     * count batch ends the report after the header, a failing info batch
     * ends it before "OK".
     */
    method Render(order: seq<Psid>, batchErr: int, infoOrder: seq<u32>, infoErr: int)
      returns (r: Report, resolved: seq<int>)
      requires objSet && Readable()
      requires Enumerates(order, counts.Keys) && Enumerates(infoOrder, infos.Keys)
      modifies this`counts, this`infos
      ensures r.scale == scale
      ensures counts == if showDelta then map[] else old(counts)
      ensures r.counts.None? <==> batchErr == EFAULT
      ensures r.counts.None? ==> r.traces == map[] && r.infos.None? && !r.complete && infos == old(infos) && resolved == []
      ensures r.counts.Some? ==>
        && Sorted(r.counts.value) && multiset(r.counts.value) == multiset(Items(kind, old(counts), order))
        && r.traces.Keys == Sids(r.counts.value)
        && (forall sid :: sid in r.traces ==> sid in traces && HasNonZero(traces[sid]) && r.traces[sid] == TraceFrames(traces[sid]))
        && (r.infos.None? <==> infoErr == EFAULT) && r.complete == r.infos.Some?
        && (r.infos.Some? ==> r.infos.value == InfoRows(old(infos), infoOrder))
        && infos == if showDelta then map[] else old(infos)
      ensures Distinct(resolved) && (forall sid :: sid in resolved <==> sid in r.traces)
    {
      var d := SortedCountList(order, batchErr);
      resolved := [];
      if d.None? {
        return Report(scale, None, map[], None, false), resolved;
      }
      forall i | 0 <= i < |d.value|
        ensures forall sid :: sid in OwnSids(d.value[i]) ==> sid in traces && HasNonZero(traces[sid])
      {
        assert d.value[i] in d.value;
      }
      var t;
      t, resolved := ResolveTraces(d.value, traces);
      var rows := InfoRows(infos, infoOrder);
      if showDelta {
        infos := map[];
      }
      if infoErr == EFAULT {
        return Report(scale, d, t, None, false), resolved;
      }
      r := Report(scale, d, t, Some(rows), true);
    }
  }
}
