// The Stack_Analyser driver: the collector registry built from the command
// line, the load loop that drops collectors whose load fails, and the
// sampling loop that attaches, sleeps, detaches and renders one collector at
// a time.  The collector objects' own effects are modelled in SaCollector;
// here each collector is its position in the registry and the calls made on
// it are recorded in an event log.
module SaMain {
  import opened Wrappers
  import SaCollector

  const INT_MAX: int := 0x7fff_ffff
  const SIGTERM: int := 15
  const POLLPRI: bv16 := 0x0002
  const POLLERR: bv16 := 0x0008

  /**
   * A registry entry: which collector and the options seen for it.  `None`
   * stands for a value left at the default of the collector's own header.
   */
  datatype Collector =
    | OnCpuC(freq: Option<nat>)
    | OffCpuC
    | MemleakC(sampleRate: Option<nat>, waMissingFree: bool)
    | IoC(mode: SaCollector.IoMode)
    | ReadaheadC
    | ProbeC(probe: Option<string>)

  datatype Entry = Entry(collector: Collector, ustack: bool, kstack: bool)

  /** The command-line tokens whose parser callbacks touch the registry, in command-line order. */
  datatype Arg =
    | OnCpuArg | OffCpuArg | MemleakArg | IoArg | ReadaheadArg | ProbeArg
    | UserStacks | KernelStacks
    | Freq(f: nat) | Interval(i: nat) | WaMissingFree
    | Mode(m: SaCollector.IoMode) | ProbeSpec(p: string)
  {
    /** The collector options each append a collector; the others modify the last one. */
    predicate Appends()
    {
      OnCpuArg? || OffCpuArg? || MemleakArg? || IoArg? || ReadaheadArg? || ProbeArg?
    }
  }

  /** A freshly constructed collector: only the IO collector traces user stacks by default. */
  function NewEntry(a: Arg): (e: Entry)
    requires a.Appends()
    ensures e.ustack <==> a == IoArg
    ensures !e.kstack
  {
    match a
    case OnCpuArg => Entry(OnCpuC(None), false, false)
    case OffCpuArg => Entry(OffCpuC, false, false)
    case MemleakArg => Entry(MemleakC(None, false), false, false)
    case IoArg => Entry(IoC(SaCollector.Count), true, false)
    case ReadaheadArg => Entry(ReadaheadC, false, false)
    case ProbeArg => Entry(ProbeC(None), false, false)
  }

  /** The collector option that creates a collector. */
  function Origin(c: Collector): (a: Arg)
    ensures a.Appends()
  {
    match c
    case OnCpuC(_) => OnCpuArg
    case OffCpuC => OffCpuArg
    case MemleakC(_, _) => MemleakArg
    case IoC(_) => IoArg
    case ReadaheadC => ReadaheadArg
    case ProbeC(_) => ProbeArg
  }

  /** The option groups of the parser: which modifiers follow which collector option. */
  predicate Takes(c: Collector, a: Arg)
  {
    match a
    case UserStacks => !c.IoC?
    case KernelStacks => !c.IoC?
    case Freq(_) => c.OnCpuC?
    case Interval(_) => c.MemleakC?
    case WaMissingFree => c.MemleakC?
    case Mode(_) => c.IoC?
    case ProbeSpec(_) => c.ProbeC?
    case _ => false
  }

  /**
   * Only modifiers belong to a collector; every collector but the IO one
   * takes -u and -k, and the IO collector takes only its mode.
   */
  lemma TakesOnlyModifiers(c: Collector, a: Arg)
    ensures Takes(c, a) ==> !a.Appends()
    ensures !c.IoC? && (a.UserStacks? || a.KernelStacks?) ==> Takes(c, a)
    ensures Takes(c, a) && c.IoC? ==> a.Mode?
  {
  }

  /** A token can be applied: a collector option always, a modifier when the last collector takes it. */
  predicate Applies(reg: seq<Entry>, a: Arg)
  {
    a.Appends() || (|reg| > 0 && Takes(reg[|reg| - 1].collector, a))
  }

  /** The effect of a modifier on the collector it belongs to. */
  function Modify(e: Entry, a: Arg): (r: Entry)
    requires Takes(e.collector, a)
    ensures Origin(r.collector) == Origin(e.collector)
  {
    match a
    case UserStacks => e.(ustack := true)
    case KernelStacks => e.(kstack := true)
    case Freq(f) => e.(collector := OnCpuC(Some(f)))
    case Interval(i) => e.(collector := e.collector.(sampleRate := Some(i)))
    case WaMissingFree => e.(collector := e.collector.(waMissingFree := true))
    case Mode(m) => e.(collector := IoC(m))
    case ProbeSpec(p) => e.(collector := ProbeC(Some(p)))
  }

  /** One parser callback: push a new collector, or change `StackCollectorList.back()`. */
  function Apply(reg: seq<Entry>, a: Arg): (r: seq<Entry>)
    requires Applies(reg, a)
    ensures a.Appends() ==> r == reg + [NewEntry(a)]
    ensures !a.Appends() ==> |r| == |reg| && r[..|reg| - 1] == reg[..|reg| - 1]
    ensures !a.Appends() ==> r[|reg| - 1] == Modify(reg[|reg| - 1], a)
  {
    if a.Appends() then reg + [NewEntry(a)]
    else reg[|reg| - 1 := Modify(reg[|reg| - 1], a)]
  }

  /** A token sequence the parser accepts: every modifier follows a collector that takes it. */
  predicate Admissible(args: seq<Arg>)
    decreases |args|, 0
  {
    |args| == 0 || (Admissible(args[..|args| - 1]) && Applies(Register(args[..|args| - 1]), args[|args| - 1]))
  }

  /** The registry after the callbacks of `args`, in order. */
  function Register(args: seq<Arg>): (r: seq<Entry>)
    requires Admissible(args)
    ensures |r| <= |args|
    ensures |args| > 0 ==> |r| > 0
    ensures |args| > 0 && args[|args| - 1].Appends() ==> r[|r| - 1] == NewEntry(args[|args| - 1])
    decreases |args|, 1
  {
    if |args| == 0 then [] else Apply(Register(args[..|args| - 1]), args[|args| - 1])
  }

  /** The collector options among the tokens, in order. */
  function CollectorArgs(args: seq<Arg>): seq<Arg>
    decreases |args|
  {
    if |args| == 0 then []
    else CollectorArgs(args[..|args| - 1]) + (if args[|args| - 1].Appends() then [args[|args| - 1]] else [])
  }

  /** The collector option behind each registry entry. */
  function Origins(reg: seq<Entry>): (r: seq<Arg>)
    ensures |r| == |reg|
    decreases |reg|
  {
    if |reg| == 0 then [] else Origins(reg[..|reg| - 1]) + [Origin(reg[|reg| - 1].collector)]
  }

  lemma {:induction false} OriginsOfPrefixAndLast(reg: seq<Entry>, e: Entry)
    requires |reg| > 0
    requires Origin(e.collector) == Origin(reg[|reg| - 1].collector)
    ensures Origins(reg[|reg| - 1 := e]) == Origins(reg)
  {
    var r := reg[|reg| - 1 := e];
    assert r[..|r| - 1] == reg[..|reg| - 1];
  }

  /** Each collector option appends exactly one collector, in command-line order. */
  lemma {:induction false} RegistryFollowsOptions(args: seq<Arg>)
    requires Admissible(args)
    ensures Origins(Register(args)) == CollectorArgs(args)
    ensures |Register(args)| == |CollectorArgs(args)|
    decreases |args|
  {
    if |args| > 0 {
      var init := args[..|args| - 1];
      var a := args[|args| - 1];
      RegistryFollowsOptions(init);
      var reg := Register(init);
      assert Register(args) == Apply(reg, a);
      assert CollectorArgs(args) == CollectorArgs(init) + (if a.Appends() then [a] else []);
      if a.Appends() {
        var r := reg + [NewEntry(a)];
        assert r[..|r| - 1] == reg;
        assert Origins(r) == Origins(reg) + [a];
      } else {
        OriginsOfPrefixAndLast(reg, Modify(reg[|reg| - 1], a));
      }
    }
  }

  /** MainConfig: the run time and delay in seconds, the command, the target pid, and the trigger. */
  datatype Config = Config(runTime: int, delay: nat, command: string, targetPid: int, trigger: string, trigEvent: string)

  /** The MainConfig values before the options are parsed. */
  const DEFAULT_CONFIG: Config := Config(INT_MAX, 5, "", -1, "", "")

  /** What the driver does, in order. */
  datatype Event =
    | Spawn(pid: int)
    | SetPid(id: nat, pid: int)
    | Load(id: nat)
    | Unload(id: nat)
    | WakeChild
    | Poll
    | Triggered
    | Attach(id: nat)
    | Sleep(secs: nat)
    | Detach(id: nat)
    | Render(id: nat)
    | Kill(pid: int, sig: int)

  /** What poll reports on the trigger file. */
  datatype PollResult = PollResult(n: int, revents: bv16)

  /** A poll result that ends the program through CHECK_ERR. */
  predicate PollFails(p: PollResult)
  {
    p.n < 0 || p.revents & POLLERR != 0
  }

  /** The collectors whose load returned 0, in registry order. */
  function Survivors(ids: seq<nat>, loadRet: seq<int>): (r: seq<nat>)
    requires forall i :: 0 <= i < |ids| ==> ids[i] < |loadRet|
    ensures |r| <= |ids|
    decreases |ids|
  {
    if |ids| == 0 then []
    else
      var last := ids[|ids| - 1];
      Survivors(ids[..|ids| - 1], loadRet) + (if loadRet[last] == 0 then [last] else [])
  }

  /** A collector survives exactly when it was in the list and its load returned 0. */
  lemma {:induction false} SurvivorsAreLoaded(ids: seq<nat>, loadRet: seq<int>)
    requires forall i :: 0 <= i < |ids| ==> ids[i] < |loadRet|
    ensures forall x :: x in Survivors(ids, loadRet) <==> x in ids && loadRet[x] == 0
    decreases |ids|
  {
    if |ids| > 0 {
      var init := ids[..|ids| - 1];
      SurvivorsAreLoaded(init, loadRet);
      assert ids == init + [ids[|ids| - 1]];
    }
  }

  predicate Increasing(s: seq<nat>)
  {
    forall i, j :: 0 <= i < j < |s| ==> s[i] < s[j]
  }

  /** Dropping the failed collectors keeps the survivors in their registry order. */
  lemma {:induction false} SurvivorsKeepOrder(ids: seq<nat>, loadRet: seq<int>)
    requires forall i :: 0 <= i < |ids| ==> ids[i] < |loadRet|
    requires Increasing(ids)
    ensures Increasing(Survivors(ids, loadRet))
    decreases |ids|
  {
    if |ids| > 0 {
      var init := ids[..|ids| - 1];
      assert Increasing(init);
      SurvivorsKeepOrder(init, loadRet);
      SurvivorsAreLoaded(init, loadRet);
      var s := Survivors(init, loadRet);
      var last := ids[|ids| - 1];
      forall x | x in s
        ensures x < last
      {
        var i :| 0 <= i < |init| && init[i] == x;
      }
      if loadRet[last] == 0 {
        var r := s + [last];
        forall i, j | 0 <= i < j < |r|
          ensures r[i] < r[j]
        {
          if j == |s| {
            assert r[i] == s[i] && s[i] in s;
          }
        }
      }
    }
  }

  /** What the load loop does for one collector: set its pid, load it, and unload it if the load failed. */
  function LoadStep(id: nat, ret: int, pid: int): (r: seq<Event>)
  {
    [SetPid(id, pid), Load(id)] + (if ret != 0 then [Unload(id)] else [])
  }

  /** A collector is unloaded in its step exactly when its load failed, after its pid is set and it is loaded. */
  lemma LoadStepUnloadsIff(id: nat, ret: int, pid: int)
    ensures var r := LoadStep(id, ret, pid);
      && |r| == (if ret != 0 then 3 else 2) && r[0] == SetPid(id, pid) && r[1] == Load(id)
      && (Unload(id) in r <==> ret != 0)
  {
  }

  function LoadLog(ids: seq<nat>, loadRet: seq<int>, pid: int): seq<Event>
    requires forall i :: 0 <= i < |ids| ==> ids[i] < |loadRet|
    decreases |ids|
  {
    if |ids| == 0 then []
    else
      var last := ids[|ids| - 1];
      LoadLog(ids[..|ids| - 1], loadRet, pid) + LoadStep(last, loadRet[last], pid)
  }

  /** The load loop's step on `ids0[k]`, read off the recursive definitions. */
  lemma LoadStepUnfolds(ids0: seq<nat>, k: nat, loadRet: seq<int>, pid: int)
    requires k < |ids0| && forall i :: 0 <= i < |ids0| ==> ids0[i] < |loadRet|
    ensures var id := ids0[k]; var s := Survivors(ids0[..k], loadRet);
      && Survivors(ids0[..k + 1], loadRet) == s + (if loadRet[id] == 0 then [id] else [])
      && LoadLog(ids0[..k + 1], loadRet, pid) == LoadLog(ids0[..k], loadRet, pid) + LoadStep(id, loadRet[id], pid)
      && (s + ids0[k..])[|s|] == id
      && (loadRet[id] != 0 ==> (s + ids0[k..])[..|s|] + (s + ids0[k..])[|s| + 1..] == s + ids0[k + 1..])
      && (loadRet[id] == 0 ==> s + ids0[k..] == (s + [id]) + ids0[k + 1..])
  {
    assert ids0[..k + 1][..k] == ids0[..k];
    var s := Survivors(ids0[..k], loadRet);
    var t := s + ids0[k..];
    assert t[..|s|] == s;
    assert t[|s| + 1..] == ids0[k + 1..];
    assert ids0[k..] == [ids0[k]] + ids0[k + 1..];
  }

  /**
   * The loop of the load phase on the list of positions: `out` is what it
   * does, `cur` the list left with the failed collectors erased.
   */
  method LoadLoop(ids0: seq<nat>, loadRet: seq<int>, pid: int) returns (cur: seq<nat>, out: seq<Event>)
    requires forall i :: 0 <= i < |ids0| ==> ids0[i] < |loadRet|
    ensures cur == Survivors(ids0, loadRet)
    ensures out == LoadLog(ids0, loadRet, pid)
  {
    cur, out := ids0, [];
    ghost var k := 0;
    ghost var kept: seq<nat> := [];
    var i := 0;
    while i < |cur|
      invariant 0 <= k <= |ids0|
      invariant kept == Survivors(ids0[..k], loadRet)
      invariant cur == kept + ids0[k..] && i == |kept|
      invariant out == LoadLog(ids0[..k], loadRet, pid)
      decreases |cur| - i
    {
      LoadStepUnfolds(ids0, k, loadRet, pid);
      var id := cur[i];
      out := out + LoadStep(id, loadRet[id], pid);
      if loadRet[id] != 0 {
        cur := cur[..i] + cur[i + 1..];
      } else {
        kept := kept + [id];
        i := i + 1;
      }
      k := k + 1;
    }
    assert ids0[..k] == ids0;
  }

  /** The inner loop of the sampling loop: every collector in turn. */
  method RoundLoop(ids: seq<nat>, delay: nat) returns (out: seq<Event>)
    ensures out == Round(ids, delay)
  {
    out := [];
    var i := 0;
    while i < |ids|
      invariant 0 <= i <= |ids|
      invariant out == Round(ids[..i], delay)
    {
      var id := ids[i];
      out := out + [Attach(id), Sleep(delay), Detach(id), Render(id)];
      assert ids[..i + 1][..i] == ids[..i];
      i := i + 1;
    }
    assert ids[..|ids|] == ids;
  }

  /** One collector's turn in a sampling round. */
  function Turn(id: nat, delay: nat): (r: seq<Event>)
  {
    [Attach(id), Sleep(delay), Detach(id), Render(id)]
  }

  function Round(ids: seq<nat>, delay: nat): (r: seq<Event>)
    decreases |ids|
  {
    if |ids| == 0 then [] else Round(ids[..|ids| - 1], delay) + Turn(ids[|ids| - 1], delay)
  }

  /** A turn attaches the collector, sleeps, detaches and renders it, and touches no other collector. */
  lemma TurnTouchesOnlyItsCollector(id: nat, delay: nat)
    ensures var r := Turn(id, delay);
      && |r| == 4 && r[0] == Attach(id) && r[1] == Sleep(delay) && r[2] == Detach(id)
      && forall e :: e in r ==> e == Sleep(delay) || ((e.Attach? || e.Detach? || e.Render?) && e.id == id)
  {
  }

  /** A round gives each collector in turn attach, sleep, detach and render: one attached at a time. */
  lemma {:induction false} RoundShape(ids: seq<nat>, delay: nat)
    ensures |Round(ids, delay)| == 4 * |ids|
    ensures forall i :: 0 <= i < |ids| ==> Round(ids, delay)[4 * i..4 * i + 4] == Turn(ids[i], delay)
    decreases |ids|
  {
    if |ids| > 0 {
      var init := ids[..|ids| - 1];
      RoundShape(init, delay);
      var r := Round(ids, delay);
      var p := Round(init, delay);
      assert r == p + Turn(ids[|ids| - 1], delay);
      forall i | 0 <= i < |ids|
        ensures r[4 * i..4 * i + 4] == Turn(ids[i], delay)
      {
        if i < |init| {
          assert r[4 * i..4 * i + 4] == p[4 * i..4 * i + 4];
        } else {
          assert r[4 * i..4 * i + 4] == Turn(ids[|ids| - 1], delay);
        }
      }
    }
  }

  /** Between a collector's attach and its detach nothing else happens but the sleep. */
  lemma AttachIsFollowedByDetach(ids: seq<nat>, delay: nat, j: nat)
    requires j < |Round(ids, delay)| && Round(ids, delay)[j].Attach?
    ensures j + 2 < |Round(ids, delay)|
    ensures Round(ids, delay)[j + 1] == Sleep(delay)
    ensures Round(ids, delay)[j + 2] == Detach(Round(ids, delay)[j].id)
  {
    RoundShape(ids, delay);
    var r := Round(ids, delay);
    var i := j / 4;
    assert r[4 * i..4 * i + 4] == Turn(ids[i], delay);
    assert r[4 * i + (j % 4)] == Turn(ids[i], delay)[j % 4];
  }

  /** The poll of an iteration, when a trigger is set: the poll, and a note if the event fired. */
  function PollPart(trigger: bool, p: PollResult): seq<Event>
  {
    if !trigger then [] else [Poll] + (if !PollFails(p) && p.revents & POLLPRI != 0 then [Triggered] else [])
  }

  /** The events of the first `k` iterations of the sampling loop. */
  function Iterations(k: nat, trigger: bool, polls: nat -> PollResult, ids: seq<nat>, delay: nat): seq<Event>
  {
    if k == 0 then [] else Iterations(k - 1, trigger, polls, ids, delay) + PollPart(trigger, polls(k - 1)) + Round(ids, delay)
  }

  /** endCollect: render each collector only while run time is left, then detach and unload it. */
  function EndLog(ids: seq<nat>, render: bool): (r: seq<Event>)
    ensures |r| == (if render then 3 else 2) * |ids|
    decreases |ids|
  {
    if |ids| == 0 then []
    else
      var last := ids[|ids| - 1];
      EndLog(ids[..|ids| - 1], render) + (if render then [Render(last)] else []) + [Detach(last), Unload(last)]
  }

  /** The finaliser renders nothing once the run time is used up. */
  lemma {:induction false} EndLogRendersIff(ids: seq<nat>, render: bool)
    ensures forall e :: e in EndLog(ids, render) && e.Render? ==> render && e.id in ids
    ensures render ==> forall id :: id in ids ==> Render(id) in EndLog(ids, render)
    ensures forall id :: id in ids ==> Detach(id) in EndLog(ids, render) && Unload(id) in EndLog(ids, render)
    decreases |ids|
  {
    if |ids| > 0 {
      EndLogRendersIff(ids[..|ids| - 1], render);
      assert ids == ids[..|ids| - 1] + [ids[|ids| - 1]];
    }
  }

  /** 0, 1, ..., n-1: the registry positions before loading. */
  function Range(n: nat): (r: seq<nat>)
    ensures |r| == n && forall i :: 0 <= i < n ==> r[i] == i
  {
    seq(n, i => i)
  }

  /**
   * The driver.  `entries` is the registry the parser built, `ids` the
   * positions of the collectors still in StackCollectorList, and `log` what
   * has been done to them.
   */
  class Driver {
    const entries: seq<Entry>
    const delay: nat
    const command: string
    const trigger: bool
    var runTime: int
    var targetPid: int
    var ids: seq<nat>
    var log: seq<Event>

    /** After parsing: the configuration with its options applied, and every collector in the list. */
    constructor(args: seq<Arg>, cfg: Config)
      requires Admissible(args)
      ensures entries == Register(args) && ids == Range(|entries|) && log == []
      ensures delay == cfg.delay && command == cfg.command && runTime == cfg.runTime && targetPid == cfg.targetPid
      ensures trigger <==> cfg.trigger != "" && cfg.trigEvent != ""
    {
      entries := Register(args);
      delay := cfg.delay;
      command := cfg.command;
      trigger := cfg.trigger != "" && cfg.trigEvent != "";
      runTime := cfg.runTime;
      targetPid := cfg.targetPid;
      ids := Range(|Register(args)|);
      log := [];
    }

    /**
     * The load loop: each collector gets the target pid and is loaded
     * (`loadRet[id]` is what its load returns); a failing one is unloaded and
     * erased, and the iterator stays on the element that follows.
     */
    method LoadAll(loadRet: seq<int>)
      requires forall i :: 0 <= i < |ids| ==> ids[i] < |loadRet|
      modifies this`ids, this`log
      ensures ids == Survivors(old(ids), loadRet)
      ensures log == old(log) + LoadLog(old(ids), loadRet, targetPid)
    {
      var cur, out := LoadLoop(ids, loadRet, targetPid);
      ids := cur;
      log := log + out;
    }

    /**
     * The sampling loop: while run time is left and the target (if any) is
     * alive (`alive(k)` is what kill(pid, 0) says before iteration k), wait
     * on the trigger if one is set (`polls(k)`), then give every collector
     * its turn; the run time drops by the delay once per iteration.  A poll
     * error or POLLERR ends the program with -1.
     */
    method SampleLoop(alive: nat -> bool, polls: nat -> PollResult) returns (fatal: bool, rounds: nat)
      requires 0 < delay <= INT_MAX
      modifies this`runTime, this`log
      ensures runTime == old(runTime) - rounds * delay
      ensures forall k :: 0 <= k < rounds ==> old(runTime) - k * delay > 0 && (targetPid < 0 || alive(k))
      ensures !fatal ==> !(runTime > 0 && (targetPid < 0 || alive(rounds)))
      ensures !fatal ==> log == old(log) + Iterations(rounds, trigger, polls, ids, delay)
      ensures fatal ==> trigger && PollFails(polls(rounds)) && runTime > 0 && (targetPid < 0 || alive(rounds))
      ensures fatal ==> log == old(log) + Iterations(rounds, trigger, polls, ids, delay) + [Poll]
    {
      rounds := 0;
      fatal := false;
      var rt, out := runTime, [];
      while rt > 0 && (targetPid < 0 || alive(rounds))
        invariant rt == old(runTime) - rounds * delay
        invariant forall k :: 0 <= k < rounds ==> old(runTime) - k * delay > 0 && (targetPid < 0 || alive(k))
        invariant out == Iterations(rounds, trigger, polls, ids, delay)
        invariant log == old(log)
        decreases rt
      {
        if trigger {
          var p := polls(rounds);
          if PollFails(p) {
            runTime, log := rt, log + out + [Poll];
            return true, rounds;
          }
        }
        var round := RoundLoop(ids, delay);
        out := out + PollPart(trigger, polls(rounds)) + round;
        assert (rounds + 1) * delay == rounds * delay + delay;
        rt := rt - delay;
        rounds := rounds + 1;
      }
      runTime, log := rt, log + out;
    }

    /** endCollect, the atexit handler: the registry's finalisation, then SIGTERM to a spawned child. */
    method EndCollect()
      modifies this`log
      ensures log == old(log) + FinalLog(ids, runTime > 0, command, targetPid)
    {
      ghost var before := log;
      var i := 0;
      while i < |ids|
        invariant 0 <= i <= |ids|
        invariant log == before + EndLog(ids[..i], runTime > 0)
      {
        var id := ids[i];
        if runTime > 0 {
          log := log + [Render(id)];
        }
        log := log + [Detach(id), Unload(id)];
        assert ids[..i + 1][..i] == ids[..i];
        i := i + 1;
      }
      assert ids[..|ids|] == ids;
      if command != "" {
        log := log + [Kill(targetPid, SIGTERM)];
      }
      assert log == before + FinalLog(ids, runTime > 0, command, targetPid);
    }

    /**
     * main after the load phase, with at least one collector left: wake the
     * child, set up the trigger (`triggerOpened`/`triggerWritten` say whether
     * its file could be opened and written), sample, and exit through
     * endCollect.  The events it adds never load a collector, attach only
     * collectors in the list, and kill only the spawned child.
     */
    method Collect(triggerOpened: bool, triggerWritten: bool, alive: nat -> bool, polls: nat -> PollResult)
      returns (ret: int, ghost tail: seq<Event>)
      requires 0 < delay <= INT_MAX && |ids| > 0
      modifies this`runTime, this`log
      ensures ret == 0 || ret == -1
      ensures trigger && (!triggerOpened || !triggerWritten) ==> ret == -1
      ensures !trigger ==> ret == 0
      ensures log == old(log) + tail && AfterLoad(tail, ids, command, targetPid)
    {
      ghost var pre := log;
      if command != "" {
        log := log + [WakeChild];
      }
      ghost var wake := WakePart(command);
      assert log == pre + wake;
      ret := 0;
      var fatal := trigger && (!triggerOpened || !triggerWritten);
      ghost var mid: seq<Event> := [];
      if !fatal {
        var rounds;
        fatal, rounds := SampleLoop(alive, polls);
        mid := Iterations(rounds, trigger, polls, ids, delay) + (if fatal then [Poll] else []);
        IterationsAfterLoad(rounds, trigger, polls, ids, delay, command, targetPid);
        AfterLoadAppend(Iterations(rounds, trigger, polls, ids, delay), if fatal then [Poll] else [], ids, command, targetPid);
      }
      if fatal {
        ret := -1;
      }
      ghost var sampled := log;
      assert sampled == (pre + wake) + mid;
      EndCollect();
      ghost var fin := FinalLog(ids, runTime > 0, command, targetPid);
      CollectTail(wake, mid, fin, ids, command, targetPid, runTime > 0);
      tail := wake + mid + fin;
      SeqAssoc(pre, wake, mid, fin);
    }

    /**
     * main after parsing, seen from the parent process: `eventFdOk` and
     * `forked` are what eventfd and fork return, `loadRet` the collectors'
     * load results.  Before atexit is registered an error returns -1 at
     * once; after it, every exit runs endCollect.
     */
    method Run(eventFdOk: bool, forked: int, loadRet: seq<int>, triggerOpened: bool, triggerWritten: bool,
                alive: nat -> bool, polls: nat -> PollResult) returns (ret: int)
      requires 0 < delay <= INT_MAX
      requires |loadRet| == |entries| && ids == Range(|entries|) && log == []
      requires forked != 0
      modifies this
      ensures |entries| == 0 ==> ret == -1 && log == []
      ensures ret == 0 || ret == -1
      ensures forall i, j :: 0 <= i < |log| && 0 <= j < |log| && log[i] == WakeChild && log[j].Load? ==> j < i
      ensures forall e :: e in log && e.Attach? ==> e.id < |loadRet| && loadRet[e.id] == 0
      ensures forall e :: e in log && e.Kill? ==> command != "" && e == Kill(forked, SIGTERM)
      ensures Survivors(Range(|entries|), loadRet) == [] ==>
        ret == -1 && forall e :: e in log ==> !e.Attach? && !e.Kill? && e != WakeChild
    {
      if |entries| == 0 {
        return -1;
      }
      if !eventFdOk {
        return -1;
      }
      if command != "" {
        if forked == -1 {
          return -1;
        }
        targetPid := forked;
        log := log + [Spawn(forked)];
      }
      ghost var spawn := log;
      LoadAll(loadRet);
      ghost var loaded := log;
      LoadPhaseEvents(spawn, Range(|entries|), loadRet, targetPid);
      if |ids| == 0 {
        WakeAfterLoads(loaded, []);
        assert loaded + [] == log;
        return -1;
      }
      SurvivorsLoaded(|entries|, loadRet);
      ghost var tail;
      ret, tail := Collect(triggerOpened, triggerWritten, alive, polls);
      MainEvents(loaded, tail, ids, loadRet, command, targetPid);
    }
  }

  /**
   * What may happen once the load phase is over: no load, attaches only of
   * collectors in the list, a wake-up and a kill of the spawned child only
   * when a command was given.
   */
  predicate AfterLoadEvent(e: Event, ids: seq<nat>, command: string, pid: int)
  {
    && !e.Load?
    && (e.Attach? ==> e.id in ids)
    && (e.Kill? ==> command != "" && e == Kill(pid, SIGTERM))
    && (e.WakeChild? ==> command != "")
  }

  predicate AfterLoad(es: seq<Event>, ids: seq<nat>, command: string, pid: int)
  {
    forall i :: 0 <= i < |es| ==> AfterLoadEvent(es[i], ids, command, pid)
  }

  lemma AfterLoadAppend(a: seq<Event>, b: seq<Event>, ids: seq<nat>, command: string, pid: int)
    requires AfterLoad(a, ids, command, pid) && AfterLoad(b, ids, command, pid)
    ensures AfterLoad(a + b, ids, command, pid)
  {
    forall i | 0 <= i < |a + b|
      ensures AfterLoadEvent((a + b)[i], ids, command, pid)
    {
      if i >= |a| {
        assert (a + b)[i] == b[i - |a|];
      }
    }
  }

  /** How the finaliser's activity starts: the spawned child is woken. */
  function WakePart(command: string): seq<Event>
  {
    if command != "" then [WakeChild] else []
  }

  /** endCollect's events: the registry's finalisation, then SIGTERM to a spawned child. */
  function FinalLog(ids: seq<nat>, render: bool, command: string, pid: int): seq<Event>
  {
    EndLog(ids, render) + (if command != "" then [Kill(pid, SIGTERM)] else [])
  }

  lemma CollectTail(wake: seq<Event>, mid: seq<Event>, fin: seq<Event>, ids: seq<nat>, command: string, pid: int, render: bool)
    requires wake == WakePart(command) && fin == FinalLog(ids, render, command, pid)
    requires AfterLoad(mid, ids, command, pid)
    ensures AfterLoad(wake + mid + fin, ids, command, pid)
  {
    EndLogAfterLoad(ids, render, command, pid);
    AfterLoadAppend(EndLog(ids, render), if command != "" then [Kill(pid, SIGTERM)] else [], ids, command, pid);
    AfterLoadAppend(wake, mid, ids, command, pid);
    AfterLoadAppend(wake + mid, fin, ids, command, pid);
  }

  lemma SeqAssoc(a: seq<Event>, b: seq<Event>, c: seq<Event>, d: seq<Event>)
    ensures (a + b) + c + d == a + (b + c + d)
  {
  }

  /** The membership form of AfterLoad. */
  lemma AfterLoadEvents(es: seq<Event>, ids: seq<nat>, command: string, pid: int)
    requires AfterLoad(es, ids, command, pid)
    ensures forall e :: e in es ==> AfterLoadEvent(e, ids, command, pid)
  {
  }

  lemma IterationsAfterLoad(k: nat, trigger: bool, polls: nat -> PollResult, ids: seq<nat>, delay: nat, command: string, pid: int)
    ensures AfterLoad(Iterations(k, trigger, polls, ids, delay), ids, command, pid)
  {
    IterationsEvents(k, trigger, polls, ids, delay);
    var es := Iterations(k, trigger, polls, ids, delay);
    forall i | 0 <= i < |es|
      ensures AfterLoadEvent(es[i], ids, command, pid)
    {
      assert es[i] in es;
    }
  }

  lemma EndLogAfterLoad(ids: seq<nat>, render: bool, command: string, pid: int)
    ensures AfterLoad(EndLog(ids, render), ids, command, pid)
  {
    EndLogEvents(ids, render);
    var es := EndLog(ids, render);
    forall i | 0 <= i < |es|
      ensures AfterLoadEvent(es[i], ids, command, pid)
    {
      assert es[i] in es;
    }
  }

  /** Nothing before the sampling phase attaches, kills or wakes the child. */
  predicate BeforeWake(es: seq<Event>)
  {
    forall e :: e in es ==> e != WakeChild && !e.Attach? && !e.Kill?
  }

  lemma LoadPhaseEvents(spawn: seq<Event>, ids: seq<nat>, loadRet: seq<int>, pid: int)
    requires forall e :: e in spawn ==> e.Spawn?
    requires forall i :: 0 <= i < |ids| ==> ids[i] < |loadRet|
    ensures BeforeWake(spawn + LoadLog(ids, loadRet, pid))
  {
    LoadLogEvents(ids, loadRet, pid);
  }

  /** The survivors of the load phase are registry positions whose load returned 0. */
  lemma SurvivorsLoaded(n: nat, loadRet: seq<int>)
    requires |loadRet| == n
    ensures forall x :: x in Survivors(Range(n), loadRet) ==> x < n && loadRet[x] == 0
  {
    SurvivorsAreLoaded(Range(n), loadRet);
    forall x | x in Survivors(Range(n), loadRet)
      ensures x < n && loadRet[x] == 0
    {
      var i :| 0 <= i < n && Range(n)[i] == x;
    }
  }

  /** The whole log of main: the load phase, then what the sampling phase adds. */
  lemma MainEvents(loaded: seq<Event>, tail: seq<Event>, ids: seq<nat>, loadRet: seq<int>, command: string, pid: int)
    requires BeforeWake(loaded) && AfterLoad(tail, ids, command, pid)
    requires forall x :: x in ids ==> x < |loadRet| && loadRet[x] == 0
    ensures forall i, j :: 0 <= i < |loaded + tail| && 0 <= j < |loaded + tail| && (loaded + tail)[i] == WakeChild && (loaded + tail)[j].Load? ==> j < i
    ensures forall e :: e in loaded + tail && e.Attach? ==> e.id < |loadRet| && loadRet[e.id] == 0
    ensures forall e :: e in loaded + tail && e.Kill? ==> command != "" && e == Kill(pid, SIGTERM)
  {
    AfterLoadEvents(tail, ids, command, pid);
    WakeAfterLoads(loaded, tail);
  }

  /** The load loop only sets pids, loads and unloads. */
  lemma {:induction false} LoadLogEvents(ids: seq<nat>, loadRet: seq<int>, pid: int)
    requires forall i :: 0 <= i < |ids| ==> ids[i] < |loadRet|
    ensures forall e :: e in LoadLog(ids, loadRet, pid) ==> (e.SetPid? || e.Load? || e.Unload?) && e.id in ids
    decreases |ids|
  {
    if |ids| > 0 {
      LoadLogEvents(ids[..|ids| - 1], loadRet, pid);
    }
  }

  /** A sampling round only polls, attaches, sleeps, detaches and renders registry members. */
  lemma {:induction false} RoundEvents(ids: seq<nat>, delay: nat)
    ensures forall e :: e in Round(ids, delay) ==> (e.Attach? || e.Sleep? || e.Detach? || e.Render?)
    ensures forall e :: e in Round(ids, delay) && !e.Sleep? ==> e.id in ids
    decreases |ids|
  {
    if |ids| > 0 {
      RoundEvents(ids[..|ids| - 1], delay);
    }
  }

  lemma {:induction false} IterationsEvents(k: nat, trigger: bool, polls: nat -> PollResult, ids: seq<nat>, delay: nat)
    ensures forall e :: e in Iterations(k, trigger, polls, ids, delay) ==>
      (e.Poll? || e.Triggered? || e.Attach? || e.Sleep? || e.Detach? || e.Render?)
    ensures forall e :: e in Iterations(k, trigger, polls, ids, delay) && e.Attach? ==> e.id in ids
    decreases k
  {
    if k > 0 {
      IterationsEvents(k - 1, trigger, polls, ids, delay);
      RoundEvents(ids, delay);
    }
  }

  /** endCollect only renders, detaches and unloads registry members. */
  lemma {:induction false} EndLogEvents(ids: seq<nat>, render: bool)
    ensures forall e :: e in EndLog(ids, render) ==> (e.Render? || e.Detach? || e.Unload?) && e.id in ids
    decreases |ids|
  {
    if |ids| > 0 {
      EndLogEvents(ids[..|ids| - 1], render);
    }
  }

  /** A log whose wake-up can only lie in its second part and whose loads only in its first. */
  lemma WakeAfterLoads(a: seq<Event>, b: seq<Event>)
    requires forall e :: e in a ==> e != WakeChild
    requires forall e :: e in b ==> !e.Load?
    ensures forall i, j :: 0 <= i < |a + b| && 0 <= j < |a + b| && (a + b)[i] == WakeChild && (a + b)[j].Load? ==> j < i
  {
    forall i | 0 <= i < |a|
      ensures a[i] != WakeChild
    {
      assert a[i] in a;
    }
    forall j | 0 <= j < |b|
      ensures !b[j].Load?
    {
      assert b[j] in b;
    }
  }
}
