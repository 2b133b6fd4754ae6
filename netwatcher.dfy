// net_watcher's user-space side: the kernel symbol table read from
// /proc/kallsyms and its binary search, and the decoding of packet and
// packet-drop events into the lines the tool logs.
module Netwatcher {
  import opened BpfMaps
  import opened Wrappers
  import NetwatcherBpf
  import opened SymbolSearch

  const MAX_SYMBOLS: nat := 300000
  const SYMBOL_NAME_LEN: nat := 30
  const MAX_HTTP_HEADER: nat := 256
  const NUL: char := '\0'
  const ETH_P_IP: int := 0x0800
  const ETH_P_IPV6: int := 0x86DD

  /** One line of /proc/kallsyms as sscanf saw it: how many fields matched, and their values. */
  datatype ScanResult = ScanResult(ret: int, addr: u64, name: string)

  /** The symbol stored for a matched line: strncpy into the 30-byte field copies at most 30 characters, and the model keeps the first 30 of a longer name. */
  function EntryOf(line: ScanResult): (e: SymbolEntry)
    ensures e.addr == line.addr && |e.name| <= SYMBOL_NAME_LEN
    ensures e.name <= line.name
    ensures |line.name| <= SYMBOL_NAME_LEN ==> e.name == line.name
  {
    SymbolEntry(line.addr, if |line.name| <= SYMBOL_NAME_LEN then line.name else line.name[..SYMBOL_NAME_LEN])
  }

  /** The entries readallsym appends for `lines`: one per line with all three fields matched, in order. */
  function Matched(lines: seq<ScanResult>): (r: seq<SymbolEntry>)
    ensures |r| <= |lines|
  {
    if |lines| == 0 then []
    else Matched(lines[..|lines| - 1]) + (if lines[|lines| - 1].ret == 3 then [EntryOf(lines[|lines| - 1])] else [])
  }

  /** Every line that matched contributes exactly one entry. */
  lemma {:induction false} MatchedCount(lines: seq<ScanResult>)
    ensures |Matched(lines)| == |set i | 0 <= i < |lines| && lines[i].ret == 3|
  {
    if |lines| > 0 {
      var init := lines[..|lines| - 1];
      MatchedCount(init);
      var before := set i | 0 <= i < |init| && init[i].ret == 3;
      var after := set i | 0 <= i < |lines| && lines[i].ret == 3;
      if lines[|lines| - 1].ret == 3 {
        assert after == before + {|lines| - 1};
      } else {
        assert after == before;
      }
    }
  }

  predicate Sorted(s: seq<SymbolEntry>)
  {
    forall i, j :: 0 <= i < j < |s| ==> s[i].addr <= s[j].addr
  }

  /** The largest index whose address is below `addr`, or -1: a linear reference for the binary search. */
  function LastBelow(s: seq<SymbolEntry>, addr: u64): (r: int)
    ensures -1 <= r < |s|
    ensures r >= 0 ==> s[r].addr < addr
    ensures forall j :: r < j < |s| ==> s[j].addr >= addr
  {
    if |s| == 0 then -1
    else if s[|s| - 1].addr < addr then |s| - 1
    else LastBelow(s[..|s| - 1], addr)
  }

  /**
   * On a table sorted by address, the part of the search still to do finds
   * the last symbol below `addr`, given what the indices outside it say.
   */
  lemma {:induction false} SearchFromSorted(s: seq<SymbolEntry>, addr: u64, low: int, high: int, result: int)
    requires Sorted(s) && 0 <= low <= high + 1 <= |s| && result == low - 1
    requires forall j :: 0 <= j < low ==> s[j].addr < addr
    requires forall j :: high < j < |s| ==> s[j].addr >= addr
    ensures SearchFrom(s, addr, low, high, result) == LastBelow(s, addr)
    decreases high - low + 1
  {
    if low > high {
      LastBelowUnique(s, addr, result);
    } else {
      var mid := low + (high - low) / 2;
      SearchStep(s, addr, low, high, result, mid);
      if s[mid].addr < addr {
        forall j | 0 <= j < mid + 1
          ensures s[j].addr < addr
        {
          if j >= low {
            assert s[j].addr <= s[mid].addr;
          }
        }
        SearchFromSorted(s, addr, mid + 1, high, mid);
      } else {
        forall j | mid - 1 < j < |s|
          ensures s[j].addr >= addr
        {
          if j <= high {
            assert s[mid].addr <= s[j].addr;
          }
        }
        SearchFromSorted(s, addr, low, mid - 1, result);
      }
    }
  }

  /** On a table sorted by address, the binary search finds the last symbol starting below `addr`. */
  lemma SearchFindsLastBelow(s: seq<SymbolEntry>, addr: u64)
    requires Sorted(s)
    ensures BinarySearch(s, addr) == LastBelow(s, addr)
  {
    SearchFromSorted(s, addr, 0, |s| - 1, -1);
  }

  lemma SortedSearch(s: seq<SymbolEntry>, addr: u64)
    ensures Sorted(s) ==> BinarySearch(s, addr) == LastBelow(s, addr)
  {
    if Sorted(s) {
      SearchFindsLastBelow(s, addr);
    }
  }

  /** Only one index has the two properties of LastBelow. */
  lemma {:induction false} LastBelowUnique(s: seq<SymbolEntry>, addr: u64, r: int)
    requires -1 <= r < |s|
    requires r >= 0 ==> s[r].addr < addr
    requires forall j :: r < j < |s| ==> s[j].addr >= addr
    ensures r == LastBelow(s, addr)
  {
    if |s| > 0 && r < |s| - 1 {
      LastBelowUnique(s[..|s| - 1], addr, r);
    }
  }

  /** On a sorted table every entry up to the found one lies below the address too. */
  lemma SortedBelow(s: seq<SymbolEntry>, addr: u64)
    requires Sorted(s)
    ensures forall j :: 0 <= j <= LastBelow(s, addr) ==> s[j].addr < addr
  {
  }

  /** The symbol a lookup lands in: some symbol starts below `addr` exactly when the first one does. */
  lemma LookupDefinedIffFirstBelow(s: seq<SymbolEntry>, addr: u64)
    requires Sorted(s)
    ensures LastBelow(s, addr) >= 0 <==> |s| > 0 && s[0].addr < addr
  {
    if |s| > 0 && s[0].addr < addr {
      assert LastBelow(s, addr) >= 0;
    }
  }

  /** The kind of the dropped packet's network protocol, by EtherType. */
  function ProtocolName(protocol: int): (r: string)
    ensures r == "ipv4" <==> protocol == ETH_P_IP
    ensures r == "ipv6" <==> protocol == ETH_P_IPV6
    ensures r == "other" <==> protocol != ETH_P_IP && protocol != ETH_P_IPV6
  {
    if protocol == 2048 then "ipv4" else if protocol == 34525 then "ipv6" else "other"
  }

  /** The reason logged for a packet error code. */
  function ErrorReason(err: int): (r: string)
    ensures err == 1 <==> r == "Invalid SEQ"
    ensures err == 2 <==> r == "Invalid checksum"
    ensures err != 1 && err != 2 <==> r == "Unkonwn"
  {
    if err == 1 then "Invalid SEQ" else if err == 2 then "Invalid checksum" else "Unkonwn"
  }

  /** Every error packet the kernel side emits is logged as an invalid sequence number. */
  lemma KernelErrorsReadAsInvalidSeq(s: NetwatcherBpf.NetState, cfg: NetwatcherBpf.Config, skp: NetwatcherBpf.SockPtr,
                                     sk: NetwatcherBpf.Sock, skb: Option<NetwatcherBpf.Skb>, reserved: bool)
    requires forall i :: 0 <= i < |s.packets| ==> ErrorReason(s.packets[i].err) == "Invalid SEQ"
    ensures var r := NetwatcherBpf.ValidateIncoming(s, cfg, skp, sk, skb, reserved);
            forall i :: 0 <= i < |r.packets| ==> ErrorReason(r.packets[i].err) == "Invalid SEQ"
  {
  }

  /** The C string held in a buffer: everything before the first NUL. */
  function CStr(b: seq<char>): (r: seq<char>)
    ensures r <= b && NUL !in r
    ensures |r| == |b| || b[|r|] == NUL
  {
    if |b| == 0 || b[0] == NUL then [] else [b[0]] + CStr(b[1..])
  }

  /** strstr's question: does `pat` occur in `s`? */
  predicate HasSubstring(s: seq<char>, pat: seq<char>)
    decreases |s|
  {
    |pat| <= |s| && (s[..|pat|] == pat || HasSubstring(s[1..], pat))
  }

  /** The index of the first `c` in `s`, or |s|. */
  function FirstIndex(s: seq<char>, c: char): (r: nat)
    ensures r <= |s| && c !in s[..r]
    ensures r < |s| ==> s[r] == c
  {
    if |s| == 0 then 0
    else if s[0] == c then 0
    else
      var k := FirstIndex(s[1..], c);
      assert s[..k + 1] == [s[0]] + s[1..][..k];
      k + 1
  }

  /**
   * The bytes of http_data that print_packet writes for a packet's payload:
   * for an HTTP/1 payload, the payload up to its first carriage return
   * followed by a NUL (the whole payload and no NUL when there is no
   * carriage return); "-" otherwise.  The rest of the buffer stays
   * uninitialised.
   */
  method HttpInfo(data: seq<char>) returns (written: seq<char>)
    requires |data| == MAX_HTTP_HEADER
    ensures !HasSubstring(CStr(data), "HTTP/1") ==> written == ['-', NUL]
    ensures HasSubstring(CStr(data), "HTTP/1") ==>
              var k := FirstIndex(data, '\r');
              written == if k < |data| then data[..k] + [NUL] else data
  {
    var httpData := new char[MAX_HTTP_HEADER];
    if HasSubstring(CStr(data), "HTTP/1") {
      var n := MAX_HTTP_HEADER;
      var found := false;
      var i := 0;
      while i < |data|
        invariant 0 <= i <= |data| && n == MAX_HTTP_HEADER && !found
        invariant httpData[..i] == data[..i]
        invariant '\r' !in data[..i]
      {
        if data[i] == '\r' {
          httpData[i] := NUL;
          n := i + 1;
          found := true;
          break;
        }
        httpData[i] := data[i];
        i := i + 1;
      }
      if found {
        assert i < |data| && data[i] == '\r';
        LastBeforeIsFirst(data, '\r', i);
        assert httpData[..n] == httpData[..i] + [httpData[i]];
      } else {
        assert i == |data|;
        assert '\r' !in data;
      }
      written := httpData[..n];
    } else {
      httpData[0] := '-';
      httpData[1] := NUL;
      written := httpData[..2];
    }
  }

  /** An occurrence with none before it is the first one. */
  lemma {:induction false} LastBeforeIsFirst(s: seq<char>, c: char, i: nat)
    requires i < |s| && s[i] == c && c !in s[..i]
    ensures FirstIndex(s, c) == i
  {
    if i > 0 {
      assert s[1..][..i - 1] == s[..i][1..];
      LastBeforeIsFirst(s[1..], c, i - 1);
    }
  }

  /** The switches the user gave net_watcher. */
  datatype Options = Options(udpInfo: bool, netFilter: bool, kfreeInfo: bool, icmpInfo: bool,
                             layerTime: bool, addrToFunc: bool)

  /** A packet event as user space receives it. */
  datatype PackT = PackT(err: int, macTime: u64, ipTime: u64, tranTime: u64, seqNum: u32, ackNum: u32,
                         data: seq<char>, sock: NetwatcherBpf.SockPtr, rx: int)

  /** What print_packet logs for one event; `httpData` is the buffer of HttpInfo. */
  datatype PacketLine =
    | ErrorLine(sock: NetwatcherBpf.SockPtr, seqNum: u32, ackNum: u32, reason: string)
    | TimingLine(sock: NetwatcherBpf.SockPtr, seqNum: u32, ackNum: u32, macTime: int, ipTime: int, tranTime: int,
                 rx: int, httpData: seq<char>)

  /**
   * print_packet: nothing while another event kind is being shown; an error
   * line for a non-zero error code; otherwise a timing line whose layer times
   * are printed as 0 unless layer times were asked for.
   */
  method PrintPacket(opts: Options, p: PackT) returns (line: Option<PacketLine>)
    requires |p.data| == MAX_HTTP_HEADER
    ensures opts.udpInfo || opts.netFilter || opts.kfreeInfo || opts.icmpInfo <==> line.None?
    ensures line.Some? && p.err != 0 ==> line.value == ErrorLine(p.sock, p.seqNum, p.ackNum, ErrorReason(p.err))
    ensures line.Some? && p.err == 0 ==>
              && line.value.TimingLine?
              && line.value.sock == p.sock && line.value.seqNum == p.seqNum && line.value.ackNum == p.ackNum
              && line.value.rx == p.rx
              && (opts.layerTime ==> line.value.macTime == p.macTime && line.value.ipTime == p.ipTime && line.value.tranTime == p.tranTime)
              && (!opts.layerTime ==> line.value.macTime == 0 && line.value.ipTime == 0 && line.value.tranTime == 0)
  {
    if opts.udpInfo || opts.netFilter || opts.kfreeInfo || opts.icmpInfo {
      return None;
    }
    if p.err != 0 {
      var reason: string;
      if p.err == 1 {
        reason := "Invalid SEQ";
      } else if p.err == 2 {
        reason := "Invalid checksum";
      } else {
        reason := "Unkonwn";
      }
      line := Some(ErrorLine(p.sock, p.seqNum, p.ackNum, reason));
    } else {
      var httpData := HttpInfo(p.data);
      if opts.layerTime {
        line := Some(TimingLine(p.sock, p.seqNum, p.ackNum, p.macTime, p.ipTime, p.tranTime, p.rx, httpData));
      } else {
        line := Some(TimingLine(p.sock, p.seqNum, p.ackNum, 0, 0, 0, p.rx, httpData));
      }
    }
  }

  /** A packet-drop event as user space receives it; `location` is a signed long. */
  datatype DropEvent = DropEvent(saddr: u32, daddr: u32, sport: int, dport: int, location: int,
                                 protocol: int, dropReason: int)

  /** Where the drop happened: a raw address, or a symbol and an offset into it. */
  datatype Location = RawAddress(addr: u64) | InSymbol(name: string, offset: u64)

  datatype DropLine = DropLine(saddr: u32, daddr: u32, sport: int, dport: int, protocol: string,
                               location: Location, dropReason: int)

  /** The kernel symbol table: a fixed array filled from the front. */
  class SymbolTable {
    var symbols: array<SymbolEntry>
    var numSymbols: nat

    ghost predicate Valid()
      reads this
    {
      symbols.Length == MAX_SYMBOLS && numSymbols <= MAX_SYMBOLS
    }

    /** The filled part of the table. */
    ghost function Entries(): seq<SymbolEntry>
      reads this, symbols
      requires Valid()
    {
      symbols[..numSymbols]
    }

    constructor ()
      ensures Valid() && Entries() == [] && fresh(symbols)
    {
      symbols := new SymbolEntry[MAX_SYMBOLS](_ => SymbolEntry(0, ""));
      numSymbols := 0;
    }

    /**
     * readallsym after the file is open: append one entry per scanned line
     * with all three fields.  There is no capacity check in the program, so
     * the caller must leave room.
     */
    method ReadAllSym(lines: seq<ScanResult>)
      requires Valid() && numSymbols + |Matched(lines)| <= MAX_SYMBOLS
      modifies this, symbols
      ensures Valid() && symbols == old(symbols)
      ensures Entries() == old(Entries()) + Matched(lines)
    {
      ghost var e0 := Entries();
      var i := 0;
      while i < |lines|
        invariant 0 <= i <= |lines| && Valid() && symbols == old(symbols)
        invariant Entries() == e0 + Matched(lines[..i])
      {
        MatchedPrefix(lines, i);
        MatchedGrows(lines, i + 1);
        var line := lines[i];
        if line.ret == 3 {
          Append(EntryOf(line));
          AppendOne(e0, Matched(lines[..i]), EntryOf(line));
        }
        i := i + 1;
      }
      assert lines[..i] == lines;
    }

    /** One stored line: the entry goes into the next free slot. */
    method Append(e: SymbolEntry)
      requires Valid() && numSymbols < MAX_SYMBOLS
      modifies this, symbols
      ensures Valid() && symbols == old(symbols)
      ensures numSymbols == old(numSymbols) + 1
      ensures Entries() == old(Entries()) + [e]
    {
      symbols[numSymbols] := e;
      numSymbols := numSymbols + 1;
      assert symbols[..numSymbols] == old(symbols[..numSymbols]) + [e];
    }

    /**
     * findfunc: the binary search, then the entry at the index it kept.  The
     * program reads index -1 when the search keeps no index, so it must keep
     * one.  The table is in the order of /proc/kallsyms, which need not be
     * sorted; on a sorted table the result is the last symbol below `addr`.
     */
    method FindFunc(addr: u64) returns (e: SymbolEntry)
      requires Valid() && BinarySearch(Entries(), addr) >= 0
      ensures e == Entries()[BinarySearch(Entries(), addr)] && e.addr < addr
      ensures Sorted(Entries()) ==> e == Entries()[LastBelow(Entries(), addr)]
    {
      var result := SearchLoop(symbols, numSymbols, addr);
      e := symbols[result];
      SortedSearch(Entries(), addr);
    }

    /**
     * print_kfree: events without addresses are skipped; the location is
     * printed raw, or as an offset into the symbol found for it.
     */
    method PrintKfree(opts: Options, ev: DropEvent) returns (line: Option<DropLine>)
      requires Valid()
      requires opts.kfreeInfo && opts.addrToFunc && !(ev.saddr == 0 && ev.daddr == 0) ==>
                 BinarySearch(Entries(), ToU64(ev.location)) >= 0
      ensures !opts.kfreeInfo || (ev.saddr == 0 && ev.daddr == 0) <==> line.None?
      ensures line.Some? ==>
                && line.value.saddr == ev.saddr && line.value.daddr == ev.daddr
                && line.value.sport == ev.sport && line.value.dport == ev.dport
                && line.value.protocol == ProtocolName(ev.protocol) && line.value.dropReason == ev.dropReason
      ensures line.Some? && !opts.addrToFunc ==> line.value.location == RawAddress(ToU64(ev.location))
      ensures line.Some? && opts.addrToFunc ==>
                var sym := Entries()[BinarySearch(Entries(), ToU64(ev.location))];
                && line.value.location == InSymbol(sym.name, ToU64(ev.location) - sym.addr)
                && line.value.location.offset > 0
    {
      if !opts.kfreeInfo {
        return None;
      }
      if ev.saddr == 0 && ev.daddr == 0 {
        return None;
      }
      var prot: string;
      if ev.protocol == 2048 {
        prot := "ipv4";
      } else if ev.protocol == 34525 {
        prot := "ipv6";
      } else {
        prot := "other";
      }
      var location: Location;
      if !opts.addrToFunc {
        location := RawAddress(ToU64(ev.location));
      } else {
        var data := FindFunc(ToU64(ev.location));
        OffsetBelow(ToU64(ev.location), data.addr);
        location := InSymbol(data.name, SubU64(ToU64(ev.location), data.addr));
      }
      line := Some(DropLine(ev.saddr, ev.daddr, ev.sport, ev.dport, prot, location, ev.dropReason));
    }
  }

  /** An address past the symbol's start is a positive offset into it, without wrap-around. */
  lemma OffsetBelow(a: u64, start: u64)
    requires start < a
    ensures SubU64(a, start) == a - start > 0
  {
  }

  lemma AppendOne(a: seq<SymbolEntry>, b: seq<SymbolEntry>, e: SymbolEntry)
    ensures (a + b) + [e] == a + (b + [e])
  {
  }

  /** A prefix of the lines yields no more entries than all of them. */
  lemma {:induction false} MatchedGrows(lines: seq<ScanResult>, i: nat)
    requires i <= |lines|
    ensures |Matched(lines[..i])| <= |Matched(lines)|
    decreases |lines| - i
  {
    if i < |lines| {
      MatchedPrefix(lines, i);
      MatchedGrows(lines, i + 1);
    } else {
      assert lines[..i] == lines;
    }
  }

  /** One more scanned line extends Matched by that line's entry, if any. */
  lemma MatchedPrefix(lines: seq<ScanResult>, i: nat)
    requires i < |lines|
    ensures Matched(lines[..i + 1]) == Matched(lines[..i]) + (if lines[i].ret == 3 then [EntryOf(lines[i])] else [])
  {
    assert lines[..i + 1][..i] == lines[..i];
  }
}
