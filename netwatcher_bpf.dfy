// net_watcher's kernel side, connection bookkeeping and error packets: TCP
// connections are recorded per socket when accepted or connected (subject to
// the port filters), forgotten when closed, counted on retransmission, and a
// segment outside a simplified acceptability window is reported to user
// space.
module NetwatcherBpf {
  import opened BpfMaps
  import opened Wrappers

  const IPPROTO_TCP: int := 6
  const AF_INET: int := 2
  const AF_INET6: int := 10
  const TCP_CLOSE: int := 7
  /** tran_flag values of a packet tuple. */
  const TCP: u32 := 1
  const UDP: u32 := 2

  /** A kernel pointer to a socket; 0 is NULL. */
  type SockPtr = nat
  const NULL: SockPtr := 0

  /** The read-only switches of the program. */
  datatype Config = Config(filterDport: int, filterSport: int, allConn: bool, errPacket: bool, retransInfo: bool)

  /** The socket fields the program reads; ports are in host byte order. */
  datatype Sock = Sock(protocol: int, family: int, sport: int, dport: int,
                       rcvSaddr: u32, daddr: u32, rcvSaddrV6: int, daddrV6: int,
                       rcvWup: u32, rcvNxt: u32, rcvWnd: u32)

  datatype Conn = Conn(sock: SockPtr, pid: int, ptid: u64, comm: string, family: int,
                       saddrV6: int, daddrV6: int, saddr: u32, daddr: u32, sport: int, dport: int,
                       isServer: int, fastRe: u32, timeout: u32, initTimestamp: u64)

  /** What the program emits on the packet ring buffer; other fields are not written here. */
  datatype Pack = Pack(err: int, sock: SockPtr, seqNum: u32, ackNum: u32)

  datatype NetState = NetState(connsInfo: map<SockPtr, Conn>, sockStores: map<u64, SockPtr>, packets: seq<Pack>)

  // ---- bpf_map_lookup_or_try_init ----

  /**
   * The entry of `k` after looking it up and, when absent, inserting `init`
   * with BPF_NOEXIST; None (NULL) when that insert failed with an error
   * other than -EEXIST.
   */
  function LookupOrTryInit<K, V>(m: map<K, V>, cap: nat, k: K, init: V): (r: (map<K, V>, Option<V>))
    ensures k in m ==> r == (m, Some(m[k]))
    ensures k !in m && |m| < cap ==> r == (m[k := init], Some(init))
    ensures k !in m && |m| >= cap ==> r == (m, None)
  {
    if k in m then (m, Some(m[k]))
    else
      var u := Update(m, cap, k, init, BpfNoExist);
      if u.err != 0 && u.err != -EEXIST then (m, None)
      else (u.m, if k in u.m then Some(u.m[k]) else None)
  }

  /** A second lookup-or-init of the same key finds the entry the first one produced. */
  lemma LookupOrTryInitStable<K, V>(m: map<K, V>, cap: nat, k: K, init: V, init2: V)
    requires LookupOrTryInit(m, cap, k, init).1.Some?
    ensures var (m1, v1) := LookupOrTryInit(m, cap, k, init);
            LookupOrTryInit(m1, cap, k, init2) == (m1, v1)
  {
  }

  // ---- port filters and connection records ----

  /** A zero filter accepts every port; a non-zero one accepts only its own port. */
  predicate PassesFilters(cfg: Config, c: Conn)
    ensures cfg.filterDport == 0 && cfg.filterSport == 0 ==> PassesFilters(cfg, c)
    ensures PassesFilters(cfg, c) && cfg.filterDport != 0 ==> c.dport == cfg.filterDport
    ensures PassesFilters(cfg, c) && cfg.filterSport != 0 ==> c.sport == cfg.filterSport
    ensures c.dport == cfg.filterDport && c.sport == cfg.filterSport ==> PassesFilters(cfg, c)
  {
    (cfg.filterDport == 0 || c.dport == cfg.filterDport) && (cfg.filterSport == 0 || c.sport == cfg.filterSport)
  }

  /** CONN_INIT followed by CONN_ADD_ADDRESS, for a TCP socket: the address fields follow the family. */
  function NewConn(skp: SockPtr, sk: Sock, ptid: u64, comm: string, now: u64, isServer: int): (c: Conn)
    ensures c.sock == skp && c.ptid == ptid && c.pid == ptid / U32_LIMIT && c.isServer == isServer
    ensures c.sport == sk.sport && c.dport == sk.dport && c.family == sk.family
    ensures c.fastRe == 0 && c.timeout == 0 && c.initTimestamp == now / 1000
    ensures sk.family == AF_INET ==> c.saddr == sk.rcvSaddr && c.daddr == sk.daddr && c.saddrV6 == 0 && c.daddrV6 == 0
    ensures sk.family == AF_INET6 ==> c.saddrV6 == sk.rcvSaddrV6 && c.daddrV6 == sk.daddrV6 && c.saddr == 0 && c.daddr == 0
    ensures sk.family != AF_INET && sk.family != AF_INET6 ==> c.saddr == 0 && c.daddr == 0 && c.saddrV6 == 0 && c.daddrV6 == 0
  {
    var c := Conn(skp, ptid / U32_LIMIT, ptid, comm, sk.family, 0, 0, 0, 0, sk.sport, sk.dport, isServer, 0, 0, now / 1000);
    if sk.family == AF_INET then c.(saddr := sk.rcvSaddr, daddr := sk.daddr)
    else if sk.family == AF_INET6 then c.(saddrV6 := sk.rcvSaddrV6, daddrV6 := sk.daddrV6)
    else c
  }

  /** Record a connection of socket `skp` unless it is not TCP or a port filter rejects it. */
  function RecordConn(s: NetState, cfg: Config, skp: SockPtr, sk: Sock, ptid: u64, comm: string, now: u64, isServer: int): (r: NetState)
    ensures r.sockStores == s.sockStores && r.packets == s.packets
    ensures sk.protocol != IPPROTO_TCP || !PassesFilters(cfg, NewConn(skp, sk, ptid, comm, now, isServer)) ==> r == s
    ensures sk.protocol == IPPROTO_TCP && PassesFilters(cfg, NewConn(skp, sk, ptid, comm, now, isServer)) ==>
              r.connsInfo == s.connsInfo[skp := NewConn(skp, sk, ptid, comm, now, isServer)]
  {
    if sk.protocol != IPPROTO_TCP then s
    else
      var conn := NewConn(skp, sk, ptid, comm, now, isServer);
      if !PassesFilters(cfg, conn) then s
      else s.(connsInfo := s.connsInfo[skp := conn])
  }

  /** inet_csk_accept's return: `skp` is the accepted socket (NULL on failure), recorded as a server side. */
  function AcceptExit(s: NetState, cfg: Config, skp: SockPtr, sk: Sock, ptid: u64, comm: string, now: u64): (r: NetState)
    ensures skp == NULL ==> r == s
    ensures skp != NULL ==> r == RecordConn(s, cfg, skp, sk, ptid, comm, now, 1)
  {
    if skp == NULL then s else RecordConn(s, cfg, skp, sk, ptid, comm, now, 1)
  }

  /** tcp_v4_connect / tcp_v6_connect entry: remember the socket of thread `ptid`. */
  function ConnectEnter(s: NetState, ptid: u64, skp: SockPtr): (r: NetState)
    ensures r.sockStores == s.sockStores[ptid := skp]
    ensures r.connsInfo == s.connsInfo && r.packets == s.packets
  {
    s.(sockStores := s.sockStores[ptid := skp])
  }

  /**
   * tcp_v4_connect / tcp_v6_connect return with value `ret`; `socks` gives
   * the fields of every socket.  A failed connect forgets the remembered
   * socket; a successful one records it as a client side and keeps it
   * remembered.
   */
  function ConnectExit(s: NetState, cfg: Config, ptid: u64, ret: int, socks: SockPtr -> Sock, comm: string, now: u64): (r: NetState)
    ensures ptid !in s.sockStores ==> r == s
    ensures ptid in s.sockStores && ret != 0 ==> r == s.(sockStores := s.sockStores - {ptid})
    ensures ptid in s.sockStores && ret == 0 ==>
              r == RecordConn(s, cfg, s.sockStores[ptid], socks(s.sockStores[ptid]), ptid, comm, now, 0)
  {
    if ptid !in s.sockStores then s
    else if ret != 0 then s.(sockStores := Delete(s.sockStores, ptid))
    else
      var skp := s.sockStores[ptid];
      RecordConn(s, cfg, skp, socks(skp), ptid, comm, now, 0)
  }

  /** tcp_set_state: closing a recorded socket forgets it and its thread's remembered socket, unless all_conn. */
  function SetState(s: NetState, cfg: Config, skp: SockPtr, state: int): (r: NetState)
    ensures cfg.allConn || state != TCP_CLOSE || skp !in s.connsInfo ==> r == s
    ensures !cfg.allConn && state == TCP_CLOSE && skp in s.connsInfo ==>
      && r.connsInfo == s.connsInfo - {skp}
      && r.sockStores == s.sockStores - {s.connsInfo[skp].ptid}
      && r.packets == s.packets
  {
    if cfg.allConn then s
    else if state == TCP_CLOSE && skp in s.connsInfo then
      var value := s.connsInfo[skp];
      NetState(Delete(s.connsInfo, skp), Delete(s.sockStores, value.ptid), s.packets)
    else s
  }

  /** Connecting and closing again leaves no record behind, when the thread had no connection before. */
  lemma ConnectThenCloseForgets(s: NetState, cfg: Config, ptid: u64, skp: SockPtr, socks: SockPtr -> Sock, comm: string, now: u64)
    requires !cfg.allConn && skp != NULL
    requires skp !in s.connsInfo && ptid !in s.sockStores
    requires socks(skp).protocol == IPPROTO_TCP && PassesFilters(cfg, NewConn(skp, socks(skp), ptid, comm, now, 0))
    ensures
      var r := SetState(ConnectExit(ConnectEnter(s, ptid, skp), cfg, ptid, 0, socks, comm, now), cfg, skp, TCP_CLOSE);
      r.connsInfo == s.connsInfo && r.sockStores == s.sockStores
  {
    var entered := ConnectEnter(s, ptid, skp);
    var connected := ConnectExit(entered, cfg, ptid, 0, socks, comm, now);
    assert connected.connsInfo == s.connsInfo[skp := NewConn(skp, socks(skp), ptid, comm, now, 0)];
    assert connected.connsInfo - {skp} == s.connsInfo;
    assert connected.sockStores - {ptid} == s.sockStores;
  }

  /** A failed connect leaves no trace at all of the attempt. */
  lemma FailedConnectForgets(s: NetState, cfg: Config, ptid: u64, skp: SockPtr, ret: int, socks: SockPtr -> Sock, comm: string, now: u64)
    requires ret != 0 && ptid !in s.sockStores
    ensures ConnectExit(ConnectEnter(s, ptid, skp), cfg, ptid, ret, socks, comm, now) == s
  {
    assert s.sockStores[ptid := skp] - {ptid} == s.sockStores;
  }

  // ---- retransmission counters ----

  /** tcp_enter_recovery: one more fast retransmission of a recorded connection. */
  function EnterRecovery(s: NetState, cfg: Config, skp: SockPtr): (r: NetState)
    ensures !cfg.retransInfo || skp !in s.connsInfo ==> r == s
    ensures cfg.retransInfo && skp in s.connsInfo ==>
      r.connsInfo == s.connsInfo[skp := s.connsInfo[skp].(fastRe := AddU32(s.connsInfo[skp].fastRe, 1))]
      && r.sockStores == s.sockStores && r.packets == s.packets
  {
    if !cfg.retransInfo || skp !in s.connsInfo then s
    else s.(connsInfo := s.connsInfo[skp := s.connsInfo[skp].(fastRe := AddU32(s.connsInfo[skp].fastRe, 1))])
  }

  /** tcp_enter_loss: one more timeout retransmission of a recorded connection. */
  function EnterLoss(s: NetState, cfg: Config, skp: SockPtr): (r: NetState)
    ensures !cfg.retransInfo || skp !in s.connsInfo ==> r == s
    ensures cfg.retransInfo && skp in s.connsInfo ==>
      r.connsInfo == s.connsInfo[skp := s.connsInfo[skp].(timeout := AddU32(s.connsInfo[skp].timeout, 1))]
      && r.sockStores == s.sockStores && r.packets == s.packets
  {
    if !cfg.retransInfo || skp !in s.connsInfo then s
    else s.(connsInfo := s.connsInfo[skp := s.connsInfo[skp].(timeout := AddU32(s.connsInfo[skp].timeout, 1))])
  }

  /** The two counters are independent: recovery and loss commute, and each touches only its own field. */
  lemma RetransCountersCommute(s: NetState, cfg: Config, skp: SockPtr)
    ensures EnterLoss(EnterRecovery(s, cfg, skp), cfg, skp) == EnterRecovery(EnterLoss(s, cfg, skp), cfg, skp)
  {
  }

  // ---- packet tuples ----

  /** The header fields a tuple builder reads, with ports and numbers already in host order. */
  datatype Headers = Headers(saddr: u32, daddr: u32, saddrV6: int, daddrV6: int,
                             sport: int, dport: int, seqNum: u32, ackNum: u32)

  datatype PacketTuple = PacketTuple(saddrV6: int, daddrV6: int, saddr: u32, daddr: u32,
                                     sport: int, dport: int, seqNum: u32, ackNum: u32, tranFlag: u32)

  const ZERO_TUPLE: PacketTuple := PacketTuple(0, 0, 0, 0, 0, 0, 0, 0, 0)

  /** get_pkt_tuple: an IPv4 TCP segment. */
  function TcpTuple(t: PacketTuple, h: Headers): (r: PacketTuple)
    ensures r.tranFlag == TCP && r.seqNum == h.seqNum && r.ackNum == h.ackNum
    ensures r.saddr == h.saddr && r.daddr == h.daddr && r.sport == h.sport && r.dport == h.dport
    ensures r.saddrV6 == t.saddrV6 && r.daddrV6 == t.daddrV6
  {
    t.(saddr := h.saddr, daddr := h.daddr, sport := h.sport, dport := h.dport, seqNum := h.seqNum, ackNum := h.ackNum, tranFlag := TCP)
  }

  /** get_udp_pkt_tuple: an IPv4 UDP datagram, which has no sequence numbers. */
  function UdpTuple(t: PacketTuple, h: Headers): (r: PacketTuple)
    ensures r.tranFlag == UDP && r.seqNum == 0 && r.ackNum == 0
    ensures r.saddr == h.saddr && r.daddr == h.daddr && r.sport == h.sport && r.dport == h.dport
    ensures r.saddrV6 == t.saddrV6 && r.daddrV6 == t.daddrV6
  {
    t.(saddr := h.saddr, daddr := h.daddr, sport := h.sport, dport := h.dport, seqNum := 0, ackNum := 0, tranFlag := UDP)
  }

  /** get_pkt_tuple_v6: an IPv6 TCP segment. */
  function TcpTupleV6(t: PacketTuple, h: Headers): (r: PacketTuple)
    ensures r.tranFlag == TCP && r.seqNum == h.seqNum && r.ackNum == h.ackNum
    ensures r.saddrV6 == h.saddrV6 && r.daddrV6 == h.daddrV6 && r.sport == h.sport && r.dport == h.dport
    ensures r.saddr == t.saddr && r.daddr == t.daddr
  {
    t.(saddrV6 := h.saddrV6, daddrV6 := h.daddrV6, sport := h.sport, dport := h.dport, seqNum := h.seqNum, ackNum := h.ackNum, tranFlag := 1)
  }

  /** A TCP and a UDP tuple are never the same timestamps key, whatever their headers. */
  lemma TcpAndUdpTuplesDiffer(t: PacketTuple, h1: Headers, h2: Headers)
    ensures TcpTuple(t, h1) != UdpTuple(t, h2) && TcpTupleV6(t, h1) != UdpTuple(t, h2)
  {
  }

  // ---- invalid sequence numbers ----

  /**
   * The acceptability test of tcp_validate_incoming: the test of section
   * 3.10.7.4 of RFC 9293 with the receive window forced to 0 and plain
   * (not modular) unsigned comparisons.  It accepts exactly the segments
   * starting at or before rcv_nxt and ending at or after rcv_wup.
   */
  predicate SeqAcceptable(startSeq: u32, endSeq: u32, rcvWup: u32, rcvNxt: u32)
    ensures SeqAcceptable(startSeq, endSeq, rcvWup, rcvNxt) <==> startSeq <= rcvNxt && rcvWup <= endSeq
  {
    var receiveWindow: u32 := 0;
    endSeq >= rcvWup && AddU32(rcvNxt, receiveWindow) >= startSeq
  }

  /**
   * Unlike the modular comparisons of RFC 9293, the plain comparison rejects
   * the next in-order segment once sequence numbers wrap: rcv_nxt just
   * below 2^32 with a segment that starts there and ends past 0.
   */
  lemma WrappedSegmentRejected()
    ensures !SeqAcceptable(U32_LIMIT - 10, 5, U32_LIMIT - 20, U32_LIMIT - 10)
  {
  }

  /** The socket buffer fields the program reads: the segment bounds and its headers. */
  datatype Skb = Skb(startSeq: u32, endSeq: u32, headers: Headers)

  /**
   * tcp_validate_incoming on socket `skp` (fields `sk`) and buffer `skb`
   * (None for NULL); `reserved` is whether the ring buffer had room.
   */
  function ValidateIncoming(s: NetState, cfg: Config, skp: SockPtr, sk: Sock, skb: Option<Skb>, reserved: bool): (r: NetState)
    ensures r.connsInfo == s.connsInfo && r.sockStores == s.sockStores
    ensures !cfg.errPacket || skp == NULL || skb.None? || skp !in s.connsInfo ==> r == s
    ensures skb.Some? && SeqAcceptable(skb.value.startSeq, skb.value.endSeq, sk.rcvWup, sk.rcvNxt) ==> r == s
    ensures (sk.family != AF_INET && sk.family != AF_INET6) || !reserved ==> r == s
    ensures cfg.errPacket && skp != NULL && skb.Some? && skp in s.connsInfo &&
            !SeqAcceptable(skb.value.startSeq, skb.value.endSeq, sk.rcvWup, sk.rcvNxt) &&
            (sk.family == AF_INET || sk.family == AF_INET6) && reserved ==>
              r.packets == s.packets + [Pack(1, skp, skb.value.headers.seqNum, skb.value.headers.ackNum)]
  {
    if !cfg.errPacket || skp == NULL || skb.None? || skp !in s.connsInfo then s
    else if SeqAcceptable(skb.value.startSeq, skb.value.endSeq, sk.rcvWup, sk.rcvNxt) then s
    else
      var tuple :=
        if sk.family == AF_INET then Some(TcpTuple(ZERO_TUPLE, skb.value.headers))
        else if sk.family == AF_INET6 then Some(TcpTupleV6(ZERO_TUPLE, skb.value.headers))
        else None;
      if tuple.None? || !reserved then s
      else s.(packets := s.packets + [Pack(1, skp, tuple.value.seqNum, tuple.value.ackNum)])
  }

  /** The program's connection tables and its packet ring-buffer output, in place. */
  class NetwatcherProgram {
    const cfg: Config
    var connsInfo: map<SockPtr, Conn>
    var sockStores: map<u64, SockPtr>
    var packets: seq<Pack>

    function State(): NetState
      reads this
    {
      NetState(connsInfo, sockStores, packets)
    }

    constructor (cfg: Config)
      ensures this.cfg == cfg && State() == NetState(map[], map[], [])
    {
      this.cfg := cfg;
      connsInfo, sockStores, packets := map[], map[], [];
    }

    /** The shared tail of the accept and connect handlers: CONN_INIT, the filters and the update. */
    method Record(skp: SockPtr, sk: Sock, ptid: u64, comm: string, now: u64, isServer: int)
      modifies this
      ensures State() == RecordConn(old(State()), cfg, skp, sk, ptid, comm, now, isServer)
    {
      var conn := Conn(NULL, ptid / U32_LIMIT, ptid, "", 0, 0, 0, 0, 0, 0, 0, 0, 0, 0, 0);
      if sk.protocol != IPPROTO_TCP {
        return;
      }
      conn := conn.(comm := comm, sock := skp, family := sk.family, sport := sk.sport, dport := sk.dport,
                    initTimestamp := now / 1000);
      conn := conn.(isServer := isServer);
      if cfg.filterDport != 0 && conn.dport != cfg.filterDport {
        return;
      }
      if cfg.filterSport != 0 && conn.sport != cfg.filterSport {
        return;
      }
      if sk.family == AF_INET {
        conn := conn.(saddr := sk.rcvSaddr, daddr := sk.daddr);
      } else if sk.family == AF_INET6 {
        conn := conn.(saddrV6 := sk.rcvSaddrV6, daddrV6 := sk.daddrV6);
      }
      connsInfo := connsInfo[skp := conn];
    }

    method InetCskAcceptExit(skp: SockPtr, sk: Sock, ptid: u64, comm: string, now: u64) returns (ret: int)
      modifies this
      ensures ret == 0 && State() == AcceptExit(old(State()), cfg, skp, sk, ptid, comm, now)
    {
      ret := 0;
      if skp == NULL {
        return;
      }
      Record(skp, sk, ptid, comm, now, 1);
    }

    method TcpV4Connect(ptid: u64, skp: SockPtr) returns (ret: int)
      modifies this
      ensures ret == 0 && State() == ConnectEnter(old(State()), ptid, skp)
    {
      sockStores := sockStores[ptid := skp];
      ret := 0;
    }

    method TcpV4ConnectExit(ptid: u64, r: int, socks: SockPtr -> Sock, comm: string, now: u64) returns (ret: int)
      modifies this
      ensures ret == 0 && State() == ConnectExit(old(State()), cfg, ptid, r, socks, comm, now)
    {
      ret := 0;
      if ptid !in sockStores {
        return;
      }
      if r != 0 {
        sockStores := Delete(sockStores, ptid);
        return;
      }
      var skp := sockStores[ptid];
      Record(skp, socks(skp), ptid, comm, now, 0);
    }

    method TcpV6Connect(ptid: u64, skp: SockPtr) returns (ret: int)
      modifies this
      ensures ret == 0 && State() == ConnectEnter(old(State()), ptid, skp)
    {
      sockStores := sockStores[ptid := skp];
      ret := 0;
    }

    method TcpV6ConnectExit(ptid: u64, r: int, socks: SockPtr -> Sock, comm: string, now: u64) returns (ret: int)
      modifies this
      ensures ret == 0 && State() == ConnectExit(old(State()), cfg, ptid, r, socks, comm, now)
    {
      ret := 0;
      if ptid !in sockStores {
        return;
      }
      if r != 0 {
        sockStores := Delete(sockStores, ptid);
        return;
      }
      var skp := sockStores[ptid];
      Record(skp, socks(skp), ptid, comm, now, 0);
    }

    method TcpSetState(skp: SockPtr, state: int) returns (ret: int)
      modifies this
      ensures ret == 0 && State() == SetState(old(State()), cfg, skp, state)
    {
      ret := 0;
      if cfg.allConn {
        return;
      }
      if state == TCP_CLOSE && skp in connsInfo {
        var value := connsInfo[skp];
        sockStores := Delete(sockStores, value.ptid);
        connsInfo := Delete(connsInfo, skp);
      }
    }

    method TcpEnterRecovery(skp: SockPtr) returns (ret: int)
      modifies this
      ensures ret == 0 && State() == EnterRecovery(old(State()), cfg, skp)
    {
      ret := 0;
      if !cfg.retransInfo || skp !in connsInfo {
        return;
      }
      connsInfo := connsInfo[skp := connsInfo[skp].(fastRe := AddU32(connsInfo[skp].fastRe, 1))];
    }

    method TcpEnterLoss(skp: SockPtr) returns (ret: int)
      modifies this
      ensures ret == 0 && State() == EnterLoss(old(State()), cfg, skp)
    {
      ret := 0;
      if !cfg.retransInfo || skp !in connsInfo {
        return;
      }
      connsInfo := connsInfo[skp := connsInfo[skp].(timeout := AddU32(connsInfo[skp].timeout, 1))];
    }

    method TcpValidateIncoming(skp: SockPtr, sk: Sock, skb: Option<Skb>, reserved: bool) returns (ret: int)
      modifies this
      ensures ret == 0 && State() == ValidateIncoming(old(State()), cfg, skp, sk, skb, reserved)
    {
      ret := 0;
      if !cfg.errPacket {
        return;
      }
      if skp == NULL || skb.None? {
        return;
      }
      if skp !in connsInfo {
        return;
      }
      var startSeq, endSeq := skb.value.startSeq, skb.value.endSeq;
      var receiveWindow := SubU32(AddU32(sk.rcvWup, sk.rcvNxt), sk.rcvWnd);
      receiveWindow := 0;
      if endSeq >= sk.rcvWup && AddU32(sk.rcvNxt, receiveWindow) >= startSeq {
        return;
      }
      var tuple := ZERO_TUPLE;
      if sk.family == AF_INET {
        tuple := TcpTuple(tuple, skb.value.headers);
      } else if sk.family == AF_INET6 {
        tuple := TcpTupleV6(tuple, skb.value.headers);
      } else {
        return;
      }
      if !reserved {
        return;
      }
      packets := packets + [Pack(1, skp, tuple.seqNum, tuple.ackNum)];
    }
  }
}
