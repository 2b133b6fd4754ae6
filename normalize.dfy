// blazesym's C interface to address normalization: the conversions between
// the Rust values a normalizer produces (ELF, APK-embedded ELF and unknown
// address metadata, and the normalized addresses that index into them) and
// the C structures handed across the FFI boundary, and the FFI free
// functions that take ownership back.
//
// A C pointer is modelled by the memory it points to: a NUL-terminated
// string by the bytes up to and including its terminator, a build-id buffer
// by its bytes, and a nullable pointer by an Option whose None is NULL.
module Normalize {
  import opened Wrappers

  type byte = b: int | 0 <= b < 256

  /** The Rust-side metadata of an ELF file. */
  datatype Elf = Elf(path: seq<byte>, buildId: Option<seq<byte>>)

  /** The Rust-side metadata of an ELF file inside an APK. */
  datatype ApkElf = ApkElf(apkPath: seq<byte>, elfPath: seq<byte>, elfBuildId: Option<seq<byte>>)

  /** The Rust-side metadata of an address whose origin is not known. */
  datatype Unknown = Unknown

  datatype UserAddrMeta = ApkElfMeta(apkElf: ApkElf) | ElfMeta(elf: Elf) | UnknownMeta(unknown: Unknown)

  /** Normalized addresses, each paired with the index of its metadata entry. */
  datatype NormalizedUserAddrs = NormalizedUserAddrs(meta: seq<UserAddrMeta>, addrs: seq<(nat, nat)>)

  /** blaze_user_addr_meta_elf: a C string, a length and a nullable buffer. */
  datatype CElf = CElf(path: seq<byte>, buildIdLen: nat, buildId: Option<seq<byte>>)

  /** blaze_user_addr_meta_apk_elf. */
  datatype CApkElf = CApkElf(apkPath: seq<byte>, elfPath: seq<byte>, elfBuildIdLen: nat, elfBuildId: Option<seq<byte>>)

  /** blaze_user_addr_meta_unknown. */
  datatype CUnknown = CUnknown(unused: byte)

  datatype MetaKind = BLAZE_USER_ADDR_UNKNOWN | BLAZE_USER_ADDR_APK_ELF | BLAZE_USER_ADDR_ELF

  /** The member of the union blaze_user_addr_meta_variant that was written. */
  datatype CVariant = VApkElf(apkElf: CApkElf) | VElf(elf: CElf) | VUnknown(unknown: CUnknown)

  /** blaze_user_addr_meta: a kind tag and the union it describes. */
  datatype CUserAddrMeta = CUserAddrMeta(kind: MetaKind, variant: CVariant)

  datatype CNormalizedAddr = CNormalizedAddr(addr: nat, metaIdx: nat)

  /** blaze_normalized_user_addrs: two counted arrays. */
  datatype CNormalizedUserAddrs = CNormalizedUserAddrs(
    metaCount: nat, metas: seq<CUserAddrMeta>, addrCount: nat, addrs: seq<CNormalizedAddr>)

  // ---------------------------------------------------------------- C strings

  /**
   * CString::new followed by into_raw: the bytes with a terminating NUL, or
   * None (where the code panics on `expect`) when the bytes hold a NUL.
   */
  function CStringNew(bytes: seq<byte>): (r: Option<seq<byte>>)
    ensures r.None? <==> 0 in bytes
    ensures r.Some? ==> |r.value| == |bytes| + 1 && r.value[..|bytes|] == bytes && r.value[|bytes|] == 0
  {
    if 0 in bytes then None else Some(bytes + [0])
  }

  /** CString::from_raw followed by into_bytes: the bytes before the first NUL. */
  function FromRaw(mem: seq<byte>): (s: seq<byte>)
    requires 0 in mem
    ensures |s| < |mem| && mem[..|s|] == s && mem[|s|] == 0 && 0 !in s
  {
    if mem[0] == 0 then [] else [mem[0]] + FromRaw(mem[1..])
  }

  /** A string without NUL survives the trip through C memory unchanged. */
  lemma CStringRoundTrip(bytes: seq<byte>)
    requires 0 !in bytes
    ensures FromRaw(CStringNew(bytes).value) == bytes
  {
  }

  /** The bare NUL-free text as C memory; what the conversions below write for a path. */
  function CPath(bytes: seq<byte>): (mem: seq<byte>)
    requires 0 !in bytes
    ensures 0 in mem && FromRaw(mem) == bytes
  {
    CStringRoundTrip(bytes);
    CStringNew(bytes).value
  }

  // ------------------------------------------------------------------ build ids

  /** The build-id length and nullable pointer of the C structures. */
  function BuildIdToC(b: Option<seq<byte>>): (r: (nat, Option<seq<byte>>))
    ensures r.0 == if b.Some? then |b.value| else 0
    ensures r.1.None? <==> b.None?
    ensures r.1.Some? ==> r.1.value == b.value
  {
    match b
    case None => (0, None)
    case Some(id) => (|id|, Some(id))
  }

  /** A length that the buffer, when one is present, can hold. */
  predicate BufferHolds(len: nat, p: Option<seq<byte>>)
  {
    p.Some? ==> len <= |p.value|
  }

  /** A NULL pointer is no build id; otherwise the first `len` bytes it points to are. */
  function BuildIdFromC(len: nat, p: Option<seq<byte>>): (b: Option<seq<byte>>)
    requires BufferHolds(len, p)
    ensures b.Some? <==> p.Some?
    ensures b.Some? ==> |b.value| == len && b.value == p.value[..len]
  {
    match p
    case None => None
    case Some(mem) => Some(mem[..len])
  }

  lemma BuildIdRoundTrip(b: Option<seq<byte>>)
    ensures BufferHolds(BuildIdToC(b).0, BuildIdToC(b).1)
    ensures BuildIdFromC(BuildIdToC(b).0, BuildIdToC(b).1) == b
  {
    if b.Some? {
      assert b.value[..|b.value|] == b.value;
    }
  }

  // ------------------------------------------------------------------------ ELF

  predicate ElfAdmissible(e: Elf) { 0 !in e.path }

  predicate CElfReadable(c: CElf) { 0 in c.path && BufferHolds(c.buildIdLen, c.buildId) }

  /** From<Elf> for blaze_user_addr_meta_elf. */
  function ElfToC(e: Elf): (c: CElf)
    requires ElfAdmissible(e)
    ensures c.buildIdLen == if e.buildId.Some? then |e.buildId.value| else 0
    ensures c.buildId.None? <==> e.buildId.None?
    ensures c.buildId.Some? ==> c.buildId.value == e.buildId.value
    ensures 0 in c.path && FromRaw(c.path) == e.path
  {
    var id := BuildIdToC(e.buildId);
    CElf(CPath(e.path), id.0, id.1)
  }

  /** From<blaze_user_addr_meta_elf> for Elf. */
  function ElfFromC(c: CElf): (e: Elf)
    requires CElfReadable(c)
    ensures ElfAdmissible(e) && e.path == FromRaw(c.path)
    ensures e.buildId.Some? <==> c.buildId.Some?
    ensures e.buildId.Some? ==> e.buildId.value == c.buildId.value[..c.buildIdLen]
  {
    Elf(FromRaw(c.path), BuildIdFromC(c.buildIdLen, c.buildId))
  }

  lemma ElfRoundTrip(e: Elf)
    requires ElfAdmissible(e)
    ensures CElfReadable(ElfToC(e))
    ensures ElfFromC(ElfToC(e)) == e
  {
    BuildIdRoundTrip(e.buildId);
  }

  // -------------------------------------------------------------------- APK ELF

  predicate ApkElfAdmissible(a: ApkElf) { 0 !in a.apkPath && 0 !in a.elfPath }

  predicate CApkElfReadable(c: CApkElf)
  {
    0 in c.apkPath && 0 in c.elfPath && BufferHolds(c.elfBuildIdLen, c.elfBuildId)
  }

  /** From<ApkElf> for blaze_user_addr_meta_apk_elf. */
  function ApkElfToC(a: ApkElf): (c: CApkElf)
    requires ApkElfAdmissible(a)
    ensures c.elfBuildIdLen == if a.elfBuildId.Some? then |a.elfBuildId.value| else 0
    ensures c.elfBuildId.None? <==> a.elfBuildId.None?
    ensures c.elfBuildId.Some? ==> c.elfBuildId.value == a.elfBuildId.value
    ensures 0 in c.apkPath && 0 in c.elfPath
    ensures FromRaw(c.apkPath) == a.apkPath && FromRaw(c.elfPath) == a.elfPath
  {
    var id := BuildIdToC(a.elfBuildId);
    CApkElf(CPath(a.apkPath), CPath(a.elfPath), id.0, id.1)
  }

  /** From<blaze_user_addr_meta_apk_elf> for ApkElf. */
  function ApkElfFromC(c: CApkElf): (a: ApkElf)
    requires CApkElfReadable(c)
    ensures ApkElfAdmissible(a)
    ensures a.apkPath == FromRaw(c.apkPath) && a.elfPath == FromRaw(c.elfPath)
    ensures a.elfBuildId.Some? <==> c.elfBuildId.Some?
    ensures a.elfBuildId.Some? ==> a.elfBuildId.value == c.elfBuildId.value[..c.elfBuildIdLen]
  {
    ApkElf(FromRaw(c.apkPath), FromRaw(c.elfPath), BuildIdFromC(c.elfBuildIdLen, c.elfBuildId))
  }

  lemma ApkElfRoundTrip(a: ApkElf)
    requires ApkElfAdmissible(a)
    ensures CApkElfReadable(ApkElfToC(a))
    ensures ApkElfFromC(ApkElfToC(a)) == a
  {
    BuildIdRoundTrip(a.elfBuildId);
  }

  /** Empty paths and no build id: two empty C strings and a NULL buffer of length 0, and back. */
  lemma EmptyApkElfRoundTrip()
    ensures ApkElfToC(ApkElf([], [], None)) == CApkElf([0], [0], 0, None)
    ensures ApkElfFromC(CApkElf([0], [0], 0, None)) == ApkElf([], [], None)
  {
    assert CStringNew([]) == Some([0]);
  }

  // -------------------------------------------------------------------- unknown

  /** From<Unknown> for blaze_user_addr_meta_unknown. */
  function UnknownToC(u: Unknown): (c: CUnknown)
    ensures c.unused == 0
  {
    CUnknown(0)
  }

  /** From<blaze_user_addr_meta_unknown> for Unknown: the unused byte is ignored. */
  function UnknownFromC(c: CUnknown): (u: Unknown)
    ensures UnknownToC(u) == CUnknown(0)
  {
    Unknown
  }

  lemma UnknownRoundTrip(u: Unknown, c: CUnknown)
    ensures UnknownFromC(UnknownToC(u)) == u
    ensures UnknownFromC(c) == UnknownFromC(CUnknown(0))
  {
  }

  // ------------------------------------------------------------------- metadata

  predicate MetaAdmissible(m: UserAddrMeta)
  {
    match m
    case ApkElfMeta(a) => ApkElfAdmissible(a)
    case ElfMeta(e) => ElfAdmissible(e)
    case UnknownMeta(_) => true
  }

  /** The union member named by the kind tag is the one that holds data, and it is readable. */
  predicate CMetaReadable(c: CUserAddrMeta)
  {
    match c.kind
    case BLAZE_USER_ADDR_APK_ELF => c.variant.VApkElf? && CApkElfReadable(c.variant.apkElf)
    case BLAZE_USER_ADDR_ELF => c.variant.VElf? && CElfReadable(c.variant.elf)
    case BLAZE_USER_ADDR_UNKNOWN => c.variant.VUnknown?
  }

  /** From<UserAddrMeta> for blaze_user_addr_meta: the tag names the variant written. */
  function MetaToC(m: UserAddrMeta): (c: CUserAddrMeta)
    requires MetaAdmissible(m)
    ensures CMetaReadable(c)
    ensures c.kind == BLAZE_USER_ADDR_APK_ELF <==> m.ApkElfMeta?
    ensures c.kind == BLAZE_USER_ADDR_ELF <==> m.ElfMeta?
    ensures c.kind == BLAZE_USER_ADDR_UNKNOWN <==> m.UnknownMeta?
    ensures m.ApkElfMeta? ==> c.variant == VApkElf(ApkElfToC(m.apkElf))
    ensures m.ElfMeta? ==> c.variant == VElf(ElfToC(m.elf))
    ensures m.UnknownMeta? ==> c.variant == VUnknown(CUnknown(0))
  {
    match m
    case ApkElfMeta(a) =>
      ApkElfRoundTrip(a);
      CUserAddrMeta(BLAZE_USER_ADDR_APK_ELF, VApkElf(ApkElfToC(a)))
    case ElfMeta(e) =>
      ElfRoundTrip(e);
      CUserAddrMeta(BLAZE_USER_ADDR_ELF, VElf(ElfToC(e)))
    case UnknownMeta(u) =>
      CUserAddrMeta(BLAZE_USER_ADDR_UNKNOWN, VUnknown(UnknownToC(u)))
  }

  /** From<blaze_user_addr_meta> for UserAddrMeta: dispatch on the kind tag. */
  function MetaFromC(c: CUserAddrMeta): (m: UserAddrMeta)
    requires CMetaReadable(c)
    ensures MetaAdmissible(m)
    ensures m.ApkElfMeta? <==> c.kind == BLAZE_USER_ADDR_APK_ELF
    ensures m.ElfMeta? <==> c.kind == BLAZE_USER_ADDR_ELF
    ensures m.UnknownMeta? <==> c.kind == BLAZE_USER_ADDR_UNKNOWN
    ensures m.ApkElfMeta? ==> m.apkElf == ApkElfFromC(c.variant.apkElf)
    ensures m.ElfMeta? ==> m.elf == ElfFromC(c.variant.elf)
  {
    match c.kind
    case BLAZE_USER_ADDR_APK_ELF => ApkElfMeta(ApkElfFromC(c.variant.apkElf))
    case BLAZE_USER_ADDR_ELF => ElfMeta(ElfFromC(c.variant.elf))
    case BLAZE_USER_ADDR_UNKNOWN => UnknownMeta(UnknownFromC(c.variant.unknown))
  }

  lemma MetaRoundTrip(m: UserAddrMeta)
    requires MetaAdmissible(m)
    ensures MetaFromC(MetaToC(m)) == m
  {
    match m
    case ApkElfMeta(a) => ApkElfRoundTrip(a);
    case ElfMeta(e) => ElfRoundTrip(e);
    case UnknownMeta(u) =>
  }

  // ------------------------------------------------------- normalized addresses

  /** From<(Addr, usize)> for blaze_normalized_addr. */
  function AddrToC(p: (nat, nat)): (c: CNormalizedAddr)
    ensures c.addr == p.0 && c.metaIdx == p.1
    ensures (c.addr, c.metaIdx) == p
  {
    CNormalizedAddr(p.0, p.1)
  }

  predicate AllAdmissible(ms: seq<UserAddrMeta>)
  {
    forall i :: 0 <= i < |ms| ==> MetaAdmissible(ms[i])
  }

  /** `meta.into_iter().map(blaze_user_addr_meta::from).collect()`. */
  function MetasToC(ms: seq<UserAddrMeta>): (cs: seq<CUserAddrMeta>)
    requires AllAdmissible(ms)
    ensures |cs| == |ms|
    ensures forall i :: 0 <= i < |ms| ==> cs[i] == MetaToC(ms[i])
    decreases |ms|
  {
    if |ms| == 0 then [] else [MetaToC(ms[0])] + MetasToC(ms[1..])
  }

  /** `addrs.into_iter().map(blaze_normalized_addr::from).collect()`. */
  function AddrsToC(ps: seq<(nat, nat)>): (cs: seq<CNormalizedAddr>)
    ensures |cs| == |ps|
    ensures forall i :: 0 <= i < |ps| ==> cs[i].addr == ps[i].0 && cs[i].metaIdx == ps[i].1
    decreases |ps|
  {
    if |ps| == 0 then [] else [AddrToC(ps[0])] + AddrsToC(ps[1..])
  }

  /** From<NormalizedUserAddrs> for blaze_normalized_user_addrs. */
  function UserAddrsToC(n: NormalizedUserAddrs): (c: CNormalizedUserAddrs)
    requires AllAdmissible(n.meta)
    ensures c.metaCount == |n.meta| == |c.metas|
    ensures c.addrCount == |n.addrs| == |c.addrs|
    ensures forall i :: 0 <= i < |n.meta| ==> c.metas[i] == MetaToC(n.meta[i])
    ensures forall i :: 0 <= i < |n.addrs| ==> c.addrs[i].addr == n.addrs[i].0 && c.addrs[i].metaIdx == n.addrs[i].1
  {
    CNormalizedUserAddrs(|n.meta|, MetasToC(n.meta), |n.addrs|, AddrsToC(n.addrs))
  }

  /**
   * blaze_normalize_user_addrs and its _sorted twin, given what the normalizer
   * returned: the converted set, or NULL on an error.
   */
  function NormalizeUserAddrs(result: Result<NormalizedUserAddrs, string>): (r: Option<CNormalizedUserAddrs>)
    requires result.Ok? ==> AllAdmissible(result.value.meta)
    ensures r.None? <==> result.Err?
    ensures r.Some? ==> r.value == UserAddrsToC(result.value)
  {
    match result
    case Ok(n) => Some(UserAddrsToC(n))
    case Err(_) => None
  }

  // --------------------------------------------------------------- freeing

  predicate AllReadable(cs: seq<CUserAddrMeta>)
  {
    forall i :: 0 <= i < |cs| ==> CMetaReadable(cs[i])
  }

  /** What blaze_user_addrs_free may be handed: the counted metadata array is there to read. */
  predicate CUserAddrsReadable(c: CNormalizedUserAddrs)
  {
    c.metaCount <= |c.metas| && c.addrCount <= |c.addrs| && AllReadable(c.metas[..c.metaCount])
  }

  /** Converting each C metadata entry back, which hands its strings and buffers back to Rust. */
  function MetasFromC(cs: seq<CUserAddrMeta>): (ms: seq<UserAddrMeta>)
    requires AllReadable(cs)
    ensures |ms| == |cs|
    ensures forall i :: 0 <= i < |cs| ==> ms[i] == MetaFromC(cs[i])
    decreases |cs|
  {
    if |cs| == 0 then [] else [MetaFromC(cs[0])] + MetasFromC(cs[1..])
  }

  /**
   * blaze_user_addrs_free: the metadata whose memory it reclaims, one value per
   * counted entry, or nothing at all for NULL.
   */
  function UserAddrsFree(p: Option<CNormalizedUserAddrs>): (r: seq<UserAddrMeta>)
    requires p.Some? ==> CUserAddrsReadable(p.value)
    ensures p.None? ==> r == []
    ensures p.Some? ==> |r| == p.value.metaCount
    ensures p.Some? ==> forall i :: 0 <= i < |r| ==> r[i] == MetaFromC(p.value.metas[i])
  {
    match p
    case None => []
    case Some(c) => MetasFromC(c.metas[..c.metaCount])
  }

  lemma {:induction false} MetasRoundTrip(ms: seq<UserAddrMeta>)
    requires AllAdmissible(ms)
    ensures AllReadable(MetasToC(ms))
    ensures MetasFromC(MetasToC(ms)) == ms
  {
    var cs := MetasToC(ms);
    var back := MetasFromC(cs);
    forall i | 0 <= i < |ms|
      ensures back[i] == ms[i]
    {
      MetaRoundTrip(ms[i]);
    }
  }

  /** Freeing what a successful normalization returned reclaims every metadata entry, in order. */
  lemma FreeReclaimsAll(result: Result<NormalizedUserAddrs, string>)
    requires result.Ok? ==> AllAdmissible(result.value.meta)
    ensures var p := NormalizeUserAddrs(result);
      && (p.Some? ==> CUserAddrsReadable(p.value))
      && UserAddrsFree(p) == if result.Ok? then result.value.meta else []
  {
    if result.Ok? {
      var c := UserAddrsToC(result.value);
      MetasRoundTrip(result.value.meta);
      assert c.metas[..c.metaCount] == c.metas;
    }
  }

  // ---------------------------------------------------------- normalizer handles

  /** The normalizers created and not yet freed, by address; `next` is an address never handed out. */
  datatype Handles = Handles(live: set<nat>, next: nat)

  predicate HandlesValid(h: Handles)
  {
    forall p :: p in h.live ==> 0 < p < h.next
  }

  /** blaze_normalizer_new: a new non-NULL address, now live. */
  function NormalizerNew(h: Handles): (r: (Handles, nat))
    requires HandlesValid(h)
    ensures HandlesValid(r.0)
    ensures r.1 > 0 && r.1 !in h.live
    ensures r.0.live == h.live + {r.1}
  {
    var p := if h.next == 0 then 1 else h.next;
    (Handles(h.live + {p}, p + 1), p)
  }

  /** blaze_normalizer_free: NULL is ignored, a live normalizer is dropped. */
  function NormalizerFree(h: Handles, p: Option<nat>): (r: Handles)
    requires p.Some? ==> p.value in h.live
    ensures p.None? ==> r == h
    ensures p.Some? ==> r.live == h.live - {p.value} && r.next == h.next
  {
    match p
    case None => h
    case Some(q) => Handles(h.live - {q}, h.next)
  }

  /** Creating a normalizer and freeing it leaves the same normalizers live. */
  lemma NewThenFree(h: Handles)
    requires HandlesValid(h)
    ensures var (h1, p) := NormalizerNew(h);
      NormalizerFree(h1, Some(p)).live == h.live
  {
    var (h1, p) := NormalizerNew(h);
    assert h1.live - {p} == h.live;
  }
}
