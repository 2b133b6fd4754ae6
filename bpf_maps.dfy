// Fixed-width integers and the semantics of the eBPF hash-map helpers that
// the kernel-side programs call.  A hash map holds at most `cap` keys; an
// update of a new key into a full map fails with -E2BIG, and a BPF_NOEXIST
// update of a present key fails with -EEXIST.
module BpfMaps {
  const U32_LIMIT: int := 0x1_0000_0000
  const U64_LIMIT: int := 0x1_0000_0000_0000_0000

  type u32 = n: int | 0 <= n < U32_LIMIT
  type u64 = n: int | 0 <= n < U64_LIMIT

  /** C unsigned addition wraps modulo the width: the exact sum, or one wrap past the limit. */
  function AddU32(a: u32, b: u32): (r: u32)
    ensures a + b < U32_LIMIT ==> r == a + b
    ensures a + b >= U32_LIMIT ==> r == a + b - U32_LIMIT
  {
    (a + b) % U32_LIMIT
  }

  /** C unsigned subtraction: the exact difference, or one wrap below zero. */
  function SubU32(a: u32, b: u32): (r: u32)
    ensures b <= a ==> r == a - b
    ensures a < b ==> r == a - b + U32_LIMIT
  {
    (a - b) % U32_LIMIT
  }

  function AddU64(a: u64, b: u64): (r: u64)
    ensures a + b < U64_LIMIT ==> r == a + b
    ensures a + b >= U64_LIMIT ==> r == a + b - U64_LIMIT
  {
    (a + b) % U64_LIMIT
  }

  function SubU64(a: u64, b: u64): (r: u64)
    ensures b <= a ==> r == a - b
    ensures a < b ==> r == a - b + U64_LIMIT
  {
    (a - b) % U64_LIMIT
  }

  /**
   * A conversion of any integer to a 32-bit or 64-bit unsigned type keeps the
   * low bits: a value in range is kept, and any other differs from the result
   * by a multiple of the limit.
   */
  function ToU32(n: int): (r: u32)
    ensures 0 <= n < U32_LIMIT ==> r == n
    ensures (n - r) % U32_LIMIT == 0
  {
    n % U32_LIMIT
  }

  function ToU64(n: int): (r: u64)
    ensures 0 <= n < U64_LIMIT ==> r == n
    ensures (n - r) % U64_LIMIT == 0
  {
    n % U64_LIMIT
  }

  const ENOENT: int := 2
  const E2BIG: int := 7
  const EEXIST: int := 17

  /** The `flags` argument of bpf_map_update_elem. */
  datatype UpdateFlag = BpfAny | BpfNoExist | BpfExist

  /** The map after an update and the helper's return value (0 or a negative errno). */
  datatype Updated<K, V> = Updated(m: map<K, V>, err: int)

  /** bpf_map_update_elem on a hash map of capacity `cap`. */
  function Update<K, V>(m: map<K, V>, cap: nat, k: K, v: V, flag: UpdateFlag): (r: Updated<K, V>)
    ensures r.err == 0 || r.m == m
    ensures r.err == 0 ==> r.m == m[k := v]
    ensures flag == BpfNoExist && k in m ==> r.err == -EEXIST
    ensures flag == BpfExist && k !in m ==> r.err == -ENOENT
    ensures flag != BpfExist && k !in m ==> (r.err == 0 <==> |m| < cap)
    ensures flag != BpfNoExist && k in m ==> r.err == 0
  {
    if flag == BpfNoExist && k in m then Updated(m, -EEXIST)
    else if flag == BpfExist && k !in m then Updated(m, -ENOENT)
    else if k !in m && |m| >= cap then Updated(m, -E2BIG)
    else Updated(m[k := v], 0)
  }

  /** bpf_map_delete_elem, whose return value the modelled programs ignore. */
  function Delete<K, V>(m: map<K, V>, k: K): (r: map<K, V>)
    ensures k !in r && forall j :: j in m && j != k ==> j in r && r[j] == m[j]
    ensures forall j :: j in r ==> j in m
  {
    m - {k}
  }

  /** An update never lets a map grow past its capacity. */
  lemma UpdateKeepsCapacity<K, V>(m: map<K, V>, cap: nat, k: K, v: V, flag: UpdateFlag)
    requires |m| <= cap
    ensures |Update(m, cap, k, v, flag).m| <= cap
  {
    var r := Update(m, cap, k, v, flag);
    if r.err == 0 && k !in m {
      assert r.m.Keys == m.Keys + {k};
    } else if r.err == 0 {
      assert r.m.Keys == m.Keys;
    }
  }

  /** Both update flags that insert behave alike on an absent key. */
  lemma InsertFlagsAgree<K, V>(m: map<K, V>, cap: nat, k: K, v: V)
    requires k !in m
    ensures Update(m, cap, k, v, BpfAny).m == Update(m, cap, k, v, BpfNoExist).m
  {
  }
}
