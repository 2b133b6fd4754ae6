// findfunc's binary search over net_watcher's kernel symbol table, on its
// own: the table entries, the index the search settles on, and the loop.
module SymbolSearch {
  import opened BpfMaps

  /** One symbol of the table: its start address and its name. */
  datatype SymbolEntry = SymbolEntry(addr: u64, name: string)

  /**
   * The index findfunc's binary search settles on, for the part of the table
   * between `low` and `high` still to search and the index `result` it has
   * kept so far.
   */
  function SearchFrom(s: seq<SymbolEntry>, addr: u64, low: int, high: int, result: int): (r: int)
    requires 0 <= low <= high + 1 <= |s| && -1 <= result < |s|
    ensures -1 <= r < |s|
    decreases high - low + 1
  {
    if low > high then result
    else
      var mid := low + (high - low) / 2;
      if s[mid].addr < addr then SearchFrom(s, addr, mid + 1, high, mid)
      else SearchFrom(s, addr, low, mid - 1, result)
  }

  /** Whatever the order of the table, the search ends on the index it kept or on one in the part searched whose address is below `addr`. */
  lemma {:induction false} SearchKeepsBelow(s: seq<SymbolEntry>, addr: u64, low: int, high: int, result: int)
    requires 0 <= low <= high + 1 <= |s| && -1 <= result < |s|
    ensures var r := SearchFrom(s, addr, low, high, result);
      r == result || (low <= r <= high && s[r].addr < addr)
    decreases high - low + 1
  {
    if low <= high {
      var mid := low + (high - low) / 2;
      if s[mid].addr < addr {
        SearchKeepsBelow(s, addr, mid + 1, high, mid);
      } else {
        SearchKeepsBelow(s, addr, low, mid - 1, result);
      }
    }
  }

  /** One probe of the search: the midpoint lies in the part searched, and its address decides the half kept. */
  lemma SearchStep(s: seq<SymbolEntry>, addr: u64, low: int, high: int, result: int, mid: int)
    requires 0 <= low <= high < |s| && -1 <= result < |s| && mid == low + (high - low) / 2
    ensures low <= mid <= high
    ensures s[mid].addr < addr ==> SearchFrom(s, addr, low, high, result) == SearchFrom(s, addr, mid + 1, high, mid)
    ensures s[mid].addr >= addr ==> SearchFrom(s, addr, low, high, result) == SearchFrom(s, addr, low, mid - 1, result)
  {
  }

  /** The index findfunc returns the entry of: -1, or a symbol starting below `addr`. */
  function BinarySearch(s: seq<SymbolEntry>, addr: u64): (r: int)
    ensures -1 <= r < |s|
    ensures r >= 0 ==> s[r].addr < addr
  {
    SearchKeepsBelow(s, addr, 0, |s| - 1, -1);
    SearchFrom(s, addr, 0, |s| - 1, -1)
  }

  /** The loop of findfunc over the first `n` slots of the table: the index the search keeps. */
  method SearchLoop(symbols: array<SymbolEntry>, n: nat, addr: u64) returns (result: int)
    requires n <= symbols.Length
    ensures result == BinarySearch(symbols[..n], addr)
  {
    ghost var s := symbols[..n];
    var low, high := 0, n - 1;
    result := -1;
    while low <= high
      invariant 0 <= low <= high + 1 <= n && -1 <= result < n
      invariant SearchFrom(s, addr, low, high, result) == SearchFrom(s, addr, 0, n - 1, -1)
      decreases high - low + 1
    {
      var mid := low + (high - low) / 2;
      var e := symbols[mid];
      result, low, high := Advance(s, addr, low, high, result, mid, e);
    }
  }

  /** The body of findfunc's loop: one probe narrows the part still to search and keeps the index the search ends on. */
  method Advance(ghost s: seq<SymbolEntry>, addr: u64, low: int, high: int, result: int, mid: int, e: SymbolEntry)
    returns (result': int, low': int, high': int)
    requires 0 <= low <= high < |s| && -1 <= result < |s| && mid == low + (high - low) / 2 && e == s[mid]
    ensures 0 <= low' <= high' + 1 <= |s| && -1 <= result' < |s| && high' - low' < high - low
    ensures SearchFrom(s, addr, low', high', result') == SearchFrom(s, addr, low, high, result)
  {
    SearchStep(s, addr, low, high, result, mid);
    if e.addr < addr {
      result', low', high' := mid, mid + 1, high;
    } else {
      result', low', high' := result, low, mid - 1;
    }
  }
}
