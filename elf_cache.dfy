// blazesym's cache of parsed ELF files: one entry per path, remembering the
// file's identity and modification time as fstat reported them when the
// entry was built, and reused only while a new fstat of the file reports
// the same five values.
//
// The file system is an input: each lookup is given what opening, fstat
// and parsing the file would answer (a FileView). Parsers and DWARF
// resolvers are objects, so "the same backend" is object identity.
module ElfCache {
  import opened Wrappers

  /** The capacity the cache is created with; eviction is not modelled, so nothing reads it. */
  const DFL_CACHE_MAX: nat := 1024

  /** The fields of `struct stat` that is_valid compares. */
  datatype Stat = Stat(dev: int, ino: int, size: int, mtimeSec: int, mtimeNsec: int)

  /** A parsed ELF file, shared by reference counting. */
  class ElfParser {
    constructor()
    {
    }
  }

  /** A DWARF resolver built over a parser. */
  class DwarfResolver {
    const parser: ElfParser
    const lineNumberInfo: bool
    const debugInfoSymbols: bool

    constructor(parser: ElfParser, lineNumberInfo: bool, debugInfoSymbols: bool)
      ensures this.parser == parser
      ensures this.lineNumberInfo == lineNumberInfo && this.debugInfoSymbols == debugInfoSymbols
    {
      this.parser := parser;
      this.lineNumberInfo := lineNumberInfo;
      this.debugInfoSymbols := debugInfoSymbols;
    }
  }

  /** ELF with DWARF when the `dwarf` feature is on, plain ELF otherwise. */
  datatype ElfBackend = Dwarf(resolver: DwarfResolver) | Elf(parser: ElfParser)

  /** The parser under a backend, whose address the two-lookup test compares. */
  function ParserOf(b: ElfBackend): ElfParser
  {
    match b
    case Dwarf(r) => r.parser
    case Elf(p) => p
  }

  datatype Entry = Entry(dev: int, inode: int, size: int, mtimeSec: int, mtimeNsec: int, backend: ElfBackend)

  /** The stat an entry was built from. */
  function StatOf(e: Entry): Stat
  {
    Stat(e.dev, e.inode, e.size, e.mtimeSec, e.mtimeNsec)
  }

  /** is_valid: the file still has the device, inode, size and modification time recorded. */
  predicate IsValid(e: Entry, st: Stat)
  {
    st.dev == e.dev && st.ino == e.inode && st.size == e.size
    && st.mtimeSec == e.mtimeSec && st.mtimeNsec == e.mtimeNsec
  }

  /** An entry is valid for exactly the stat it was built from. */
  lemma IsValidIffSameStat(e: Entry, st: Stat)
    ensures IsValid(e, st) <==> StatOf(e) == st
  {
    if IsValid(e, st) {
      assert StatOf(e) == Stat(st.dev, st.ino, st.size, st.mtimeSec, st.mtimeNsec);
    }
  }

  datatype Error = OpenFailed(path: string) | StatFailed | ParseFailed | DwarfFailed

  /**
   * What the system answers for one lookup of a path: whether File::open
   * succeeds, what fstat reports (None when it fails), and whether the ELF
   * file and its DWARF data parse.
   */
  datatype FileView = FileView(opens: bool, stat: Option<Stat>, parses: bool, dwarfLoads: bool)

  /** The error ElfCacheEntry::new stops at, in the order it tries: fstat, the ELF parser, the DWARF resolver. */
  function CreateError(view: FileView, dwarf: bool): (r: Option<Error>)
    ensures r.None? <==> view.stat.Some? && view.parses && (dwarf ==> view.dwarfLoads)
    ensures r == Some(StatFailed) <==> view.stat.None?
  {
    if view.stat.None? then Some(StatFailed)
    else if !view.parses then Some(ParseFailed)
    else if dwarf && !view.dwarfLoads then Some(DwarfFailed)
    else None
  }

  /**
   * ElfCacheEntry::new: a new entry recording the file's stat over a newly
   * opened parser, or the first error on the way.
   */
  method NewEntry(view: FileView, lineNumberInfo: bool, debugInfoSymbols: bool, dwarf: bool)
    returns (r: Result<Entry, Error>)
    ensures CreateError(view, dwarf).Some? ==> r == Err(CreateError(view, dwarf).value)
    ensures CreateError(view, dwarf).None? ==> r.Ok? && StatOf(r.value) == view.stat.value
    ensures r.Ok? ==> fresh(ParserOf(r.value.backend)) && (r.value.backend.Dwarf? <==> dwarf)
    ensures r.Ok? && r.value.backend.Dwarf? ==>
      && fresh(r.value.backend.resolver)
      && r.value.backend.resolver.lineNumberInfo == lineNumberInfo
      && r.value.backend.resolver.debugInfoSymbols == debugInfoSymbols
  {
    if view.stat.None? {
      return Err(StatFailed);
    }
    var st := view.stat.value;
    if !view.parses {
      return Err(ParseFailed);
    }
    var parser := new ElfParser();
    var backend: ElfBackend;
    if dwarf {
      if !view.dwarfLoads {
        return Err(DwarfFailed);
      }
      var resolver := new DwarfResolver(parser, lineNumberInfo, debugInfoSymbols);
      backend := Dwarf(resolver);
    } else {
      backend := Elf(parser);
    }
    r := Ok(Entry(st.dev, st.ino, st.size, st.mtimeSec, st.mtimeNsec, backend));
  }

  /** What a cached lookup finds before it would build: a reusable backend, an fstat error, or nothing usable. */
  datatype Probe = Hit(backend: ElfBackend) | Fail(error: Error) | Miss

  function ProbeCache(cache: map<string, Entry>, path: string, view: FileView): (p: Probe)
    ensures p.Hit? <==> path in cache && view.stat.Some? && IsValid(cache[path], view.stat.value)
    ensures p.Hit? ==> p.backend == cache[path].backend
    ensures p.Fail? <==> path in cache && view.stat.None?
    ensures p.Fail? ==> p.error == StatFailed
  {
    if path !in cache then Miss
    else if view.stat.None? then Fail(StatFailed)
    else if IsValid(cache[path], view.stat.value) then Hit(cache[path].backend)
    else Miss
  }

  /**
   * The outcome of one `find` from cache `c0` to cache `c1`: an open error, a
   * reused entry, an error that leaves the cache alone, or a newly built
   * backend recorded under the path (with `lru`) or handed out uncached.
   */
  predicate Outcome(c0: map<string, Entry>, path: string, view: FileView, lru: bool, dwarf: bool,
                    r: Result<ElfBackend, Error>, c1: map<string, Entry>)
  {
    if !view.opens then r == Err(OpenFailed(path)) && c1 == c0
    else if lru && ProbeCache(c0, path, view).Hit? then r == Ok(ProbeCache(c0, path, view).backend) && c1 == c0
    else if lru && ProbeCache(c0, path, view).Fail? then r == Err(StatFailed) && c1 == c0
    else if CreateError(view, dwarf).Some? then r == Err(CreateError(view, dwarf).value) && c1 == c0
    else
      && r.Ok? && (r.value.Dwarf? <==> dwarf)
      && if lru then path in c1 && c1 == c0[path := c1[path]] && c1[path].backend == r.value && StatOf(c1[path]) == view.stat.value
         else c1 == c0
  }

  /** _ElfCache and the RefCell around it: the entries by path, and the build options. */
  class ElfCache {
    var cache: map<string, Entry>
    const lineNumberInfo: bool
    const debugInfoSymbols: bool
    /** The `lru` feature: without it there is no cache at all. */
    const lru: bool
    /** The `dwarf` feature: backends are DWARF resolvers. */
    const dwarf: bool

    ghost predicate Valid()
      reads this`cache
    {
      !lru ==> cache == map[]
    }

    constructor(lineNumberInfo: bool, debugInfoSymbols: bool, lru: bool, dwarf: bool)
      ensures Valid() && cache == map[]
      ensures this.lineNumberInfo == lineNumberInfo && this.debugInfoSymbols == debugInfoSymbols
      ensures this.lru == lru && this.dwarf == dwarf
    {
      cache := map[];
      this.lineNumberInfo := lineNumberInfo;
      this.debugInfoSymbols := debugInfoSymbols;
      this.lru := lru;
      this.dwarf := dwarf;
    }

    /** find_or_create_backend with the `lru` feature, on a file that opened. */
    method FindOrCreateBackend(path: string, view: FileView) returns (r: Result<ElfBackend, Error>)
      requires lru && view.opens
      modifies this`cache
      ensures Outcome(old(cache), path, view, lru, dwarf, r, cache)
      ensures r.Ok? && !ProbeCache(old(cache), path, view).Hit? ==> fresh(ParserOf(r.value))
    {
      var probe := ProbeCache(cache, path, view);
      if probe.Hit? {
        return Ok(probe.backend);
      }
      if probe.Fail? {
        return Err(probe.error);
      }
      var entry := NewEntry(view, lineNumberInfo, debugInfoSymbols, dwarf);
      if entry.Err? {
        return Err(entry.error);
      }
      cache := cache[path := entry.value];
      r := Ok(entry.value.backend);
    }

    /** find_or_create_backend without the `lru` feature: always a new backend, nothing kept. */
    method FindOrCreateBackendUncached(path: string, view: FileView) returns (r: Result<ElfBackend, Error>)
      requires !lru && view.opens
      ensures Outcome(cache, path, view, lru, dwarf, r, cache)
      ensures r.Ok? ==> fresh(ParserOf(r.value))
    {
      var entry := NewEntry(view, lineNumberInfo, debugInfoSymbols, dwarf);
      if entry.Err? {
        return Err(entry.error);
      }
      r := Ok(entry.value.backend);
    }

    /** ElfCache::find: open the file, or report the path it could not open. */
    method Find(path: string, view: FileView) returns (r: Result<ElfBackend, Error>)
      requires Valid()
      modifies this`cache
      ensures Valid()
      ensures Outcome(old(cache), path, view, lru, dwarf, r, cache)
      ensures r.Ok? && !(lru && ProbeCache(old(cache), path, view).Hit?) ==> fresh(ParserOf(r.value))
    {
      if !view.opens {
        return Err(OpenFailed(path));
      }
      if lru {
        r := FindOrCreateBackend(path, view);
      } else {
        r := FindOrCreateBackendUncached(path, view);
      }
    }

    /**
     * Two finds of a file that did not change in between: with the cache
     * both hand out the same parser; without it each builds its own.
     */
    method FindTwice(path: string, view: FileView) returns (first: Result<ElfBackend, Error>, second: Result<ElfBackend, Error>)
      requires Valid()
      modifies this`cache
      ensures Valid()
      ensures lru && first.Ok? ==> second == first
      ensures !lru && first.Ok? && second.Ok? ==> ParserOf(first.value) != ParserOf(second.value)
    {
      first := Find(path, view);
      ghost var c1 := cache;
      second := Find(path, view);
      if lru && first.Ok? {
        SecondLookupHits(old(cache), c1, cache, path, view, dwarf, first, second);
      }
    }
  }

  /** A file that did not change is served from the entry the first lookup left, and the cache stays as it was. */
  lemma SecondLookupHits(c0: map<string, Entry>, c1: map<string, Entry>, c2: map<string, Entry>,
                         path: string, view: FileView, dwarf: bool,
                         r1: Result<ElfBackend, Error>, r2: Result<ElfBackend, Error>)
    requires Outcome(c0, path, view, true, dwarf, r1, c1) && r1.Ok?
    requires Outcome(c1, path, view, true, dwarf, r2, c2)
    ensures r2 == r1 && c2 == c1
  {
    assert view.opens && view.stat.Some?;
    var st := view.stat.value;
    assert path in c1 && c1[path].backend == r1.value by {
      if !ProbeCache(c0, path, view).Hit? {
        assert CreateError(view, dwarf).None?;
      }
    }
    assert IsValid(c1[path], st) by {
      if ProbeCache(c0, path, view).Hit? {
        assert c1 == c0;
      } else {
        IsValidIffSameStat(c1[path], st);
      }
    }
  }

  /** A stale entry is replaced by one valid for the file as it is now, and that entry's backend is returned. */
  lemma StaleEntryReplaced(c0: map<string, Entry>, c1: map<string, Entry>,
                           path: string, view: FileView, dwarf: bool, r: Result<ElfBackend, Error>)
    requires Outcome(c0, path, view, true, dwarf, r, c1)
    requires view.opens && view.stat.Some? && path in c0 && !IsValid(c0[path], view.stat.value)
    requires CreateError(view, dwarf).None?
    ensures path in c1 && IsValid(c1[path], view.stat.value) && r == Ok(c1[path].backend)
    ensures forall p :: p in c0 && p != path ==> p in c1 && c1[p] == c0[p]
  {
    IsValidIffSameStat(c1[path], view.stat.value);
  }

  /** When the new entry cannot be built the error is returned and nothing is inserted. */
  lemma CreateErrorInsertsNothing(c0: map<string, Entry>, c1: map<string, Entry>,
                                  path: string, view: FileView, lru: bool, dwarf: bool, r: Result<ElfBackend, Error>)
    requires Outcome(c0, path, view, lru, dwarf, r, c1)
    requires view.opens && !(lru && ProbeCache(c0, path, view).Hit?)
    requires CreateError(view, dwarf).Some?
    ensures r.Err? && c1 == c0
    ensures r.error == CreateError(view, dwarf).value
  {
  }
}
