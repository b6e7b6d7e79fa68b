/** The per-type cache of plugin functions (src/config/PipelineFactory.h). */
module PipelineFactory {
  import opened Wrappers
  import opened ConfigTypes

  datatype Kind = Proxy | Protocol | Libuv | ApiGateway

  type Table = map<string, Pointer>

  datatype Tables = Tables(proxy: Table, protocol: Table, libuv: Table, apiGateway: Table) {
    function Get(kind: Kind): Table {
      match kind
      case Proxy => proxy
      case Protocol => protocol
      case Libuv => libuv
      case ApiGateway => apiGateway
    }

    function Put(kind: Kind, table: Table): Tables {
      match kind
      case Proxy => this.(proxy := table)
      case Protocol => this.(protocol := table)
      case Libuv => this.(libuv := table)
      case ApiGateway => this.(apiGateway := table)
    }
  }

  /** A file of the plugins folder, with the two names libnameothy takes from its path. */
  datatype Library = Library(path: string, base: string, symbol: string)

  /** dlopen succeeds or not; dlsym gives an error (None) or a pointer, which may be null. */
  datatype Linker = Linker(opens: string -> bool, symbols: (string, string) -> Option<Pointer>)

  /** A library handle that was opened and not closed again. */
  datatype Handle = Handle(kind: Kind, symbol: string)

  datatype Cache = Cache(tables: Tables, handles: seq<Handle>)

  /** The library is the first with that base name. */
  ghost predicate IsFirst(libraries: seq<Library>, plugin: string, library: Library) {
    exists k :: 0 <= k < |libraries| && IsFirstAt(libraries, plugin, library, k)
  }

  ghost predicate IsFirstAt(libraries: seq<Library>, plugin: string, library: Library, k: nat)
    requires k < |libraries|
  {
    libraries[k] == library && library.base == plugin && forall j :: 0 <= j < k ==> libraries[j].base != plugin
  }

  lemma FirstOfRest(libraries: seq<Library>, plugin: string, found: Option<Library>)
    requires libraries != [] && libraries[0].base != plugin
    requires found.Some? ==> IsFirst(libraries[1..], plugin, found.value)
    requires found.None? ==> forall l :: l in libraries[1..] ==> l.base != plugin
    ensures found.Some? ==> IsFirst(libraries, plugin, found.value)
    ensures found.None? ==> forall l :: l in libraries ==> l.base != plugin
  {
    assert libraries == [libraries[0]] + libraries[1..];
    if found.Some? {
      var k :| 0 <= k < |libraries[1..]| && IsFirstAt(libraries[1..], plugin, found.value, k);
      assert IsFirstAt(libraries, plugin, found.value, k + 1);
    }
  }

  /** The first library, in the order of the set of paths, with that base name. */
  function FindLibrary(libraries: seq<Library>, plugin: string): (found: Option<Library>)
    ensures found.Some? ==> IsFirst(libraries, plugin, found.value)
    ensures found.None? ==> forall l :: l in libraries ==> l.base != plugin
  {
    if libraries == [] then None
    else if libraries[0].base == plugin then
      assert IsFirstAt(libraries, plugin, libraries[0], 0);
      Some(libraries[0])
    else
      var later := FindLibrary(libraries[1..], plugin);
      FirstOfRest(libraries, plugin, later);
      later
  }

  predicate Cached(cache: Cache, kind: Kind, symbol: string) {
    symbol in cache.tables.Get(kind) && cache.tables.Get(kind)[symbol] != 0
  }

  function Register(libraries: seq<Library>, linker: Linker, cache: Cache, kind: Kind, plugin: string): (Cache, bool) {
    var library := FindLibrary(libraries, plugin);
    if library.None? then (cache, false)
    else
      var Library(path, _, symbol) := library.value;
      if Cached(cache, kind, symbol) then (cache, true)
      else if !linker.opens(path) || linker.symbols(path, symbol).None? then (cache, false)
      else
        var table := cache.tables.Get(kind)[symbol := linker.symbols(path, symbol).value];
        (Cache(cache.tables.Put(kind, table), cache.handles + [Handle(kind, symbol)]), true)
  }

  function Lookup(tables: Tables, kind: Kind, plugin: string): Pointer {
    if plugin in tables.Get(kind) then tables.Get(kind)[plugin] else 0
  }

  class Factory {
    const libraries: seq<Library>
    var tables: Tables
    var handles: seq<Handle>

    constructor (libraries: seq<Library>)
      ensures this.libraries == libraries && View() == Cache(Tables(map[], map[], map[], map[]), [])
    {
      this.libraries := libraries;
      tables := Tables(map[], map[], map[], map[]);
      handles := [];
    }

    function View(): Cache
      reads this
    {
      Cache(tables, handles)
    }

    /** False is the thrown std::runtime_error. */
    method RegisterPipeline(kind: Kind, plugin: string, linker: Linker) returns (ok: bool)
      modifies this
      ensures (View(), ok) == Register(libraries, linker, old(View()), kind, plugin)
      ensures !ok ==> View() == old(View())
      ensures ok ==>
                FindLibrary(libraries, plugin).Some? && FindLibrary(libraries, plugin).value.symbol in tables.Get(kind)
    {
      var library := FindLibrary(libraries, plugin);
      if library.None? {
        return false;
      }
      var path, symbol := library.value.path, library.value.symbol;
      var table := tables.Get(kind);
      if symbol in table && table[symbol] != 0 {
        return true;
      }
      if !linker.opens(path) {
        return false;
      }
      var pipeline := linker.symbols(path, symbol);
      if pipeline.None? {
        return false;
      }
      handles := handles + [Handle(kind, symbol)];
      tables := tables.Put(kind, table[symbol := pipeline.value]);
      return true;
    }
  }

  // ----- Any run of registrations over a fixed set of libraries -----

  datatype Registration = Registration(kind: Kind, plugin: string, linker: Linker)

  function Run(libraries: seq<Library>, cache: Cache, run: seq<Registration>): Cache {
    if run == [] then cache
    else
      var last := run[|run| - 1];
      Register(libraries, last.linker, Run(libraries, cache, run[..|run| - 1]), last.kind, last.plugin).0
  }

  /** A cached function never changes again. */
  lemma {:induction false} CachedForEver(libraries: seq<Library>, cache: Cache, run: seq<Registration>, kind: Kind,
                                         symbol: string)
    requires Cached(cache, kind, symbol)
    ensures Cached(Run(libraries, cache, run), kind, symbol)
    ensures Run(libraries, cache, run).tables.Get(kind)[symbol] == cache.tables.Get(kind)[symbol]
  {
    if run != [] {
      var last := run[|run| - 1];
      CachedForEver(libraries, cache, run[..|run| - 1], kind, symbol);
      CachedOnce(libraries, last.linker, Run(libraries, cache, run[..|run| - 1]), last.kind, last.plugin, kind, symbol);
    }
  }

  lemma CachedOnce(libraries: seq<Library>, linker: Linker, cache: Cache, kind: Kind, plugin: string, k: Kind,
                   symbol: string)
    requires Cached(cache, k, symbol)
    ensures var after := Register(libraries, linker, cache, kind, plugin).0;
            Cached(after, k, symbol) && after.tables.Get(k)[symbol] == cache.tables.Get(k)[symbol]
  {
  }

  /** Registrations of other types leave a type's table alone. */
  lemma {:induction false} KindsAreSeparate(libraries: seq<Library>, cache: Cache, run: seq<Registration>, kind: Kind)
    requires forall r :: r in run ==> r.kind != kind
    ensures Run(libraries, cache, run).tables.Get(kind) == cache.tables.Get(kind)
  {
    if run != [] {
      var init := run[..|run| - 1];
      KindsAreSeparate(libraries, cache, init, kind);
      assert run[|run| - 1] in run;
    }
  }

  /** The handles kept open for one type. */
  function HandlesOf(handles: seq<Handle>, kind: Kind): nat {
    if handles == [] then 0
    else HandlesOf(handles[..|handles| - 1], kind) + if handles[|handles| - 1].kind == kind then 1 else 0
  }

  function Symbols(libraries: seq<Library>): set<string> {
    set l | l in libraries :: l.symbol
  }

  /** No library that a plugin name leads to opens with a null symbol. */
  ghost predicate NeverNull(libraries: seq<Library>, linker: Linker) {
    forall plugin :: !OpensNull(libraries, linker, plugin)
  }

  /** The plugin's library opens, and dlsym succeeds with a null pointer. */
  predicate OpensNull(libraries: seq<Library>, linker: Linker, plugin: string) {
    var library := FindLibrary(libraries, plugin);
    && library.Some? && linker.opens(library.value.path)
    && linker.symbols(library.value.path, library.value.symbol) == Some(0)
  }

  /** For one type: as many handles as entries, every entry a library's symbol and not null. */
  ghost predicate Tight(libraries: seq<Library>, cache: Cache, kind: Kind) {
    && HandlesOf(cache.handles, kind) == |cache.tables.Get(kind)|
    && cache.tables.Get(kind).Keys <= Symbols(libraries)
    && forall symbol :: symbol in cache.tables.Get(kind) ==> cache.tables.Get(kind)[symbol] != 0
  }

  lemma OneMoreEntry(table: Table, symbol: string, pointer: Pointer)
    ensures table[symbol := pointer].Keys == table.Keys + {symbol}
    ensures |table[symbol := pointer]| == |table| + if symbol in table then 0 else 1
  {
    assert |table.Keys + {symbol}| == |table.Keys| + if symbol in table then 0 else 1;
    assert |table| == |table.Keys| && |table[symbol := pointer]| == |table[symbol := pointer].Keys|;
  }

  lemma OneMoreHandle(handles: seq<Handle>, handle: Handle, kind: Kind)
    ensures HandlesOf(handles + [handle], kind) == HandlesOf(handles, kind) + if handle.kind == kind then 1 else 0
  {
    assert (handles + [handle])[..|handles|] == handles;
  }

  /** A registration changes nothing, or adds one handle and one entry for a library's symbol. */
  lemma RegisterAdds(libraries: seq<Library>, linker: Linker, cache: Cache, kind: Kind, plugin: string, k: Kind)
    returns (handle: Handle, pointer: Pointer)
    requires !OpensNull(libraries, linker, plugin)
    ensures var after := Register(libraries, linker, cache, kind, plugin).0;
            after == cache ||
            (&& !Cached(cache, kind, handle.symbol) && handle.symbol in Symbols(libraries) && pointer != 0
             && handle.kind == kind && after.handles == cache.handles + [handle]
             && after.tables.Get(k) ==
                if k == kind then cache.tables.Get(k)[handle.symbol := pointer] else cache.tables.Get(k))
  {
    var library := FindLibrary(libraries, plugin);
    handle, pointer := Handle(kind, ""), 0;
    if Register(libraries, linker, cache, kind, plugin).0 != cache {
      handle := Handle(kind, library.value.symbol);
      pointer := linker.symbols(library.value.path, library.value.symbol).value;
    }
  }

  lemma RegisterKeepsTight(libraries: seq<Library>, linker: Linker, cache: Cache, kind: Kind, plugin: string, k: Kind)
    requires Tight(libraries, cache, k) && !OpensNull(libraries, linker, plugin)
    ensures Tight(libraries, Register(libraries, linker, cache, kind, plugin).0, k)
  {
    var handle, pointer := RegisterAdds(libraries, linker, cache, kind, plugin, k);
    OneMoreHandle(cache.handles, handle, k);
    OneMoreEntry(cache.tables.Get(k), handle.symbol, pointer);
  }

  lemma {:induction false} RunKeepsTight(libraries: seq<Library>, cache: Cache, run: seq<Registration>, k: Kind)
    requires Tight(libraries, cache, k) && forall r :: r in run ==> !OpensNull(libraries, r.linker, r.plugin)
    ensures Tight(libraries, Run(libraries, cache, run), k)
  {
    if run != [] {
      RunKeepsTight(libraries, cache, run[..|run| - 1], k);
      var last := run[|run| - 1];
      assert last in run;
      RegisterKeepsTight(libraries, last.linker, Run(libraries, cache, run[..|run| - 1]), last.kind, last.plugin, k);
    }
  }

  lemma SubsetIsSmaller<T>(a: set<T>, b: set<T>)
    requires a <= b
    ensures |a| <= |b|
  {
    if a != {} {
      var x :| x in a;
      SubsetIsSmaller(a - {x}, b - {x});
    }
  }

  const NOTHING: Cache := Cache(Tables(map[], map[], map[], map[]), [])

  /**
    However often the plugins are registered, each type keeps at most as many
    libraries open as there are distinct symbols: one per cached function.
   */
  lemma OpensAreBounded(libraries: seq<Library>, run: seq<Registration>, kind: Kind)
    requires forall r :: r in run ==> !OpensNull(libraries, r.linker, r.plugin)
    ensures var cache := Run(libraries, NOTHING, run);
            HandlesOf(cache.handles, kind) == |cache.tables.Get(kind)| <= |Symbols(libraries)|
  {
    assert NOTHING.tables.Get(kind) == map[];
    RunKeepsTight(libraries, NOTHING, run, kind);
    SubsetIsSmaller(Run(libraries, NOTHING, run).tables.Get(kind).Keys, Symbols(libraries));
  }

  /** n registrations of the same plugin. */
  function Repeated(kind: Kind, plugin: string, linker: Linker, n: nat): seq<Registration> {
    seq(n, _ => Registration(kind, plugin, linker))
  }

  /** A null symbol is cached as absent, and its library opened again on every registration. */
  lemma {:induction false} NullSymbolIsReopened(libraries: seq<Library>, linker: Linker, kind: Kind, plugin: string,
                                                n: nat)
    requires OpensNull(libraries, linker, plugin)
    ensures var cache := Run(libraries, NOTHING, Repeated(kind, plugin, linker, n));
            && HandlesOf(cache.handles, kind) == n
            && !Cached(cache, kind, FindLibrary(libraries, plugin).value.symbol)
  {
    if n > 0 {
      NullSymbolIsReopened(libraries, linker, kind, plugin, n - 1);
      var run := Repeated(kind, plugin, linker, n);
      assert run[..n - 1] == Repeated(kind, plugin, linker, n - 1);
      assert run[n - 1] == Registration(kind, plugin, linker);
      NullOnce(libraries, linker, Run(libraries, NOTHING, run[..n - 1]), kind, plugin);
    }
  }

  lemma NullOnce(libraries: seq<Library>, linker: Linker, cache: Cache, kind: Kind, plugin: string)
    requires OpensNull(libraries, linker, plugin) && !Cached(cache, kind, FindLibrary(libraries, plugin).value.symbol)
    ensures var after := Register(libraries, linker, cache, kind, plugin).0;
            && HandlesOf(after.handles, kind) == HandlesOf(cache.handles, kind) + 1
            && !Cached(after, kind, FindLibrary(libraries, plugin).value.symbol)
  {
    OneMoreHandle(cache.handles, Handle(kind, FindLibrary(libraries, plugin).value.symbol), kind);
  }

  /** Every run with that linker keeps at most one library open per distinct symbol, for every type. */
  ghost predicate Bounded(libraries: seq<Library>, linker: Linker) {
    forall run: seq<Registration>, kind :: (forall r :: r in run ==> r.linker == linker) ==>
      HandlesOf(Run(libraries, NOTHING, run).handles, kind) <= |Symbols(libraries)|
  }

  /** The bound holds exactly when no library a plugin name leads to opens with a null symbol. */
  lemma BoundedExactlyWhenNeverNull(libraries: seq<Library>, linker: Linker)
    ensures Bounded(libraries, linker) <==> NeverNull(libraries, linker)
  {
    if NeverNull(libraries, linker) {
      forall run: seq<Registration>, kind | forall r :: r in run ==> r.linker == linker
        ensures HandlesOf(Run(libraries, NOTHING, run).handles, kind) <= |Symbols(libraries)|
      {
        OpensAreBounded(libraries, run, kind);
      }
    } else {
      var plugin :| OpensNull(libraries, linker, plugin);
      var n := |Symbols(libraries)| + 1;
      NullSymbolIsReopened(libraries, linker, Proxy, plugin, n);
      var run := Repeated(Proxy, plugin, linker, n);
      assert forall r :: r in run ==> r.linker == linker;
      assert HandlesOf(Run(libraries, NOTHING, run).handles, Proxy) == n;
    }
  }

  /**
    What a lookup by the plugin's own name gives after a successful
    registration: the function dlsym found, when the two names agree and nothing
    was cached; what was cached under that name before, in every other case.
   */
  lemma LookupIs(libraries: seq<Library>, linker: Linker, cache: Cache, kind: Kind, plugin: string)
    requires Register(libraries, linker, cache, kind, plugin).1
    ensures var after := Register(libraries, linker, cache, kind, plugin).0;
            var library, table := FindLibrary(libraries, plugin).value, cache.tables.Get(kind);
            if library.symbol == plugin && !Cached(cache, kind, plugin)
            then Some(Lookup(after.tables, kind, plugin)) == linker.symbols(library.path, plugin)
            else Lookup(after.tables, kind, plugin) == if plugin in table then table[plugin] else 0
  {
  }

  /**
    After a successful registration the plugin's own name finds a function
    exactly when that name had one before, or the library's two names agree and
    its symbol is not null.
   */
  lemma LookupAfterRegister(libraries: seq<Library>, linker: Linker, cache: Cache, kind: Kind, plugin: string)
    requires Register(libraries, linker, cache, kind, plugin).1
    ensures var after := Register(libraries, linker, cache, kind, plugin).0;
            var library := FindLibrary(libraries, plugin).value;
            Lookup(after.tables, kind, plugin) != 0 <==>
            Lookup(cache.tables, kind, plugin) != 0
            || (library.symbol == plugin && linker.symbols(library.path, library.symbol) != Some(0))
  {
  }
}
