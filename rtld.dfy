/** The loader's module objects (src/rtld/mod.rs): the doubly linked lists of loaded
    modules, address-to-module and address-to-symbol lookup, module-name recovery and
    locating this module's own object from its MOD0 header.

    Loader memory is not owned by this code; it is given to the model as values: the
    memory-region query as a function `Process.query`, raw bytes as `Process.read`, and
    the module objects as a map from their addresses. Addresses are integers below
    2^64 and pointer arithmetic on them wraps modulo 2^64 (`Wrap`), as `u64` and raw
    pointer addition do in a release build. */
module Rtld {
  import opened Wrappers

  const Two64: int := 0x1_0000_0000_0000_0000
  const Two32: int := 0x1_0000_0000

  type Addr = x: int | 0 <= x < Two64
  type Byte = x: int | 0 <= x < 256
  type U16 = x: int | 0 <= x < 0x1_0000
  type U32 = x: int | 0 <= x < Two32

  /** `u64` addition and subtraction as a release build performs them: modulo 2^64. The
      sum or difference of two `u64` values lies within one turn of the range. */
  function Wrap(x: int): (a: Addr)
    requires -Two64 <= x < 2 * Two64
  {
    if x < 0 then x + Two64 else if x < Two64 then x else x - Two64
  }

  /** What the memory query reports for an address: the region containing it. */
  datatype MemInfo = MemInfo(addr: Addr, size: Addr)

  /** The last address of a region counted as inside it by `contains_address`. */
  function RegionEnd(info: MemInfo): Addr
  {
    Wrap(info.addr + info.size)
  }

  /** The parts of the running process the lookups read. */
  datatype Process = Process(query: Addr -> Option<MemInfo>, read: Addr -> Byte)

  /** `u32` stored little-endian at `a`. */
  function Read32(p: Process, a: Addr): (w: U32)
  {
    ReadLe(p, a, 4)
  }

  /** The `n`-byte little-endian value at `a`, for `n` up to 4. */
  function ReadLe(p: Process, a: Addr, n: nat): (v: nat)
    requires n <= 4
    ensures v < if n == 4 then Two32 else if n == 3 then 0x100_0000 else if n == 2 then 0x1_0000 else if n == 1 then 0x100 else 1
    decreases n
  {
    if n == 0 then 0 else p.read(a) + 0x100 * ReadLe(p, Wrap(a + 1), n - 1)
  }

  /** `n` bytes starting at `a`. */
  function ReadBytes(p: Process, a: Addr, n: nat): (s: seq<Byte>)
    ensures |s| == n
    decreases n
  {
    if n == 0 then [] else [p.read(a)] + ReadBytes(p, Wrap(a + 1), n - 1)
  }

  // ---------------------------------------------------------------------------
  // ELF symbols and module objects

  /** An `Elf64_Sym`. */
  datatype Sym = Sym(stName: nat, stInfo: Byte, stShndx: U16, stValue: Addr, stSize: Addr)

  /** The fields of the loader's `ModuleObject` that the lookups use. `dynsym` and
      `dynstr` are the tables the object's pointers refer to. */
  datatype ModuleObject = ModuleObject(
    next: Addr,
    prev: Addr,
    moduleBase: Addr,
    dynstr: seq<Byte>,
    dynsym: seq<Sym>,
    hashNchainValue: nat)

  /** The section index is reserved: its high byte is 0xFF (`shndx & 0xFF00 == 0xFF00`). */
  predicate IsReservedSection(shndx: U16)
    ensures IsReservedSection(shndx) <==> 0xFF00 <= shndx
  {
    shndx / 0x100 == 0xFF
  }

  /** The symbol type, the low nibble of `st_info` (`st_info & 0xF`). */
  function SymbolType(s: Sym): (t: int)
    ensures 0 <= t < 0x10
    ensures s.stInfo < 0x10 ==> t == s.stInfo
  {
    s.stInfo % 0x10
  }

  const SttFunc := 2

  /** A defined function symbol: a section index that is neither undefined (0) nor
      reserved, and type `STT_FUNC`. */
  predicate IsDefinedFunction(s: Sym)
  {
    !(s.stShndx == 0 || IsReservedSection(s.stShndx)) && SymbolType(s) == SttFunc
  }

  function SymbolStart(m: ModuleObject, s: Sym): Addr
  {
    Wrap(m.moduleBase + s.stValue)
  }

  /** Where the symbol ends: its start plus its size, wrapping like `u64` addition. */
  function SymbolEnd(m: ModuleObject, s: Sym): Addr
  {
    Wrap(SymbolStart(m, s) + s.stSize)
  }

  /** The symbol's extent, with both ends included. */
  predicate Covers(m: ModuleObject, s: Sym, address: Addr)
  {
    SymbolStart(m, s) <= address <= SymbolEnd(m, s)
  }

  predicate MatchesAt(m: ModuleObject, k: nat, address: Addr)
    requires k < |m.dynsym|
  {
    IsDefinedFunction(m.dynsym[k]) && Covers(m, m.dynsym[k], address)
  }

  /** The symbol table the loader hands over: `hash_nchain_value` entries, and a string
      table in which every entry's name starts inside the table and the table ends in a
      NUL, so every name is NUL-terminated. */
  predicate TablesWellFormed(m: ModuleObject)
  {
    m.hashNchainValue <= |m.dynsym|
    && |m.dynstr| > 0 && m.dynstr[|m.dynstr| - 1] == 0
    && forall k :: 0 <= k < m.hashNchainValue ==> m.dynsym[k].stName < |m.dynstr|
  }

  /** The C string at `off`: the bytes up to, not including, the first NUL. */
  function CString(s: seq<Byte>, off: nat): (name: seq<Byte>)
    requires off < |s| && s[|s| - 1] == 0
    ensures off + |name| < |s| && s[off + |name|] == 0
    ensures name == s[off .. off + |name|]
    ensures forall k :: 0 <= k < |name| ==> name[k] != 0
    decreases |s| - off
  {
    if s[off] == 0 then [] else [s[off]] + CString(s, off + 1)
  }

  /** The index of the first symbol from `from` on that is a defined function covering
      `address`, or `hash_nchain_value` when there is none. */
  function FirstMatch(m: ModuleObject, address: Addr, from: nat): (k: nat)
    requires TablesWellFormed(m) && from <= m.hashNchainValue
    ensures from <= k <= m.hashNchainValue
    decreases m.hashNchainValue - from
  {
    if from == m.hashNchainValue then from
    else if MatchesAt(m, from, address) then from
    else FirstMatch(m, address, from + 1)
  }

  /** `FirstMatch` is the first matching index: it matches (unless it is the end) and no
      index before it does. */
  lemma {:induction false} FirstMatchIsFirst(m: ModuleObject, address: Addr, from: nat)
    requires TablesWellFormed(m) && from <= m.hashNchainValue
    ensures var k := FirstMatch(m, address, from);
      (k < m.hashNchainValue ==> MatchesAt(m, k, address))
      && forall j :: from <= j < k ==> !MatchesAt(m, j, address)
    decreases m.hashNchainValue - from
  {
    if from < m.hashNchainValue && !MatchesAt(m, from, address) {
      FirstMatchIsFirst(m, address, from + 1);
    }
  }

  /** One step of the scan: an index that does not match passes the search on. */
  lemma FirstMatchStep(m: ModuleObject, address: Addr, i: nat)
    requires TablesWellFormed(m) && i < m.hashNchainValue
    ensures MatchesAt(m, i, address) ==> FirstMatch(m, address, i) == i
    ensures !MatchesAt(m, i, address) ==> FirstMatch(m, address, i) == FirstMatch(m, address, i + 1)
  {
  }

  /** A symbol found for an address: its name and its start address. */
  datatype SymbolHit = SymbolHit(name: seq<Byte>, start: Addr)

  function SymbolForAddress(m: ModuleObject, address: Addr): (r: Option<SymbolHit>)
    requires TablesWellFormed(m)
    ensures r.Some? ==> r.value.start <= address
    ensures r.Some? ==> 0 !in r.value.name
  {
    FirstMatchIsFirst(m, address, 0);
    var k := FirstMatch(m, address, 0);
    if k == m.hashNchainValue then None
    else Some(SymbolHit(CString(m.dynstr, m.dynsym[k].stName), SymbolStart(m, m.dynsym[k])))
  }

  /** What a found symbol is: the first eligible entry whose extent holds the address,
      reported with its start and its NUL-terminated name; `None` exactly when no
      entry qualifies. */
  lemma SymbolForAddressMeaning(m: ModuleObject, address: Addr)
    requires TablesWellFormed(m)
    ensures SymbolForAddress(m, address).None? <==>
      forall j :: 0 <= j < m.hashNchainValue ==> !MatchesAt(m, j, address)
    ensures SymbolForAddress(m, address).Some? ==>
      var hit := SymbolForAddress(m, address).value;
      exists k :: 0 <= k < m.hashNchainValue && MatchesAt(m, k, address)
        && (forall j :: 0 <= j < k ==> !MatchesAt(m, j, address))
        && hit.start == SymbolStart(m, m.dynsym[k])
        && hit.start <= address <= SymbolEnd(m, m.dynsym[k])
        && hit.name == CString(m.dynstr, m.dynsym[k].stName)
  {
    FirstMatchIsFirst(m, address, 0);
    var k := FirstMatch(m, address, 0);
    if k < m.hashNchainValue {
      var hit := SymbolForAddress(m, address).value;
    }
  }

  /** The NUL scan of `find_symbol_for_address`: steps a pointer from `off` until it
      reads 0 and returns how many bytes it passed. */
  method CStringLength(s: seq<Byte>, off: nat) returns (len: nat)
    requires off < |s| && s[|s| - 1] == 0
    ensures len == |CString(s, off)|
  {
    var p := off;
    len := 0;
    while s[p] != 0
      invariant off <= p < |s| && len == p - off
      invariant forall q :: off <= q < p ==> s[q] != 0
      decreases |s| - p
    {
      p := p + 1;
      len := len + 1;
    }
  }

  /** `find_symbol_for_address`: scans the table in order, skipping what is not a
      defined function, and on the first hit measures the name by stepping to its NUL. */
  method FindSymbolForAddress(m: ModuleObject, address: Addr) returns (r: Option<SymbolHit>)
    requires TablesWellFormed(m)
    ensures r == SymbolForAddress(m, address)
  {
    var n := m.hashNchainValue;
    var i := 0;
    while i < n
      invariant 0 <= i <= n
      invariant FirstMatch(m, address, 0) == FirstMatch(m, address, i)
    {
      FirstMatchStep(m, address, i);
      var symbol := m.dynsym[i];
      var shndx := symbol.stShndx;
      if !(shndx == 0 || IsReservedSection(shndx)) && SymbolType(symbol) == SttFunc {
        var functionStart := SymbolStart(m, symbol);
        var functionEnd := SymbolEnd(m, symbol);
        if functionStart <= address && address <= functionEnd {
          var start := symbol.stName;
          var len := CStringLength(m.dynstr, start);
          return Some(SymbolHit(m.dynstr[start .. start + len], functionStart));
        }
      }
      i := i + 1;
    }
    return None;
  }

  // ---------------------------------------------------------------------------
  // Address containment and module names

  /** `contains_address`: the address lies in the memory region holding the module
      base, counting the end of the region as inside; a failed query means no. */
  function ContainsAddress(p: Process, m: ModuleObject, address: Addr): (b: bool)
    ensures b ==> p.query(m.moduleBase).Some? && p.query(m.moduleBase).value.addr <= address
    ensures b ==> address <= RegionEnd(p.query(m.moduleBase).value)
  {
    match p.query(m.moduleBase)
    case None => false
    case Some(info) => info.addr <= address && address <= RegionEnd(info)
  }

  const Backslash: Byte := 0x5C
  const Slash: Byte := 0x2F

  /** The last piece of `s` after splitting on `sep`: the longest suffix without `sep`. */
  function LastComponent(s: seq<Byte>, sep: Byte): (r: seq<Byte>)
    ensures sep !in r
  {
    if |s| == 0 then []
    else if s[|s| - 1] == sep then []
    else LastComponent(s[..|s| - 1], sep) + [s[|s| - 1]]
  }

  /** The last component is a suffix of `s`, and it is the longest suffix without
      `sep`: the byte before it, if any, is `sep`. */
  lemma {:induction false} LastComponentIsSuffix(s: seq<Byte>, sep: Byte)
    ensures var r := LastComponent(s, sep);
      |r| <= |s| && r == s[|s| - |r|..]
      && (|r| < |s| ==> s[|s| - |r| - 1] == sep)
  {
    if |s| > 0 && s[|s| - 1] != sep {
      var init := s[..|s| - 1];
      LastComponentIsSuffix(init, sep);
      var r := LastComponent(init, sep);
      assert init[|init| - |r|..] + [s[|s| - 1]] == s[|s| - |r| - 1..];
      assert |r| < |init| ==> s[|s| - |r| - 2] == init[|init| - |r| - 1];
    }
  }

  /** Splitting finds nothing to cut in a piece that has no separator. */
  lemma {:induction false} LastComponentOfPlain(s: seq<Byte>, sep: Byte)
    requires sep !in s
    ensures LastComponent(s, sep) == s
  {
    if |s| > 0 {
      assert sep !in s[..|s| - 1];
      LastComponentOfPlain(s[..|s| - 1], sep);
    }
  }

  /** A positive `i32`: the word read as signed is above 0. */
  predicate PositiveI32(w: U32)
  {
    0 < w < 0x8000_0000
  }

  /** `get_module_name`. The module's text region is followed by its read-only region,
      which starts with a module path record: a `u32` that must be 0, an `i32` length
      that must be positive, then the path bytes. The name is the path's last
      component after splitting on `\` and then on `/`. */
  function GetModuleName(p: Process, m: ModuleObject): (r: Option<seq<Byte>>)
    ensures r.Some? ==> Backslash !in r.value && Slash !in r.value
  {
    match p.query(m.moduleBase)
    case None => None
    case Some(info) =>
      match p.query(RegionEnd(info))
      case None => None
      case Some(ro) => PathRecordName(p, info, ro)
  }

  /** The path record at the start of `ro`, the region after the text region `info`. */
  function PathRecordName(p: Process, info: MemInfo, ro: MemInfo): (r: Option<seq<Byte>>)
    ensures r.Some? ==> Backslash !in r.value && Slash !in r.value
  {
    var rwDataOffset := Read32(p, ro.addr);
    if Wrap(rwDataOffset + info.addr) == RegionEnd(ro) then None
    else if rwDataOffset != 0 then None
    else
      var pathLength := Read32(p, Wrap(ro.addr + 4));
      if !PositiveI32(pathLength) then None
      else Some(PathName(ReadBytes(p, Wrap(ro.addr + 8), pathLength)))
  }

  /** The last component of a path split on `\` and then on `/`. */
  function PathName(path: seq<Byte>): (name: seq<Byte>)
    ensures Backslash !in name && Slash !in name
  {
    var afterBackslash := LastComponent(path, Backslash);
    LastComponentIsSuffix(afterBackslash, Slash);
    LastComponent(afterBackslash, Slash)
  }

  /** The name is recovered exactly when the record says so: both queries succeed, the
      first word is 0 and does not hit the end-of-region check, and the length is
      positive. The name is then the last component of the recorded path. */
  lemma GetModuleNameSome(p: Process, m: ModuleObject)
    ensures GetModuleName(p, m).Some? <==>
      p.query(m.moduleBase).Some?
      && var info := p.query(m.moduleBase).value;
         p.query(RegionEnd(info)).Some?
         && var ro := p.query(RegionEnd(info)).value;
            Read32(p, ro.addr) == 0 && info.addr != RegionEnd(ro)
            && PositiveI32(Read32(p, Wrap(ro.addr + 4)))
    ensures GetModuleName(p, m).Some? ==>
      var ro := p.query(RegionEnd(p.query(m.moduleBase).value)).value;
      GetModuleName(p, m).value == PathName(ReadBytes(p, Wrap(ro.addr + 8), Read32(p, Wrap(ro.addr + 4))))
  {
    match p.query(m.moduleBase)
    case None =>
    case Some(info) =>
      match p.query(RegionEnd(info))
      case None =>
      case Some(ro) =>
        PathRecordNameSome(p, info, ro);
        PathRecordNameValue(p, info, ro);
  }

  /** The path record yields a name exactly when its first word is 0 without
      hitting the end-of-region check and its length is positive. */
  lemma PathRecordNameSome(p: Process, info: MemInfo, ro: MemInfo)
    ensures PathRecordName(p, info, ro).Some? <==>
      Read32(p, ro.addr) == 0 && info.addr != RegionEnd(ro) && PositiveI32(Read32(p, Wrap(ro.addr + 4)))
  {
    if Read32(p, ro.addr) == 0 {
      assert Wrap(0 + info.addr) == info.addr;
    }
  }

  /** The name is then the last component of the path bytes the length word covers. */
  lemma PathRecordNameValue(p: Process, info: MemInfo, ro: MemInfo)
    ensures PathRecordName(p, info, ro).Some? ==>
      PathRecordName(p, info, ro).value == PathName(ReadBytes(p, Wrap(ro.addr + 8), Read32(p, Wrap(ro.addr + 4))))
  {
  }

  /** Once both regions are found, the name is the one their path record gives. */
  lemma GetModuleNameFrom(p: Process, m: ModuleObject, info: MemInfo, ro: MemInfo)
    requires p.query(m.moduleBase) == Some(info) && p.query(RegionEnd(info)) == Some(ro)
    ensures GetModuleName(p, m) == PathRecordName(p, info, ro)
  {
  }

  /** A record whose checks pass names the last component of the path it holds. */
  lemma PathRecordNameOf(p: Process, info: MemInfo, ro: MemInfo, path: seq<Byte>)
    requires Read32(p, ro.addr) == 0 && info.addr != RegionEnd(ro)
    requires PositiveI32(Read32(p, Wrap(ro.addr + 4)))
    requires ReadBytes(p, Wrap(ro.addr + 8), Read32(p, Wrap(ro.addr + 4))) == path
    ensures PathRecordName(p, info, ro).Some? && PathRecordName(p, info, ro).value == PathName(path)
  {
    PathRecordNameSome(p, info, ro);
    PathRecordNameValue(p, info, ro);
  }

  // ---------------------------------------------------------------------------
  // The module lists

  /** The loader's objects, by address. */
  type Heap = map<Addr, ModuleObject>

  /** `ModuleObjectList`: the list header, whose `front`/`back` sit where a module
      object's `next`/`prev` do, so the header serves as the ring's sentinel. */
  datatype ModuleObjectList = ModuleObjectList(front: Addr, back: Addr)

  /** Following `next` from `cur` visits exactly `order` and then arrives at `end`. */
  ghost predicate Chain(heap: Heap, cur: Addr, end: Addr, order: seq<Addr>)
    decreases |order|
  {
    if |order| == 0 then cur == end
    else cur != end && cur in heap && order[0] == cur && Chain(heap, heap[cur].next, end, order[1..])
  }

  /** A list header at `listAddr` whose ring, read from `front`, holds `order`. */
  ghost predicate ListHolds(heap: Heap, listAddr: Addr, list: ModuleObjectList, order: seq<Addr>)
  {
    Chain(heap, list.front, listAddr, order)
  }

  lemma {:induction false} ChainMembers(heap: Heap, cur: Addr, end: Addr, order: seq<Addr>)
    requires Chain(heap, cur, end, order)
    ensures forall k :: 0 <= k < |order| ==> order[k] in heap && order[k] != end
    decreases |order|
  {
    if |order| > 0 {
      ChainMembers(heap, heap[cur].next, end, order[1..]);
    }
  }

  /** `ModuleObjectListIterator`: yields the objects of one list from `front` along
      `next` until it is back at the header. It never writes the list. */
  class ModuleObjectListIterator {
    const end: Addr
    var current: Addr
    /** The objects still to be yielded. */
    ghost var remaining: seq<Addr>

    ghost predicate Valid(heap: Heap)
      reads this
    {
      Chain(heap, current, end, remaining)
    }

    /** `ModuleObjectList::iter`: starts at `front`, ends at the header's own address. */
    constructor (heap: Heap, listAddr: Addr, list: ModuleObjectList, ghost order: seq<Addr>)
      requires ListHolds(heap, listAddr, list, order)
      ensures Valid(heap) && end == listAddr && current == list.front && remaining == order
    {
      end := listAddr;
      current := list.front;
      remaining := order;
    }

    method Next(heap: Heap) returns (r: Option<Addr>)
      requires Valid(heap)
      modifies this
      ensures Valid(heap)
      ensures old(remaining) == [] ==> r == None && remaining == [] && current == old(current)
      ensures old(remaining) != [] ==> r == Some(old(remaining)[0]) && remaining == old(remaining)[1..]
    {
      if current == end {
        r := None;
      } else {
        var next := heap[current].next;
        r := Some(current);
        current := next;
        remaining := remaining[1..];
      }
    }
  }

  /** The first object of `order` satisfying `contains`, as `Iterator::find` gives it. */
  function FindFirst(order: seq<Addr>, pred: Addr -> bool): (r: Option<Addr>)
    ensures r.Some? ==> r.value in order && pred(r.value)
    ensures r.Some? ==> exists k :: 0 <= k < |order| && order[k] == r.value
                                    && forall j :: 0 <= j < k ==> !pred(order[j])
    ensures r.None? <==> forall k :: 0 <= k < |order| ==> !pred(order[k])
  {
    if |order| == 0 then None
    else if pred(order[0]) then Some(order[0])
    else
      var rest := FindFirst(order[1..], pred);
      if rest.Some? then
        ghost var k :| 0 <= k < |order[1..]| && order[1..][k] == rest.value
          && forall j :: 0 <= j < k ==> !pred(order[1..][j]);
        assert order[k + 1] == rest.value;
        rest
      else rest
  }

  /** The loader state the global lookups read: the objects and the two list headers
      (auto-loaded modules, then manually loaded ones). */
  datatype Loader = Loader(
    heap: Heap,
    autoListAddr: Addr, autoList: ModuleObjectList,
    manualListAddr: Addr, manualList: ModuleObjectList)

  ghost predicate LoaderHolds(l: Loader, autoOrder: seq<Addr>, manualOrder: seq<Addr>)
  {
    ListHolds(l.heap, l.autoListAddr, l.autoList, autoOrder)
    && ListHolds(l.heap, l.manualListAddr, l.manualList, manualOrder)
  }

  function ContainsPred(p: Process, heap: Heap, address: Addr): Addr -> bool
  {
    a => a in heap && ContainsAddress(p, heap[a], address)
  }

  /** `find_module_for_address`: the first auto-loaded module containing the address,
      else the first manually loaded one. */
  ghost function ModuleForAddress(p: Process, l: Loader, autoOrder: seq<Addr>, manualOrder: seq<Addr>, address: Addr): (r: Option<Addr>)
    ensures r.Some? ==> (r.value in autoOrder || r.value in manualOrder)
    ensures r.Some? ==> r.value in l.heap && ContainsAddress(p, l.heap[r.value], address)
    ensures r.Some? && r.value !in autoOrder ==> forall k :: 0 <= k < |autoOrder| ==> !ContainsPred(p, l.heap, address)(autoOrder[k])
  {
    var inAuto := FindFirst(autoOrder, ContainsPred(p, l.heap, address));
    if inAuto.Some? then inAuto else FindFirst(manualOrder, ContainsPred(p, l.heap, address))
  }

  /** Searches the auto-load list (a `for` loop returning on the first hit), then the
      manual-load list. */
  method FindModuleForAddress(p: Process, l: Loader, ghost autoOrder: seq<Addr>, ghost manualOrder: seq<Addr>, address: Addr)
    returns (r: Option<Addr>)
    requires LoaderHolds(l, autoOrder, manualOrder)
    ensures r == ModuleForAddress(p, l, autoOrder, manualOrder, address)
    ensures r.Some? ==> r.value in l.heap && ContainsAddress(p, l.heap[r.value], address)
  {
    r := FindInList(p, l.heap, l.autoListAddr, l.autoList, autoOrder, ContainsPred(p, l.heap, address));
    if r.None? {
      r := FindInList(p, l.heap, l.manualListAddr, l.manualList, manualOrder, ContainsPred(p, l.heap, address));
    }
  }

  /** `Iterator::find` over one list. */
  method FindInList(p: Process, heap: Heap, listAddr: Addr, list: ModuleObjectList, ghost order: seq<Addr>, pred: Addr -> bool)
    returns (r: Option<Addr>)
    requires ListHolds(heap, listAddr, list, order)
    ensures r == FindFirst(order, pred)
  {
    var it := new ModuleObjectListIterator(heap, listAddr, list, order);
    while true
      invariant it.Valid(heap)
      invariant FindFirst(order, pred) == FindFirst(it.remaining, pred)
      decreases |it.remaining|
    {
      var obj := it.Next(heap);
      if obj.None? {
        return None;
      }
      if pred(obj.value) {
        return obj;
      }
    }
  }

  /** The name `find_module_by_name` compares: the recovered one, or the placeholder. */
  const InvalidName: seq<Byte> := [0x5F, 0x5F, 0x69, 0x6E, 0x76, 0x61, 0x6C, 0x69, 0x64, 0x5F, 0x6E, 0x61, 0x6D, 0x65]

  function NameOrInvalid(p: Process, m: ModuleObject): (n: seq<Byte>)
    ensures Backslash !in n && Slash !in n
    ensures n == InvalidName || GetModuleName(p, m) == Some(n)
  {
    match GetModuleName(p, m)
    case Some(n) => n
    case None => InvalidName
  }

  function NamePred(p: Process, heap: Heap, name: seq<Byte>): Addr -> bool
  {
    a => a in heap && NameOrInvalid(p, heap[a]) == name
  }

  /** `find_module_by_name`: the first module of the auto list followed by the manual
      list whose name (or the placeholder) equals `name`. */
  method FindModuleByName(p: Process, l: Loader, ghost autoOrder: seq<Addr>, ghost manualOrder: seq<Addr>, name: seq<Byte>)
    returns (r: Option<Addr>)
    requires LoaderHolds(l, autoOrder, manualOrder)
    ensures r == FindFirst(autoOrder + manualOrder, NamePred(p, l.heap, name))
  {
    var inAuto := FindInList(p, l.heap, l.autoListAddr, l.autoList, autoOrder, NamePred(p, l.heap, name));
    FindFirstAppend(autoOrder, manualOrder, NamePred(p, l.heap, name));
    if inAuto.Some? {
      return inAuto;
    }
    r := FindInList(p, l.heap, l.manualListAddr, l.manualList, manualOrder, NamePred(p, l.heap, name));
  }

  /** Searching a chain of two lists is searching the first, then the second. */
  lemma {:induction false} FindFirstAppend(a: seq<Addr>, b: seq<Addr>, pred: Addr -> bool)
    ensures FindFirst(a + b, pred) == if FindFirst(a, pred).Some? then FindFirst(a, pred) else FindFirst(b, pred)
  {
    if |a| > 0 {
      assert (a + b)[1..] == a[1..] + b;
      FindFirstAppend(a[1..], b, pred);
    } else {
      assert a + b == b;
    }
  }

  /** A module whose name cannot be recovered is found only by the placeholder name. */
  lemma UnnamedMatchesOnlyPlaceholder(p: Process, m: ModuleObject, name: seq<Byte>)
    requires GetModuleName(p, m).None?
    ensures NameOrInvalid(p, m) == name <==> name == InvalidName
  {
  }

  // ---------------------------------------------------------------------------
  // This module's own obj

  const Mod0Magic: U32 := 0x30444F4D

  /** `get_module_for_self`: the region holding this code starts with the module start
      record, whose second word is the offset of the MOD0 header; a header with the
      right magic gives the obj's address as header + `module_object_offset`
      (the header's seventh word). */
  function GetModuleForSelf(p: Process, selfCode: Addr): (r: Option<Addr>)
    ensures r.Some? ==> p.query(selfCode).Some?
  {
    match p.query(selfCode)
    case None => None
    case Some(info) =>
      var header := Mod0HeaderAt(p, info.addr);
      if Read32(p, header) != Mod0Magic then None
      else Some(Wrap(header + Read32(p, Wrap(header + 24))))
  }

  /** Where the MOD0 header lies for a module starting at `start`: the start record's
      second word is the header's offset from the start. */
  function Mod0HeaderAt(p: Process, start: Addr): Addr
  {
    Wrap(start + Read32(p, Wrap(start + 4)))
  }

  /** The obj is found exactly when the header carries the MOD0 magic, and then it
      lies `module_object_offset` bytes past the header. */
  lemma GetModuleForSelfMeaning(p: Process, selfCode: Addr)
    requires p.query(selfCode).Some?
    ensures var info := p.query(selfCode).value;
      var header := Mod0HeaderAt(p, info.addr);
      (GetModuleForSelf(p, selfCode).Some? <==> Read32(p, header) == Mod0Magic)
      && (GetModuleForSelf(p, selfCode).Some? ==>
          GetModuleForSelf(p, selfCode).value == Wrap(header + Read32(p, Wrap(header + 24))))
  {
  }
}
