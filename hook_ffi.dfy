/** The services generated hook code calls into: the patch engine behind
    `skyline::hooks::ffi` (src/hooks.rs) and the static-module table behind
    `skyline::memory::ffi` (src/memory.rs). Their implementations live outside this
    repository; here the engine records every request in a ghost log, and hands back
    trampolines through an abstract function fixed when it is created. Strings
    cross the boundary as NUL-terminated UTF-8. */
module HookFfi {
  import opened Wrappers
  import opened Rtld

  /** `HookType`, the `#[repr(u8)]` enum passed to the engine. */
  datatype HookType = Callback | Inline | LegacyInline | Hook

  /** A hook's `static mut ..._trampoline: u64`, written through the out-pointer the
      engine receives. */
  class TrampolineSlot {
    var value: Addr

    /** The global starts at 0. */
    constructor ()
      ensures value == 0
    {
      value := 0;
    }
  }

  /** One call into the engine. */
  datatype Request =
    | InstallOnSymbol(host: Addr, target: Addr, replace: Addr, slot: TrampolineSlot, ty: HookType)
    | InstallOnSymbolFuture(host: Addr, symbolName: seq<Byte>, replace: Addr, slot: TrampolineSlot, ty: HookType)
    | Install(symbol: Addr, replace: Addr, ty: HookType)
    | InstallOnDynamicLoad(symbolOffset: Addr, replace: Addr, slot: TrampolineSlot, moduleName: seq<Byte>, ty: HookType)
    | SetEnable(user: Addr, symbol: Addr, enable: bool)
    | Uninstall(user: Addr)
    | UninstallFromSymbol(user: Addr)

  /** The requests that hand the engine a trampoline slot to fill in later. */
  predicate Deferred(r: Request)
  {
    r.InstallOnSymbol? || r.InstallOnSymbolFuture? || r.InstallOnDynamicLoad?
  }

  /** The patch engine: every `skex_hooks_*` call appends to `log`. `skex_hooks_install`
      patches at once and returns the trampoline `trampolineFor(symbol, replace)`; the
      calls with an out-pointer leave the slot to be written when the target becomes
      known (`Fulfil`). */
  class PatchEngine {
    const trampolineFor: (Addr, Addr) -> Addr
    ghost var log: seq<Request>

    constructor (trampolineFor: (Addr, Addr) -> Addr)
      ensures this.trampolineFor == trampolineFor && log == []
    {
      this.trampolineFor := trampolineFor;
      log := [];
    }

    method InstallOnSymbolCall(host: Addr, target: Addr, replace: Addr, slot: TrampolineSlot, ty: HookType)
      modifies this
      ensures log == old(log) + [InstallOnSymbol(host, target, replace, slot, ty)]
    {
      log := log + [InstallOnSymbol(host, target, replace, slot, ty)];
    }

    method InstallOnSymbolFutureCall(host: Addr, symbolName: seq<Byte>, replace: Addr, slot: TrampolineSlot, ty: HookType)
      modifies this
      ensures log == old(log) + [InstallOnSymbolFuture(host, symbolName, replace, slot, ty)]
    {
      log := log + [InstallOnSymbolFuture(host, symbolName, replace, slot, ty)];
    }

    method InstallCall(symbol: Addr, replace: Addr, ty: HookType) returns (trampoline: Addr)
      modifies this
      ensures log == old(log) + [Install(symbol, replace, ty)]
      ensures trampoline == trampolineFor(symbol, replace)
    {
      log := log + [Install(symbol, replace, ty)];
      trampoline := trampolineFor(symbol, replace);
    }

    method InstallOnDynamicLoadCall(symbolOffset: Addr, replace: Addr, slot: TrampolineSlot, moduleName: seq<Byte>, ty: HookType)
      modifies this
      ensures log == old(log) + [InstallOnDynamicLoad(symbolOffset, replace, slot, moduleName, ty)]
    {
      log := log + [InstallOnDynamicLoad(symbolOffset, replace, slot, moduleName, ty)];
    }

    method SetEnableCall(user: Addr, symbol: Addr, enable: bool)
      modifies this
      ensures log == old(log) + [SetEnable(user, symbol, enable)]
    {
      log := log + [SetEnable(user, symbol, enable)];
    }

    method UninstallCall(user: Addr)
      modifies this
      ensures log == old(log) + [Uninstall(user)]
    {
      log := log + [Uninstall(user)];
    }

    method UninstallFromSymbolCall(user: Addr)
      modifies this
      ensures log == old(log) + [UninstallFromSymbol(user)]
    {
      log := log + [UninstallFromSymbol(user)];
    }

    /** The engine completes a deferred request once its target is known (the symbol
      resolved, the module loaded): the slot receives the trampoline, nothing else
      changes. */
    method Fulfil(r: Request, target: Addr)
      requires r in log && Deferred(r)
      modifies r.slot
      ensures r.slot.value == trampolineFor(target, r.replace)
    {
      r.slot.value := trampolineFor(target, r.replace);
    }
  }

  // ---------------------------------------------------------------------------
  // Static modules (src/memory.rs)

  /** `StaticModule`. */
  datatype StaticModule = RtldModule | MainModule | SkylineExModule | SdkModule

  /** The `text` range of a `ModuleMemory`. */
  datatype ModuleMemory = ModuleMemory(textStart: Addr, textSize: Addr)

  /** `skex_memory_get_known_static_module` always answers; the by-name lookup reads
      a NUL-terminated name and may find nothing. */
  datatype Statics = Statics(known: StaticModule -> ModuleMemory, byName: seq<Byte> -> Option<ModuleMemory>)

  /** `&module.text()[offset]`: the address of byte `offset` of the text slice; an
      offset past the end panics like any out-of-bounds slice index. */
  function TextAt(m: ModuleMemory, offset: Addr): (r: Result<Addr, Panic>)
    ensures r.Ok? <==> offset < m.textSize
    ensures r.Ok? ==> r.value == Wrap(m.textStart + offset)
    ensures r.Ok? && m.textStart + m.textSize <= Two64 ==> m.textStart <= r.value < m.textStart + m.textSize
    ensures r.Err? ==> r.error == IndexOutOfBounds(offset, m.textSize)
  {
    if offset < m.textSize then Ok(Wrap(m.textStart + offset))
    else Err(IndexOutOfBounds(offset, m.textSize))
  }

  // ---------------------------------------------------------------------------
  // Strings at the boundary

  /** The UTF-8 encoding of one scalar value. */
  function Utf8Char(c: char): (b: seq<Byte>)
    ensures 1 <= |b| <= 4
    ensures (0 in b) <==> c == '\0'
  {
    var v := c as int;
    if v < 0x80 then [v]
    else if v < 0x800 then [0xC0 + v / 0x40, 0x80 + v % 0x40]
    else if v < 0x1_0000 then [0xE0 + v / 0x1000, 0x80 + (v / 0x40) % 0x40, 0x80 + v % 0x40]
    else [0xF0 + (v / 0x4_0000) % 8, 0x80 + (v / 0x1000) % 0x40, 0x80 + (v / 0x40) % 0x40, 0x80 + v % 0x40]
  }

  /** The bytes of a Rust `str`. */
  function Utf8(s: string): (b: seq<Byte>)
    ensures |b| >= |s|
    ensures (0 in b) <==> '\0' in s
  {
    if |s| == 0 then [] else Utf8Char(s[0]) + Utf8(s[1..])
  }

  lemma {:induction false} Utf8Append(a: string, b: string)
    ensures Utf8(a + b) == Utf8(a) + Utf8(b)
  {
    if |a| == 0 {
      assert a + b == b;
    } else {
      assert (a + b)[1..] == a[1..] + b;
      Utf8Append(a[1..], b);
    }
  }

  /** `format!("{}\0", s)`, the form names take across the boundary. */
  function NulTerminated(s: string): (b: seq<Byte>)
    ensures |b| > 0 && b[|b| - 1] == 0
  {
    Utf8(s) + [0]
  }

  /** `s.split_at(s.len() - 1).0`: everything but the last byte. */
  function DropLast(b: seq<Byte>): seq<Byte>
    requires |b| > 0
  {
    b[..|b| - 1]
  }

  /** Bytes without a NUL, then a NUL, read as a C string from `off` on. */
  lemma {:induction false} CStringOfTerminated(x: seq<Byte>, off: nat)
    requires 0 !in x && off <= |x|
    ensures CString(x + [0], off) == x[off..]
    decreases |x| - off
  {
    var b := x + [0];
    if off < |x| {
      assert b[off] == x[off] && x[off] != 0;
      CStringOfTerminated(x, off + 1);
      assert [x[off]] + x[off + 1..] == x[off..];
    } else {
      assert b[off] == 0;
    }
  }

  /** The terminated name is the UTF-8 of the name with `\0` appended; stripping the
      terminator gives back the name's bytes; and a name without an interior NUL
      reads back whole as a C string. */
  lemma NulTerminatedName(s: string)
    ensures NulTerminated(s) == Utf8(s + "\0")
    ensures DropLast(NulTerminated(s)) == Utf8(s)
    ensures '\0' !in s ==> CString(NulTerminated(s), 0) == Utf8(s)
  {
    Utf8Append(s, "\0");
    NulUtf8();
    assert DropLast(NulTerminated(s)) == Utf8(s);
    if '\0' !in s {
      CStringOfTerminated(Utf8(s), 0);
      assert Utf8(s)[0..] == Utf8(s);
    }
  }

  /** The NUL character is the single byte 0. */
  lemma NulUtf8()
    ensures Utf8("\0") == [0]
  {
    assert "\0"[1..] == "";
    assert Utf8Char('\0') == [0];
  }
}
