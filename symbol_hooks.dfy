/** Hooks installed on a symbol without the JIT (skyline-macro/src/hooks/symbol_hooks.rs).
    For a user function `f` the generator emits an assembly stub, a trampoline global
    (0 at first), an "is enabled" flag (true at first) and `install`, `uninstall`,
    `enable` and `disable`. The engine redirects the hooked symbol to the stub. The
    stub tests the flag; for a callback, inline or legacy-inline hook it saves the
    registers in a block on the stack, calls `f`, and restores them. In every case it
    ends by jumping to the trampoline, except a `hook`, which branches to `f`. */
module SymbolHooks {
  import opened Wrappers
  import opened Rtld
  import opened Contexts
  import opened HookItems
  import HookFfi
  import Attrs
  import JitHooks

  // ---------------------------------------------------------------------------
  // Generated names

  /** The names of one manual hook's symbols (`ManualHookContext::new`). */
  datatype ManualNames = ManualNames(trampoline: string, isEnabled: string, manual: string, jumpLabel: string)

  function ManualHookNames(base: string, kind: HookKind): (n: ManualNames)
    ensures n.trampoline == JitHooks.TrampolineIdent(base, kind)
  {
    var k := AsStr(kind);
    ManualNames(
      "__skex_codegen_" + base + "_" + k + "_trampoline",
      "__skex_codegen_" + base + "_" + k + "_is_enabled",
      "__skex_codegen_" + base + "_manual_" + k,
      "__skex_codegen_" + base + "_" + k + "_jump_to_trampoline")
  }

  /** The four symbols of one hook never collide. */
  lemma ManualNamesDistinct(base: string, kind: HookKind)
    ensures var n := ManualHookNames(base, kind);
      n.trampoline != n.isEnabled && n.trampoline != n.manual && n.trampoline != n.jumpLabel
      && n.isEnabled != n.manual && n.isEnabled != n.jumpLabel && n.manual != n.jumpLabel
  {
    var n := ManualHookNames(base, kind);
    var k := AsStr(kind);
    var len := |base| + |k|;
    assert |n.trampoline| == len + 27 && |n.isEnabled| == len + 27;
    assert |n.manual| == len + 23 && |n.jumpLabel| == len + 35;
    assert n.trampoline[|n.trampoline| - 1] == 'e';
    assert n.isEnabled[|n.isEnabled| - 1] == 'd';
  }

  // ---------------------------------------------------------------------------
  // The enable flag as the stub reads it

  /** `ldr w16, [x16]` reads the `bool` flag and the three bytes after it. Little-endian,
      so the flag is the low byte, and `true` is stored as 1. */
  function FlagWord(isEnabled: bool, following: bv32): (w: bv32)
    ensures w & 0xFF == (if isEnabled then 1 else 0)
    ensures w & 0xFFFF_FF00 == following & 0xFFFF_FF00
  {
    (following & 0xFFFF_FF00) | (if isEnabled then 1 else 0)
  }

  /** `tbz w16, #0`: the stub goes on only when bit 0 is set. */
  predicate FlagSet(w: bv32)
  {
    w & 1 != 0
  }

  /** Bit 0 is the flag, whatever the neighbouring bytes hold. */
  lemma FlagBitIsFlag(isEnabled: bool, following: bv32)
    ensures FlagSet(FlagWord(isEnabled, following)) <==> isEnabled
  {
    if isEnabled {
      assert FlagWord(isEnabled, following) & 1 == 1;
    } else {
      assert FlagWord(isEnabled, following) & 1 == 0;
    }
  }

  // ---------------------------------------------------------------------------
  // One run of the stub

  /** The AArch64 state the stub can see: x0..x30, sp, q0..q31. */
  datatype Machine = Machine(x: GeneralRegisters, sp: bv64, q: FpuRegisters)

  /** How the stub is left: through the trampoline (`br x16`), or straight into the
      user's function (`b f`). */
  datatype Exit = ToTrampoline(at: Machine) | ToUser(at: Machine)

  /** What `f` does, for each way the stub can call it. An inline callback rewrites the
      context it is given. After any call the caller-saved registers hold whatever `f`
      left in them (`leftX`, `leftQ`). `sp` comes back as it was, as the procedure-call
      standard requires. */
  datatype UserCode = UserCode(
    inline: ExInlineCtx -> ExInlineCtx,
    legacy: InlineCtx -> InlineCtx,
    leftX: GeneralRegisters,
    leftQ: FpuRegisters)

  /** The argument `f` received (if the stub called it) and how the stub was left. */
  datatype StubRun = StubRun(userArgument: Option<bv64>, exit: Exit)

  /** What a stub does, stated on the machine:
      - disabled: the trampoline is reached with x16 holding its address;
      - a callback gets the original x0, and the trampoline sees every register as it
        was on entry, except x16;
      - an inline callback gets a pointer to the save block, holding the entry
        registers (x16 already loaded with the flag word), the entry sp, and q0..q31;
        the trampoline sees what the callback left in the general and FPU registers;
        sp is restored by arithmetic, so writing `sp` in the context has no effect;
      - a legacy inline callback gets a smaller block with x0..x30 only, so the FPU
        registers reach the trampoline as `f` left them;
      - a `hook` jumps into `f` with x16 holding the flag word. */
  function StubSpec(kind: HookKind, m: Machine, flag: bv32, trampoline: bv64, user: UserCode): (r: StubRun)
    ensures !FlagSet(flag) ==> r.userArgument.None? && r.exit.ToTrampoline?
    ensures r.exit.ToUser? <==> FlagSet(flag) && kind == Hook
    ensures r.exit.ToTrampoline? ==> r.exit.at.x[16] == trampoline
    ensures r.exit.at.sp == m.sp
  {
    if !FlagSet(flag) then StubRun(None, ToTrampoline(m.(x := m.x[16 := trampoline])))
    else EnabledSpec(kind, m.(x := m.x[16 := flag as bv64]), trampoline, user)
  }

  /** The enabled stub, from the state after the flag test (x16 holds the flag word). */
  function EnabledSpec(kind: HookKind, entry: Machine, trampoline: bv64, user: UserCode): (r: StubRun)
    ensures r.exit.ToUser? <==> kind == Hook
    ensures r.userArgument.None? <==> kind == Hook
    ensures r.exit.ToUser? ==> r.exit.at == entry
    ensures r.exit.ToTrampoline? ==> r.exit.at.x[16] == trampoline
    ensures r.exit.at.sp == entry.sp
  {
    match kind
    case Callback => StubRun(Some(entry.x[0]), ToTrampoline(entry.(x := entry.x[16 := trampoline])))
    case Inline =>
      var ctx := user.inline(ExInlineCtx(entry.x, entry.sp, entry.q));
      StubRun(Some(entry.sp - 0x300), ToTrampoline(Machine(ctx.registers[16 := trampoline], entry.sp, ctx.fpuRegisters)))
    case LegacyInline =>
      var ctx := user.legacy(InlineCtx(entry.x));
      StubRun(Some(entry.sp - 0x100), ToTrampoline(Machine(ctx.registers[16 := trampoline], entry.sp, user.leftQ)))
    case Hook => StubRun(None, ToUser(entry))
  }

  /** `ldp` of x0..x30 reads back what `stp` stored. */
  lemma ReadInlineAfterStore(area: SaveArea, regs: GeneralRegisters)
    ensures ReadInlineCtx(StoreRegisters(area, regs)).registers == regs
  {
    var r := ReadInlineCtx(StoreRegisters(area, regs)).registers;
    assert forall i :: 0 <= i < GeneralRegisterCount ==> r[i] == regs[i];
  }

  /** Reading the block as `InlineCtx` or as `ExInlineCtx` gives the same x0..x30. */
  lemma InlineViewOfExCtx(area: SaveArea)
    ensures ReadInlineCtx(area).registers == ReadExCtx(area).registers
  {
    var a := ReadInlineCtx(area).registers;
    var b := ReadExCtx(area).registers;
    assert forall i :: 0 <= i < GeneralRegisterCount ==> a[i] == b[i];
  }

  /** The stub, instruction group by instruction group: the flag test, then the
      branch into `f` or one of the two register-saving sequences below. */
  method RunStub(kind: HookKind, m: Machine, flag: bv32, trampoline: bv64, user: UserCode) returns (r: StubRun)
    ensures r == StubSpec(kind, m, flag, trampoline, user)
  {
    var x := m.x;
    // adrp/ldr x16 of the flag's address, then ldr w16 (zero-extending)
    x := x[16 := flag as bv64];
    if !FlagSet(flag) {
      // tbz to the jump label
      x := x[16 := trampoline];
      assert x == m.x[16 := trampoline];
      return StubRun(None, ToTrampoline(m.(x := x)));
    }
    r := RunEnabled(kind, m.(x := x), trampoline, user);
  }

  method RunEnabled(kind: HookKind, entry: Machine, trampoline: bv64, user: UserCode) returns (r: StubRun)
    ensures r == EnabledSpec(kind, entry, trampoline, user)
  {
    match kind
    case Hook =>
      // b f
      r := StubRun(None, ToUser(entry));
    case LegacyInline =>
      r := RunLegacySave(entry, trampoline, user);
    case Callback =>
      r := RunFullSave(kind, entry, trampoline, user);
    case Inline =>
      r := RunFullSave(kind, entry, trampoline, user);
  }

  /** The callback and inline sequences: a 0x300-byte block holding x0..x30, the entry
      sp and q0..q31; `f` gets the saved x0 (`callback`) or the block's address. The
      save block is the stack below the entry sp; what it held before does not
      matter, as every word read back was stored first. */
  method RunFullSave(kind: HookKind, m: Machine, trampoline: bv64, user: UserCode) returns (r: StubRun)
    requires kind == Callback || kind == Inline
    ensures r == EnabledSpec(kind, m, trampoline, user)
  {
    var x, sp, q := m.x, m.sp, m.q;
    sp := sp - 0x300;
    var argument, area := SaveAndCallFull(kind == Callback, m, sp, user);
    ghost var ctx := ReadExCtx(area);
    // bl f returns with the caller-saved registers clobbered
    x, q := user.leftX, user.leftQ;
    InlineViewOfExCtx(area);
    x := ReadInlineCtx(area).registers;
    q := ReadExCtx(area).fpuRegisters;
    sp := sp + 0x300;
    // the jump label: x16 := trampoline, br x16
    x := x[16 := trampoline];
    r := StubRun(Some(argument), ToTrampoline(Machine(x, sp, q)));
    FullSaveExit(kind, m, trampoline, user, argument, ctx);
  }

  /** The full sequence leaves through the trampoline with the block's registers and
      the entry sp, which is what `EnabledSpec` gives once the block holds the entry
      state (callback) or what `f` made of it (inline). */
  lemma FullSaveExit(kind: HookKind, m: Machine, trampoline: bv64, user: UserCode, argument: bv64, ctx: ExInlineCtx)
    requires kind == Callback ==> argument == m.x[0] && ctx == ExInlineCtx(m.x, m.sp, m.q)
    requires kind == Inline ==> argument == m.sp - 0x300 && ctx == user.inline(ExInlineCtx(m.x, m.sp, m.q))
    requires kind == Callback || kind == Inline
    ensures StubRun(Some(argument), ToTrampoline(Machine(ctx.registers[16 := trampoline], m.sp, ctx.fpuRegisters)))
      == EnabledSpec(kind, m, trampoline, user)
  {
  }

  /** The first half of the full sequence, with the block at `sp`: the stores, then
      the call. A callback gets the saved x0 and leaves the block as stored; an inline
      callback gets the block's address and rewrites the block. */
  method SaveAndCallFull(callback: bool, m: Machine, sp: bv64, user: UserCode) returns (argument: bv64, area: SaveArea)
    requires sp + 0x300 == m.sp
    ensures callback ==> argument == m.x[0] && ReadExCtx(area) == ExInlineCtx(m.x, m.sp, m.q)
    ensures !callback ==> argument == sp && ReadExCtx(area) == user.inline(ExInlineCtx(m.x, m.sp, m.q))
  {
    var x := m.x;
    var entrySp := sp + 0x300;
    // stp x0..x30 at 8i; add x0, sp, #0x300; str x0 at 0xF8; stp q0..q31 at 0x100 + 16j
    var saved := ExInlineCtx(x, entrySp, m.q);
    area := WriteExCtx(map[], saved);
    ReadAfterWriteExCtx(map[], saved);
    x := x[0 := entrySp];
    if callback {
      // ldr x0, [sp]
      argument := Load64(area, RegisterOffset(0));
      x := x[0 := argument];
    } else {
      // mov x0, sp; the callback writes through the pointer
      argument := sp;
      x := x[0 := argument];
      var ctx := user.inline(ReadExCtx(area));
      ReadAfterWriteExCtx(area, ctx);
      area := WriteExCtx(area, ctx);
    }
  }

  /** The legacy inline sequence: a 0x100-byte block holding x0..x30 only. */
  method RunLegacySave(m: Machine, trampoline: bv64, user: UserCode) returns (r: StubRun)
    ensures r == EnabledSpec(LegacyInline, m, trampoline, user)
  {
    var x, sp, q := m.x, m.sp, m.q;
    sp := sp - 0x100;
    var argument, area := SaveAndCallLegacy(m, sp, user);
    assert sp + 0x100 == m.sp;
    ghost var ctx := ReadInlineCtx(area);
    // bl f returns with the caller-saved registers clobbered
    x, q := user.leftX, user.leftQ;
    x := ReadInlineCtx(area).registers;
    sp := sp + 0x100;
    // the jump label: x16 := trampoline, br x16
    x := x[16 := trampoline];
    r := StubRun(Some(argument), ToTrampoline(Machine(x, sp, q)));
    LegacySaveExit(m, trampoline, user, ctx);
  }

  /** The first half of the legacy sequence, with the block at `sp`: the stores of
      x0..x30, then the call, which gets the block's address and rewrites it. */
  method SaveAndCallLegacy(m: Machine, sp: bv64, user: UserCode) returns (argument: bv64, area: SaveArea)
    ensures argument == sp && ReadInlineCtx(area) == user.legacy(InlineCtx(m.x))
  {
    var x := m.x;
    // stp x0..x30 at 8i
    area := StoreRegisters(map[], x);
    ReadInlineAfterStore(map[], x);
    // mov x0, sp; the callback writes through the pointer
    x := x[0 := sp];
    argument := sp;
    var ctx := user.legacy(ReadInlineCtx(area));
    ReadInlineAfterStore(area, ctx.registers);
    area := StoreRegisters(area, ctx.registers);
  }

  /** The legacy sequence leaves through the trampoline with the registers `f` left in
      the block, the entry sp and the FPU registers as `f` left them. */
  lemma LegacySaveExit(m: Machine, trampoline: bv64, user: UserCode, ctx: InlineCtx)
    requires ctx == user.legacy(InlineCtx(m.x))
    ensures StubRun(Some(m.sp - 0x100), ToTrampoline(Machine(ctx.registers[16 := trampoline], m.sp, user.leftQ)))
      == EnabledSpec(LegacyInline, m, trampoline, user)
  {
  }

  /** A disabled hook is invisible apart from x16: every kind of stub goes straight to
      the trampoline and calls nothing. */
  lemma DisabledPassesThrough(kind: HookKind, m: Machine, following: bv32, trampoline: bv64, user: UserCode)
    ensures StubSpec(kind, m, FlagWord(false, following), trampoline, user)
      == StubRun(None, ToTrampoline(m.(x := m.x[16 := trampoline])))
  {
    FlagBitIsFlag(false, following);
  }

  /** An enabled stub calls `f` exactly when it is not a `hook`, which `f` replaces. */
  lemma EnabledCallsUser(kind: HookKind, m: Machine, following: bv32, trampoline: bv64, user: UserCode)
    ensures var run := StubSpec(kind, m, FlagWord(true, following), trampoline, user);
      (run.userArgument.Some? <==> kind != Hook) && (run.exit.ToUser? <==> kind == Hook)
  {
    FlagBitIsFlag(true, following);
  }

  /** An enabled callback is transparent: the original function runs with the
      arguments it was called with, whatever `f` does to the registers. */
  lemma CallbackIsTransparent(m: Machine, following: bv32, trampoline: bv64, user: UserCode, i: nat)
    requires i < GeneralRegisterCount && i != 16
    ensures var run := StubSpec(Callback, m, FlagWord(true, following), trampoline, user);
      run.userArgument == Some(m.x[0])
      && run.exit.ToTrampoline? && run.exit.at.x[i] == m.x[i]
      && run.exit.at.sp == m.sp && run.exit.at.q == m.q
  {
    FlagBitIsFlag(true, following);
  }

  /** An inline callback that leaves its context alone behaves like a plain callback. */
  lemma UntouchedInlineIsCallback(m: Machine, flag: bv32, trampoline: bv64, user: UserCode)
    requires forall c :: user.inline(c) == c
    ensures StubSpec(Inline, m, flag, trampoline, user).exit == StubSpec(Callback, m, flag, trampoline, user).exit
  {
    assert m.x[16 := flag as bv64][16 := trampoline] == m.x[16 := trampoline];
  }

  /** An untouched legacy inline context keeps the general registers but not the FPU
      registers: those reach the trampoline as `f` left them. */
  lemma UntouchedLegacyLosesFpu(m: Machine, flag: bv32, trampoline: bv64, user: UserCode)
    requires forall c :: user.legacy(c) == c
    requires FlagSet(flag)
    ensures var run := StubSpec(LegacyInline, m, flag, trampoline, user);
      run.exit == ToTrampoline(Machine(m.x[16 := trampoline], m.sp, user.leftQ))
  {
    assert m.x[16 := flag as bv64][16 := trampoline] == m.x[16 := trampoline];
  }

  /** The `sp` an inline callback writes into its context is ignored: two callbacks
      that differ only there leave the machine the same. */
  lemma InlineSpIgnored(m: Machine, flag: bv32, trampoline: bv64, user: UserCode, other: UserCode)
    requires forall c :: other.inline(c) == user.inline(c).(sp := other.inline(c).sp)
    ensures StubSpec(Inline, m, flag, trampoline, other).exit == StubSpec(Inline, m, flag, trampoline, user).exit
  {
  }

  // ---------------------------------------------------------------------------
  // The generated module

  /** The generated `mod f` of one symbol hook, with its two globals. */
  class SymbolHook {
    const base: string
    const kind: HookKind
    const attrs: Attrs.HookAttributes
    /** The address of the assembly stub, the replacement handed to the engine. */
    const stub: Addr
    /** `(expr) as *const ()` when the expression is not a string literal. */
    const value: Addr
    /** An address inside this plugin, used to find its own module object. */
    const selfCode: Addr
    const trampoline: HookFfi.TrampolineSlot
    var isEnabled: bool

    constructor (base: string, kind: HookKind, attrs: Attrs.HookAttributes, stub: Addr, value: Addr, selfCode: Addr)
      ensures this.base == base && this.kind == kind && this.attrs == attrs
      ensures this.stub == stub && this.value == value && this.selfCode == selfCode
      ensures fresh(trampoline) && trampoline.value == 0
      ensures isEnabled
    {
      this.base := base;
      this.kind := kind;
      this.attrs := attrs;
      this.stub := stub;
      this.value := value;
      this.selfCode := selfCode;
      trampoline := new HookFfi.TrampolineSlot();
      isEnabled := true;
    }

    /** `install`: finds this plugin's module object (panicking if it cannot), then asks
      the engine to hook a symbol resolved later (a string literal, NUL-terminated) or
      the address the expression gives. The trampoline slot is filled in by the
      engine. */
    method Install(p: Process, engine: HookFfi.PatchEngine) returns (o: Outcome)
      modifies engine
      ensures GetModuleForSelf(p, selfCode).None? ==> o == Panicked(SelfModuleNotFound) && engine.log == old(engine.log)
      ensures GetModuleForSelf(p, selfCode).Some? ==>
        var self := GetModuleForSelf(p, selfCode).value;
        o == Completed
        && engine.log == old(engine.log) + [
          if attrs.style.value.StrLit?
          then HookFfi.InstallOnSymbolFuture(self, HookFfi.NulTerminated(attrs.style.value.value), stub, trampoline, HookTypeOf(kind))
          else HookFfi.InstallOnSymbol(self, value, stub, trampoline, HookTypeOf(kind))]
    {
      var self := GetModuleForSelf(p, selfCode);
      if self.None? {
        return Panicked(SelfModuleNotFound);
      }
      if attrs.style.value.StrLit? {
        var name := HookFfi.NulTerminated(attrs.style.value.value);
        engine.InstallOnSymbolFutureCall(self.value, name, stub, trampoline, HookTypeOf(kind));
      } else {
        engine.InstallOnSymbolCall(self.value, value, stub, trampoline, HookTypeOf(kind));
      }
      o := Completed;
    }

    /** `uninstall`: the engine is asked to remove the hook whose replacement is the
      stub. */
    method Uninstall(engine: HookFfi.PatchEngine)
      modifies engine
      ensures engine.log == old(engine.log) + [HookFfi.UninstallFromSymbol(stub)]
    {
      engine.UninstallFromSymbolCall(stub);
    }

    /** `enable` and `disable` write the flag and nothing else; the engine is not told. */
    method Enable()
      modifies this
      ensures isEnabled
    {
      isEnabled := true;
    }

    method Disable()
      modifies this
      ensures !isEnabled
    {
      isEnabled := false;
    }

    /** The stub entered with machine state `m`, with the flag and trampoline globals as
      they stand. */
    method Run(m: Machine, following: bv32, user: UserCode) returns (r: StubRun)
      ensures r == StubSpec(kind, m, FlagWord(isEnabled, following), trampoline.value as bv64, user)
    {
      r := RunStub(kind, m, FlagWord(isEnabled, following), trampoline.value as bv64, user);
    }
  }
}
