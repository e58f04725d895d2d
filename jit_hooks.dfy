/** Hooks installed through the patch engine's JIT table
    (skyline-macro/src/hooks/jit_hooks.rs). For a user function `f` the generator
    emits `mod f` holding a trampoline global that starts at 0, and `install`,
    `uninstall`, `enable` and `disable`. The code it emits is modelled here as the
    class `JitHook`, one object per generated module; the address the hook targets is
    computed by `InstallTarget` and `SetEnableTarget`, from the attribute and the
    run-time value `value` of its expression. */
module JitHooks {
  import opened Wrappers
  import opened Rtld
  import opened HookItems
  import HookFfi
  import Attrs

  /** `HookContext::new`: the trampoline global's name. */
  function TrampolineIdent(base: string, kind: HookKind): (s: string)
    ensures |s| > |base|
  {
    "__skex_codegen_" + base + "_" + AsStr(kind) + "_trampoline"
  }

  /** `KnownModule::to_path`: `skyline` names the `SkylineEx` static module. */
  function StaticModuleOf(k: Attrs.KnownModule): (s: HookFfi.StaticModule)
    ensures k == Attrs.Skyline <==> s == HookFfi.SkylineExModule
  {
    match k
    case Rtld => HookFfi.RtldModule
    case Main => HookFfi.MainModule
    case Skyline => HookFfi.SkylineExModule
    case Sdk => HookFfi.SdkModule
  }

  /** Different known modules name different static modules. */
  lemma StaticModuleOfInjective(k: Attrs.KnownModule, k': Attrs.KnownModule)
    ensures StaticModuleOf(k) == StaticModuleOf(k') ==> k == k'
  {
  }

  /** The module an `offset` hook is relative to: the one given, else `main`. */
  function TargetModule(attrs: Attrs.HookAttributes): (m: Attrs.ModuleArg)
    ensures attrs.moduleArg.None? ==> m == Attrs.ByKnown(Attrs.Main)
    ensures attrs.moduleArg.Some? ==> m == attrs.moduleArg.value
  {
    if attrs.moduleArg.Some? then attrs.moduleArg.value else Attrs.ByKnown(Attrs.Main)
  }

  /** Where `install` goes: a patch at an address, a request deferred until a
      dynamic module loads (after which `install` returns at once), or a panic. */
  datatype InstallSite =
    | PatchAt(address: Addr)
    | DeferUntilLoaded(offset: Addr, moduleName: seq<Byte>)
    | Fault(reason: Panic)

  /** `evaluate_hooking_expression` followed at run time: under `replace` the value
      itself; under `offset` the byte `value` of the module's text (a known static
      module; a static module found by name; otherwise the request is deferred with
      the NUL-terminated name). */
  function InstallTarget(attrs: Attrs.HookAttributes, statics: HookFfi.Statics, value: Addr): (r: InstallSite)
    ensures attrs.style.key == Attrs.Symbol ==> r == PatchAt(value)
    ensures r.DeferUntilLoaded? ==>
      attrs.style.key != Attrs.Symbol && TargetModule(attrs).ByName?
      && statics.byName(HookFfi.NulTerminated(TargetModule(attrs).name)).None?
      && r == DeferUntilLoaded(value, HookFfi.NulTerminated(TargetModule(attrs).name))
    ensures r.Fault? ==> r.reason.IndexOutOfBounds? && r.reason.index == value
  {
    if attrs.style.key == Attrs.Symbol then PatchAt(value)
    else match TargetModule(attrs)
      case ByKnown(k) =>
        (match HookFfi.TextAt(statics.known(StaticModuleOf(k)), value)
         case Ok(a) => PatchAt(a)
         case Err(p) => Fault(p))
      case ByName(name) =>
        match statics.byName(HookFfi.NulTerminated(name))
        case Some(m) =>
          (match HookFfi.TextAt(m, value)
           case Ok(a) => PatchAt(a)
           case Err(p) => Fault(p))
        case None => DeferUntilLoaded(value, HookFfi.NulTerminated(name))
  }

  /** `evaluate_hooking_expression_for_set_enable` followed at run time: as for
      install, except that a named module that is not static is looked up among the
      loaded modules (by the name without its NUL); its base plus the offset is the
      address, and a module not loaded is a panic naming it. */
  ghost function SetEnableTarget(attrs: Attrs.HookAttributes, statics: HookFfi.Statics, p: Process, l: Loader,
                                 autoOrder: seq<Addr>, manualOrder: seq<Addr>, value: Addr): (r: Result<Addr, Panic>)
    ensures attrs.style.key == Attrs.Symbol ==> r == Ok(value)
    ensures r.Err? ==> (r.error.IndexOutOfBounds? && r.error.index == value) || r.error.DynamicModuleNotLoaded?
  {
    if attrs.style.key == Attrs.Symbol then Ok(value)
    else match TargetModule(attrs)
      case ByKnown(k) => HookFfi.TextAt(statics.known(StaticModuleOf(k)), value)
      case ByName(name) =>
        match statics.byName(HookFfi.NulTerminated(name))
        case Some(m) => HookFfi.TextAt(m, value)
        case None => LoadedTarget(p, l, autoOrder, manualOrder, name, value)
  }

  /** The loaded module called `name` (the first of the auto list, then the manual
      list), its base plus the offset; a panic naming the module when none is. */
  ghost function LoadedTarget(p: Process, l: Loader, autoOrder: seq<Addr>, manualOrder: seq<Addr>,
                              name: string, value: Addr): (r: Result<Addr, Panic>)
    ensures r.Err? ==> r.error == DynamicModuleNotLoaded(name)
    ensures r.Err? <==> forall k :: 0 <= k < |autoOrder + manualOrder| ==>
      !NamePred(p, l.heap, HookFfi.Utf8(name))((autoOrder + manualOrder)[k])
  {
    match FindFirst(autoOrder + manualOrder, NamePred(p, l.heap, HookFfi.Utf8(name)))
    case Some(a) => Ok(Wrap(l.heap[a].moduleBase + value))
    case None => Err(DynamicModuleNotLoaded(name))
  }

  /** Under `replace` the expression is the address, for install and for
      enable/disable alike, whatever `module` says. */
  lemma ReplaceUsesValue(attrs: Attrs.HookAttributes, statics: HookFfi.Statics, p: Process, l: Loader,
                         autoOrder: seq<Addr>, manualOrder: seq<Addr>, value: Addr)
    requires attrs.style.key == Attrs.Symbol
    ensures InstallTarget(attrs, statics, value) == PatchAt(value)
    ensures SetEnableTarget(attrs, statics, p, l, autoOrder, manualOrder, value) == Ok(value)
  {
  }

  /** Leaving out `module` is the same as writing `module = main`. */
  lemma DefaultModuleIsMain(attrs: Attrs.HookAttributes, statics: HookFfi.Statics, p: Process, l: Loader,
                            autoOrder: seq<Addr>, manualOrder: seq<Addr>, value: Addr)
    requires attrs.moduleArg.None?
    ensures var withMain := attrs.(moduleArg := Some(Attrs.ByKnown(Attrs.Main)));
      InstallTarget(attrs, statics, value) == InstallTarget(withMain, statics, value)
      && SetEnableTarget(attrs, statics, p, l, autoOrder, manualOrder, value)
         == SetEnableTarget(withMain, statics, p, l, autoOrder, manualOrder, value)
  {
  }

  /** A known module resolves to its text start plus the offset, and an offset at or
      past the end of its text panics, for install and enable/disable alike. */
  lemma KnownModuleTarget(attrs: Attrs.HookAttributes, statics: HookFfi.Statics, p: Process, l: Loader,
                          autoOrder: seq<Addr>, manualOrder: seq<Addr>, value: Addr)
    requires attrs.style.key == Attrs.Offset && TargetModule(attrs).ByKnown?
    ensures var text := statics.known(StaticModuleOf(TargetModule(attrs).known));
      (value < text.textSize ==>
        InstallTarget(attrs, statics, value) == PatchAt(Wrap(text.textStart + value))
        && SetEnableTarget(attrs, statics, p, l, autoOrder, manualOrder, value) == Ok(Wrap(text.textStart + value)))
      && (value >= text.textSize ==>
        InstallTarget(attrs, statics, value) == Fault(IndexOutOfBounds(value, text.textSize))
        && SetEnableTarget(attrs, statics, p, l, autoOrder, manualOrder, value) == Err(IndexOutOfBounds(value, text.textSize)))
  {
  }

  /** Install and enable/disable address the same place whenever install patches
      directly; they differ only for a module that is not static, where install
      defers and enable/disable look the module up among the loaded ones. */
  lemma InstallAndSetEnableAgree(attrs: Attrs.HookAttributes, statics: HookFfi.Statics, p: Process, l: Loader,
                                 autoOrder: seq<Addr>, manualOrder: seq<Addr>, value: Addr)
    ensures InstallTarget(attrs, statics, value).PatchAt? ==>
      SetEnableTarget(attrs, statics, p, l, autoOrder, manualOrder, value) == Ok(InstallTarget(attrs, statics, value).address)
    ensures InstallTarget(attrs, statics, value).Fault? ==>
      SetEnableTarget(attrs, statics, p, l, autoOrder, manualOrder, value) == Err(InstallTarget(attrs, statics, value).reason)
    ensures InstallTarget(attrs, statics, value).DeferUntilLoaded? <==>
      attrs.style.key == Attrs.Offset && TargetModule(attrs).ByName?
      && statics.byName(HookFfi.NulTerminated(TargetModule(attrs).name)).None?
  {
  }

  /** A module that is neither static nor loaded: install defers with the offset
      and the NUL-terminated name, and enable/disable panic naming the module. */
  lemma UnloadedDynamicModule(attrs: Attrs.HookAttributes, statics: HookFfi.Statics, p: Process, l: Loader,
                              autoOrder: seq<Addr>, manualOrder: seq<Addr>, value: Addr)
    requires attrs.style.key == Attrs.Offset && TargetModule(attrs).ByName?
    requires var name := TargetModule(attrs).name;
      statics.byName(HookFfi.NulTerminated(name)).None?
      && forall a :: a in autoOrder + manualOrder ==> !NamePred(p, l.heap, HookFfi.Utf8(name))(a)
    ensures var name := TargetModule(attrs).name;
      InstallTarget(attrs, statics, value) == DeferUntilLoaded(value, HookFfi.Utf8(name) + [0])
      && SetEnableTarget(attrs, statics, p, l, autoOrder, manualOrder, value) == Err(DynamicModuleNotLoaded(name))
  {
    var name := TargetModule(attrs).name;
    HookFfi.NulTerminatedName(name);
  }

  /** The generated `mod f` of one JIT hook. */
  class JitHook {
    const base: string
    const kind: HookKind
    const attrs: Attrs.HookAttributes
    /** `f as *const ()`, the replacement the engine installs. */
    const user: Addr
    /** What the attribute's expression evaluates to, cast to `usize`. */
    const value: Addr
    /** `static mut __skex_codegen_f_<kind>_trampoline: u64 = 0`. */
    const trampoline: HookFfi.TrampolineSlot

    constructor (base: string, kind: HookKind, attrs: Attrs.HookAttributes, user: Addr, value: Addr)
      ensures this.base == base && this.kind == kind && this.attrs == attrs
      ensures this.user == user && this.value == value
      ensures fresh(trampoline) && trampoline.value == 0
    {
      this.base := base;
      this.kind := kind;
      this.attrs := attrs;
      this.user := user;
      this.value := value;
      trampoline := new HookFfi.TrampolineSlot();
    }

    /** `install`: patches the resolved address and stores the engine's trampoline,
      or hands the engine a deferred request with the trampoline's address and
      returns, or panics before calling the engine. */
    method Install(statics: HookFfi.Statics, engine: HookFfi.PatchEngine) returns (o: Outcome)
      modifies engine, trampoline
      ensures match InstallTarget(attrs, statics, value)
        case PatchAt(a) =>
          o == Completed
          && engine.log == old(engine.log) + [HookFfi.Install(a, user, HookTypeOf(kind))]
          && trampoline.value == engine.trampolineFor(a, user)
        case DeferUntilLoaded(offset, name) =>
          o == Completed
          && engine.log == old(engine.log) + [HookFfi.InstallOnDynamicLoad(offset, user, trampoline, name, HookTypeOf(kind))]
          && trampoline.value == old(trampoline.value)
        case Fault(p) =>
          o == Panicked(p) && engine.log == old(engine.log) && trampoline.value == old(trampoline.value)
    {
      var ty := HookTypeOf(kind);
      var location: Addr;
      if attrs.style.key == Attrs.Symbol {
        location := value;
      } else {
        var target := TargetModule(attrs);
        match target
        case ByKnown(k) =>
          var text := HookFfi.TextAt(statics.known(StaticModuleOf(k)), value);
          if text.Err? {
            return Panicked(text.error);
          }
          location := text.value;
        case ByName(name) =>
          var nameArg := HookFfi.NulTerminated(name);
          var found := statics.byName(nameArg);
          if found.Some? {
            var text := HookFfi.TextAt(found.value, value);
            if text.Err? {
              return Panicked(text.error);
            }
            location := text.value;
          } else {
            engine.InstallOnDynamicLoadCall(value, user, trampoline, nameArg, ty);
            return Completed;
          }
      }
      var t := engine.InstallCall(location, user, ty);
      trampoline.value := t;
      o := Completed;
    }

    /** `uninstall`. */
    method Uninstall(engine: HookFfi.PatchEngine)
      modifies engine
      ensures engine.log == old(engine.log) + [HookFfi.Uninstall(user)]
    {
      engine.UninstallCall(user);
    }

    /** `enable` and `disable`: resolve the address as `SetEnableTarget` says, then ask
      the engine to switch the hook on (`enable` true) or off. */
    method SetEnable(statics: HookFfi.Statics, p: Process, l: Loader, ghost autoOrder: seq<Addr>, ghost manualOrder: seq<Addr>,
                     engine: HookFfi.PatchEngine, enable: bool) returns (o: Outcome)
      requires LoaderHolds(l, autoOrder, manualOrder)
      modifies engine
      ensures match SetEnableTarget(attrs, statics, p, l, autoOrder, manualOrder, value)
        case Ok(a) => o == Completed && engine.log == old(engine.log) + [HookFfi.SetEnable(user, a, enable)]
        case Err(reason) => o == Panicked(reason) && engine.log == old(engine.log)
    {
      var location := ResolveForSetEnable(attrs, statics, p, l, autoOrder, manualOrder, value);
      if location.Err? {
        return Panicked(location.error);
      }
      engine.SetEnableCall(user, location.value, enable);
      o := Completed;
    }

    method Enable(statics: HookFfi.Statics, p: Process, l: Loader, ghost autoOrder: seq<Addr>, ghost manualOrder: seq<Addr>,
                  engine: HookFfi.PatchEngine) returns (o: Outcome)
      requires LoaderHolds(l, autoOrder, manualOrder)
      modifies engine
      ensures match SetEnableTarget(attrs, statics, p, l, autoOrder, manualOrder, value)
        case Ok(a) => o == Completed && engine.log == old(engine.log) + [HookFfi.SetEnable(user, a, true)]
        case Err(reason) => o == Panicked(reason) && engine.log == old(engine.log)
    {
      o := SetEnable(statics, p, l, autoOrder, manualOrder, engine, true);
    }

    method Disable(statics: HookFfi.Statics, p: Process, l: Loader, ghost autoOrder: seq<Addr>, ghost manualOrder: seq<Addr>,
                   engine: HookFfi.PatchEngine) returns (o: Outcome)
      requires LoaderHolds(l, autoOrder, manualOrder)
      modifies engine
      ensures match SetEnableTarget(attrs, statics, p, l, autoOrder, manualOrder, value)
        case Ok(a) => o == Completed && engine.log == old(engine.log) + [HookFfi.SetEnable(user, a, false)]
        case Err(reason) => o == Panicked(reason) && engine.log == old(engine.log)
    {
      o := SetEnable(statics, p, l, autoOrder, manualOrder, engine, false);
    }
  }

  /** `evaluate_hooking_expression_for_set_enable` as the generated code runs it. */
  method ResolveForSetEnable(attrs: Attrs.HookAttributes, statics: HookFfi.Statics, p: Process, l: Loader,
                             ghost autoOrder: seq<Addr>, ghost manualOrder: seq<Addr>, value: Addr)
    returns (r: Result<Addr, Panic>)
    requires LoaderHolds(l, autoOrder, manualOrder)
    ensures r == SetEnableTarget(attrs, statics, p, l, autoOrder, manualOrder, value)
  {
    if attrs.style.key == Attrs.Symbol {
      return Ok(value);
    }
    var target := TargetModule(attrs);
    match target
    case ByKnown(k) =>
      r := HookFfi.TextAt(statics.known(StaticModuleOf(k)), value);
    case ByName(name) =>
      var nameArg := HookFfi.NulTerminated(name);
      var found := statics.byName(nameArg);
      if found.Some? {
        r := HookFfi.TextAt(found.value, value);
      } else {
        r := FindLoaded(p, l, autoOrder, manualOrder, name, value);
      }
  }

  /** The lookup among loaded modules, by the terminated name with its NUL dropped. */
  method FindLoaded(p: Process, l: Loader, ghost autoOrder: seq<Addr>, ghost manualOrder: seq<Addr>,
                    name: string, value: Addr) returns (r: Result<Addr, Panic>)
    requires LoaderHolds(l, autoOrder, manualOrder)
    ensures r == LoadedTarget(p, l, autoOrder, manualOrder, name, value)
  {
    var bytes := HookFfi.DropLast(HookFfi.NulTerminated(name));
    HookFfi.NulTerminatedName(name);
    var loaded := FindModuleByName(p, l, autoOrder, manualOrder, bytes);
    LoadedTargetOf(p, l, autoOrder, manualOrder, name, value, loaded);
    if loaded.None? {
      r := Err(DynamicModuleNotLoaded(name));
    } else {
      r := Ok(Wrap(l.heap[loaded.value].moduleBase + value));
    }
  }

  lemma LoadedTargetOf(p: Process, l: Loader, autoOrder: seq<Addr>, manualOrder: seq<Addr>,
                       name: string, value: Addr, found: Option<Addr>)
    requires found == FindFirst(autoOrder + manualOrder, NamePred(p, l.heap, HookFfi.Utf8(name)))
    ensures found.None? ==> LoadedTarget(p, l, autoOrder, manualOrder, name, value) == Err(DynamicModuleNotLoaded(name))
    ensures found.Some? ==> found.value in l.heap
    ensures found.Some? ==> LoadedTarget(p, l, autoOrder, manualOrder, name, value).Ok?
    ensures found.Some? ==>
      LoadedTarget(p, l, autoOrder, manualOrder, name, value).value == Wrap(l.heap[found.value].moduleBase + value)
  {
  }

  /** The generated code's whole life: before `install` has stored a trampoline,
      `original!()` panics naming the hook; after a direct install it calls the
      engine's trampoline. Uninstall, enable and disable leave the global alone, so
      this holds until the next install. */
  method InstallThenCallOriginal(h: JitHook, statics: HookFfi.Statics, engine: HookFfi.PatchEngine)
    returns (before: Result<Addr, Panic>, after: Result<Addr, Panic>)
    requires h.trampoline.value == 0
    modifies engine, h.trampoline
    ensures before == Err(OriginalNotSet(h.base))
    ensures InstallTarget(h.attrs, statics, h.value).PatchAt? ==>
      var t := engine.trampolineFor(InstallTarget(h.attrs, statics, h.value).address, h.user);
      after == OriginalTarget(t, h.base) && (t != 0 ==> after == Ok(t))
    ensures !InstallTarget(h.attrs, statics, h.value).PatchAt? ==> after == Err(OriginalNotSet(h.base))
  {
    before := OriginalTarget(h.trampoline.value, h.base);
    var _ := h.Install(statics, engine);
    after := OriginalTarget(h.trampoline.value, h.base);
  }
}
