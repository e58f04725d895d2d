/** Choosing how a hook is installed, and generating it (skyline-macro/src/hooks.rs).
    A hook is either a JIT hook, which the engine patches through its own table, or a
    symbol hook, which gets an assembly stub (see `JitHooks` and `SymbolHooks`). The
    choice depends on the style keyword, the shape of the target expression and
    `force_jit`. A diagnostic is an output value here. */
module Hooks {
  import opened Wrappers
  import opened HookItems
  import Attrs
  import JitHooks
  import SymbolHooks

  // ---------------------------------------------------------------------------
  // Strategy

  datatype Diagnostic =
    /** A warning on `force_jit`: the hook needs the JIT anyway. */
    | UnnecessaryForceJit
    /** An error on `force_jit`: a string target can only be hooked as a symbol. */
    | ForceJitOnSymbolHook
    /** An error on `module`: an absolute target has no module. */
    | ModuleOnReplace

  predicate IsError(d: Diagnostic)
  {
    !d.UnnecessaryForceJit?
  }

  function Message(d: Diagnostic): string
  {
    match d
    case UnnecessaryForceJit => "unnecessary argument of 'force_jit' on hook which must utilize JIT anyways"
    case ForceJitOnSymbolHook => "invalid argument of 'force_jit' on hook that must be installed on a symbol"
    case ModuleOnReplace => "invalid `module` argument on hook which uses absolute address -- did you mean `offset` instead of `replace`?"
  }

  datatype Strategy = Strategy(jit: bool, diagnostic: Option<Diagnostic>)

  /** `should_be_jit_hook`. */
  function ShouldBeJitHook(attrs: Attrs.HookAttributes): (s: Strategy)
    ensures s.diagnostic.Some? ==> attrs.forceJit && s.diagnostic.value != ModuleOnReplace
    ensures !s.jit ==> attrs.style.key == Attrs.Symbol && (attrs.style.value.StrLit? || attrs.style.value.Path?)
  {
    var warning := if attrs.forceJit then Some(UnnecessaryForceJit) else None;
    if attrs.style.key != Attrs.Symbol then Strategy(true, warning)
    else match attrs.style.value
      case StrLit(_) => Strategy(false, if attrs.forceJit then Some(ForceJitOnSymbolHook) else None)
      case OtherLit => Strategy(true, warning)
      case Path(_) => Strategy(attrs.forceJit, None)
      case Other => Strategy(true, warning)
  }

  /** The hooks that cannot be symbol hooks: an `offset` into a module, or a
      `replace` target that is neither a string (a symbol name) nor a path (possibly a
      function). */
  predicate JitRequired(attrs: Attrs.HookAttributes)
  {
    attrs.style.key == Attrs.Offset || !(attrs.style.value.StrLit? || attrs.style.value.Path?)
  }

  lemma OffsetSelectsJit(attrs: Attrs.HookAttributes)
    requires attrs.style.key == Attrs.Offset
    ensures ShouldBeJitHook(attrs).jit
  {
  }

  /** A string target is hooked as a symbol; asking for the JIT there is an error. */
  lemma StringLiteralSelectsSymbol(attrs: Attrs.HookAttributes)
    requires attrs.style.key == Attrs.Symbol && attrs.style.value.StrLit?
    ensures !ShouldBeJitHook(attrs).jit
    ensures ShouldBeJitHook(attrs).diagnostic == (if attrs.forceJit then Some(ForceJitOnSymbolHook) else None)
  {
  }

  /** An integer (or any non-string literal) target needs the JIT. */
  lemma OtherLiteralSelectsJit(attrs: Attrs.HookAttributes)
    requires attrs.style.key == Attrs.Symbol && attrs.style.value.OtherLit?
    ensures ShouldBeJitHook(attrs).jit
  {
  }

  /** A path target is a symbol hook unless `force_jit` says otherwise, and is never
      diagnosed. */
  lemma PathJitIffForced(attrs: Attrs.HookAttributes)
    requires attrs.style.key == Attrs.Symbol && attrs.style.value.Path?
    ensures ShouldBeJitHook(attrs).jit <==> attrs.forceJit
    ensures ShouldBeJitHook(attrs).diagnostic.None?
  {
  }

  /** The JIT is chosen exactly when it is required or forced on a path. */
  lemma JitExactly(attrs: Attrs.HookAttributes)
    ensures ShouldBeJitHook(attrs).jit <==> JitRequired(attrs) || (attrs.forceJit && attrs.style.value.Path?)
  {
  }

  /** The warning appears exactly when `force_jit` is given and the JIT was required
      anyway; the error exactly when it is given on a string target. */
  lemma DiagnosticsExactly(attrs: Attrs.HookAttributes)
    ensures ShouldBeJitHook(attrs).diagnostic == Some(UnnecessaryForceJit) <==> attrs.forceJit && JitRequired(attrs)
    ensures ShouldBeJitHook(attrs).diagnostic == Some(ForceJitOnSymbolHook)
      <==> attrs.forceJit && attrs.style.key == Attrs.Symbol && attrs.style.value.StrLit?
    ensures ShouldBeJitHook(attrs).diagnostic != Some(ModuleOnReplace)
  {
  }

  /** `error_module_on_replace`. */
  function ErrorModuleOnReplace(attrs: Attrs.HookAttributes): (d: Option<Diagnostic>)
    ensures d.Some? <==> attrs.style.key == Attrs.Symbol && attrs.moduleArg.Some?
    ensures d.Some? ==> d.value == ModuleOnReplace && IsError(d.value)
  {
    if attrs.style.key == Attrs.Symbol && attrs.moduleArg.Some? then Some(ModuleOnReplace) else None
  }

  // ---------------------------------------------------------------------------
  // Expansion

  /** What the generator emits besides the rewritten function: the module of a JIT
      hook (named by its trampoline global) or of a symbol hook (its four symbols). */
  datatype Generated =
    | JitHookModule(trampoline: string)
    | SymbolHookModule(names: SymbolHooks.ManualNames)

  /** The trampoline global the generated module declares. */
  function TrampolineOf(g: Generated): string
  {
    match g
    case JitHookModule(t) => t
    case SymbolHookModule(n) => n.trampoline
  }

  /** The diagnostics emitted, in order, and the generated module or the compile
      error that replaces the whole output. */
  datatype Expansion = Expansion(diagnostics: seq<Diagnostic>, output: Result<Generated, CompileError>)

  function OptionSeq<T>(o: Option<T>): seq<T>
  {
    if o.Some? then [o.value] else []
  }

  /** `make_hook_internal`'s result for a function `ident` with parameters `inputs`:
      the strategy's diagnostic, then the module diagnostic; then, for a `hook`, the
      parameter conversion of `push_original_utils` may fail first; then the crate
      lookup of the install generator; otherwise a symbol hook when the JIT is not
      chosen, a JIT hook when it is. */
  function ExpansionOf(attrs: Attrs.HookAttributes, kind: HookKind, ident: string, inputs: seq<FnArg>,
                       crate: Result<string, CompileError>): (e: Expansion)
    ensures |e.diagnostics| <= 2
    ensures crate.Err? ==> e.output.Err?
    ensures e.output.Ok? ==> TrampolineOf(e.output.value) == JitHooks.TrampolineIdent(ident, kind)
  {
    var strategy := ShouldBeJitHook(attrs);
    var diagnostics := OptionSeq(strategy.diagnostic) + OptionSeq(ErrorModuleOnReplace(attrs));
    var output :=
      if kind == Hook && ConvertArgs(inputs).Err? then Err(ConvertArgs(inputs).error)
      else if crate.Err? then Err(crate.error)
      else if strategy.jit then Ok(JitHookModule(JitHooks.TrampolineIdent(ident, kind)))
      else Ok(SymbolHookModule(SymbolHooks.ManualHookNames(ident, kind)));
    Expansion(diagnostics, output)
  }

  /** The symbol path is taken exactly when the JIT is not chosen, and both kinds of
      module declare the trampoline global under the same name. */
  lemma SymbolIffNotJit(attrs: Attrs.HookAttributes, kind: HookKind, ident: string, inputs: seq<FnArg>,
                        crate: Result<string, CompileError>)
    requires ExpansionOf(attrs, kind, ident, inputs, crate).output.Ok?
    ensures var g := ExpansionOf(attrs, kind, ident, inputs, crate).output.value;
      (g.SymbolHookModule? <==> !ShouldBeJitHook(attrs).jit)
      && TrampolineOf(g) == JitHooks.TrampolineIdent(ident, kind)
  {
  }

  /** At most two diagnostics; a module on `replace` is always reported, even when
      the expansion fails. */
  lemma ExpansionDiagnostics(attrs: Attrs.HookAttributes, kind: HookKind, ident: string, inputs: seq<FnArg>,
                             crate: Result<string, CompileError>)
    ensures var e := ExpansionOf(attrs, kind, ident, inputs, crate);
      |e.diagnostics| <= 2
      && (ModuleOnReplace in e.diagnostics <==> attrs.style.key == Attrs.Symbol && attrs.moduleArg.Some?)
  {
  }

  /** A failed crate lookup fails every expansion, unless a `hook`'s parameters failed
      to convert first. */
  lemma CrateLookupFailure(attrs: Attrs.HookAttributes, kind: HookKind, ident: string, inputs: seq<FnArg>,
                           crate: Result<string, CompileError>)
    requires crate.Err?
    ensures var out := ExpansionOf(attrs, kind, ident, inputs, crate).output;
      out.Err? && (kind != Hook || ConvertArgs(inputs).Ok? ==> out.error == crate.error)
  {
  }

  const DenyImproperCtypes := "deny(improper_ctypes_definitions)"
  const NoMangle := "no_mangle"

  /** `make_hook_internal`: rewrites the function in place (the C ABI, two outer
      attributes and, for a `hook`, the `original` utilities reading the module's
      trampoline global) and expands as `ExpansionOf` says. */
  method MakeHookInternal(attrs: Attrs.HookAttributes, f: ItemFn, kind: HookKind, crate: Result<string, CompileError>)
    returns (e: Expansion)
    modifies f
    ensures e == ExpansionOf(attrs, kind, f.ident, old(f.inputs), crate)
    ensures f.abi == Some("C") && f.attrs == old(f.attrs) + [DenyImproperCtypes, NoMangle]
    ensures f.inputs == old(f.inputs) && f.output == old(f.output)
    ensures kind != Hook || ConvertArgs(f.inputs).Err? ==> f.stmts == old(f.stmts)
    ensures kind == Hook && ConvertArgs(f.inputs).Ok? ==>
      var args := ConvertArgs(f.inputs).value;
      ArgNames(args).Ok?
      && f.stmts == OriginalUtils(f.ident, JitHooks.TrampolineIdent(f.ident, kind), args, ArgNames(args).value, f.output) + old(f.stmts)
  {
    var strategy := ShouldBeJitHook(attrs);
    var diagnostics := OptionSeq(strategy.diagnostic);
    diagnostics := diagnostics + OptionSeq(ErrorModuleOnReplace(attrs));
    f.abi := Some("C");
    f.attrs := f.attrs + [DenyImproperCtypes];
    f.attrs := f.attrs + [NoMangle];
    var trampoline := JitHooks.TrampolineIdent(f.ident, kind);
    if kind == Hook {
      var pushed := PushOriginalUtils(f, f.ident, trampoline);
      if pushed.Err? {
        return Expansion(diagnostics, Err(pushed.error));
      }
    }
    if crate.Err? {
      return Expansion(diagnostics, Err(crate.error));
    }
    if strategy.jit {
      e := Expansion(diagnostics, Ok(JitHookModule(trampoline)));
    } else {
      e := Expansion(diagnostics, Ok(SymbolHookModule(SymbolHooks.ManualHookNames(f.ident, kind))));
    }
  }

  /** `make_hook`: parses the attribute (a parse failure is the whole output, with the
      function untouched), then `make_hook_internal`. */
  method MakeHook(tokens: seq<Attrs.Token>, f: ItemFn, kind: HookKind, crate: Result<string, CompileError>)
    returns (e: Expansion)
    modifies f
    ensures Attrs.ParseAttributes(tokens).Err? ==>
      e == Expansion([], Err(CompileError(Attrs.ParseAttributes(tokens).error.message)))
      && f.stmts == old(f.stmts) && f.abi == old(f.abi) && f.attrs == old(f.attrs)
    ensures Attrs.ParseAttributes(tokens).Ok? ==>
      e == ExpansionOf(Attrs.ParseAttributes(tokens).value, kind, f.ident, old(f.inputs), crate)
      && f.abi == Some("C") && f.attrs == old(f.attrs) + [DenyImproperCtypes, NoMangle]
  {
    var input := new Attrs.ParseStream(tokens);
    var parsed := Attrs.ParseHookAttributes(input);
    if parsed.Err? {
      return Expansion([], Err(CompileError(parsed.error.message)));
    }
    if input.pos != |tokens| {
      return Expansion([], Err(CompileError("unexpected token")));
    }
    e := MakeHookInternal(parsed.value, f, kind, crate);
  }

  // ---------------------------------------------------------------------------
  // Shims

  /** The body `make_shim` substitutes: the original statements run inside a
      `Once` (for `()`) or a `OnceCell` whose value is returned. */
  function ShimBody(output: ReturnType, body: seq<Stmt>): (s: seq<Stmt>)
    ensures |s| == 2 && s[0] == OnceStatic(output)
  {
    match output
    case Default => [OnceStatic(Default), CallOnce(body)]
    case Returns(ty) => [OnceStatic(Returns(ty)), ReturnGetOrInit(body)]
  }

  /** A shim's user statements end up only inside the one-shot closure. */
  lemma ShimBodyWrapsStatements(output: ReturnType, body: seq<Stmt>)
    ensures forall s :: s in ShimBody(output, body) ==> !s.UserStmt?
    ensures ShimBody(output, body)[1].CallOnce? <==> output.Default?
    ensures ShimBody(output, body)[1].body == body
  {
  }

  /** `make_shim`: parses the attribute, looks the crate up (either failure is the
      whole output), moves the body into a one-shot cell, and makes a `hook`. */
  method MakeShim(tokens: seq<Attrs.Token>, f: ItemFn, crate: Result<string, CompileError>) returns (e: Expansion)
    modifies f
    ensures Attrs.ParseAttributes(tokens).Err? ==>
      e == Expansion([], Err(CompileError(Attrs.ParseAttributes(tokens).error.message))) && f.stmts == old(f.stmts)
    ensures Attrs.ParseAttributes(tokens).Ok? && crate.Err? ==>
      e == Expansion([], Err(crate.error)) && f.stmts == old(f.stmts)
    ensures Attrs.ParseAttributes(tokens).Ok? && crate.Ok? ==>
      e == ExpansionOf(Attrs.ParseAttributes(tokens).value, Hook, f.ident, old(f.inputs), crate)
      && f.abi == Some("C")
      && (ConvertArgs(f.inputs).Err? ==> f.stmts == ShimBody(old(f.output), old(f.stmts)))
      && (ConvertArgs(f.inputs).Ok? ==>
          var args := ConvertArgs(f.inputs).value;
          ArgNames(args).Ok?
          && f.stmts == OriginalUtils(f.ident, JitHooks.TrampolineIdent(f.ident, Hook), args, ArgNames(args).value, f.output)
                        + ShimBody(old(f.output), old(f.stmts)))
  {
    var input := new Attrs.ParseStream(tokens);
    var parsed := Attrs.ParseHookAttributes(input);
    if parsed.Err? {
      return Expansion([], Err(CompileError(parsed.error.message)));
    }
    if input.pos != |tokens| {
      return Expansion([], Err(CompileError("unexpected token")));
    }
    if crate.Err? {
      return Expansion([], Err(crate.error));
    }
    var body := f.stmts;
    f.stmts := [];
    f.stmts := ShimBody(f.output, body);
    e := MakeHookInternal(parsed.value, f, Hook, crate);
  }

  /** The `Once` of a shim returning `()`: the body runs on the first call only. */
  class OnceShim {
    var done: bool
    ghost var bodyRuns: nat

    ghost predicate Valid()
      reads this
    {
      bodyRuns == if done then 1 else 0
    }

    constructor ()
      ensures Valid() && !done
    {
      done := false;
      bodyRuns := 0;
    }

    method Call() returns (ranBody: bool)
      requires Valid()
      modifies this
      ensures Valid() && done
      ensures ranBody <==> !old(done)
      ensures bodyRuns == old(bodyRuns) + (if ranBody then 1 else 0)
    {
      ranBody := !done;
      if !done {
        bodyRuns := bodyRuns + 1;
        done := true;
      }
    }
  }

  /** The `OnceCell` of a shim returning a value: the first call runs the body and
      keeps its result; every call returns that result. `body` is what the body would
      produce if it ran on this call. */
  class OnceCellShim<T> {
    var cell: Option<T>
    ghost var bodyRuns: nat

    ghost predicate Valid()
      reads this
    {
      bodyRuns == if cell.Some? then 1 else 0
    }

    constructor ()
      ensures Valid() && cell.None?
    {
      cell := None;
      bodyRuns := 0;
    }

    method Call(body: T) returns (r: T)
      requires Valid()
      modifies this
      ensures Valid() && cell.Some? && r == cell.value
      ensures old(cell).None? ==> r == body && bodyRuns == 1
      ensures old(cell).Some? ==> cell == old(cell) && bodyRuns == old(bodyRuns)
    {
      if cell.None? {
        bodyRuns := bodyRuns + 1;
        cell := Some(body);
      }
      r := cell.value;
    }
  }

  /** Two calls to a fresh value shim: the second returns the first call's result
      whatever the body would produce the second time, and the body ran once. */
  method CallShimTwice<T>(first: T, second: T) returns (a: T, b: T)
    ensures a == first && b == first
  {
    var shim := new OnceCellShim<T>();
    a := shim.Call(first);
    b := shim.Call(second);
    assert shim.bodyRuns == 1;
  }
}
