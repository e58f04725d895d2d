/** The parts of skyline-macro/src/hooks.rs that both hook generators share: the hook
    kind, the user function being rewritten, and `push_original_utils`, which gives a
    `Hook`-kind function the means to call the function it replaced.

    The user function is kept at the level the generators look at: its name, its
    parameters (a receiver or a typed pattern), its return type, its statements, its
    ABI and its outer attributes. Generated items are recorded by what they are, not
    by their tokens. */
module HookItems {
  import opened Wrappers
  import opened Rtld
  import HookFfi

  datatype HookKind = Callback | Inline | LegacyInline | Hook

  /** `HookKind::as_str`, used inside generated identifiers. */
  function AsStr(k: HookKind): (s: string)
    ensures |s| > 0
  {
    match k
    case Callback => "callback"
    case Inline => "inline"
    case LegacyInline => "legacy_inline"
    case Hook => "hook"
  }

  /** No two kinds share a name, so generated identifiers differ between kinds. */
  lemma AsStrInjective(a: HookKind, b: HookKind)
    ensures AsStr(a) == AsStr(b) <==> a == b
  {
    if a != b {
      assert AsStr(a)[0] != AsStr(b)[0] || |AsStr(a)| != |AsStr(b)|;
    }
  }

  /** `HookKind::to_path`: the engine's `HookType` of the same name. */
  function HookTypeOf(k: HookKind): (t: HookFfi.HookType)
  {
    match k
    case Callback => HookFfi.Callback
    case Inline => HookFfi.Inline
    case LegacyInline => HookFfi.LegacyInline
    case Hook => HookFfi.Hook
  }

  lemma HookTypeOfInjective(a: HookKind, b: HookKind)
    ensures HookTypeOf(a) == HookTypeOf(b) <==> a == b
  {
  }

  // ---------------------------------------------------------------------------
  // The user function

  datatype CompileError = CompileError(message: string)

  datatype Ty =
    | SelfType
    | Reference(mutable: bool, elem: Ty)
    | Named(name: string)

  datatype Pat = PatIdent(mutable: bool, ident: string) | OtherPat

  /** `syn::FnArg`: `self`, `&self`, `&mut self` (and `mut self`), or `pattern: Type`. */
  datatype FnArg =
    | Receiver(reference: bool, mutable: bool)
    | Typed(pat: Pat, ty: Ty)

  datatype ReturnType = Default | Returns(ty: Ty)

  datatype Stmt =
    | UserStmt(id: nat)
    /** `macro_rules! original`: names the hook and its trampoline global, and the
        signature to transmute the trampoline to. */
    | OriginalMacro(hook: string, trampoline: string, args: seq<FnArg>, output: ReturnType)
    /** `macro_rules! call_original`. */
    | CallOriginalMacro
    /** `extern "C" fn original(args) -> output { call_original!(names) }`. */
    | OriginalFn(args: seq<FnArg>, names: seq<string>, output: ReturnType)
    /** `static ONCE: Once` or `static ONCE: OnceCell<ty>`. */
    | OnceStatic(cell: ReturnType)
    /** `ONCE.call_once(|| { body })`. */
    | CallOnce(body: seq<Stmt>)
    /** `return *ONCE.get_or_init(|| { body })`. */
    | ReturnGetOrInit(body: seq<Stmt>)

  /** `syn::ItemFn`, which the generators rewrite in place. */
  class ItemFn {
    const ident: string
    var inputs: seq<FnArg>
    var output: ReturnType
    var stmts: seq<Stmt>
    var abi: Option<string>
    var attrs: seq<string>

    constructor (ident: string, inputs: seq<FnArg>, output: ReturnType, stmts: seq<Stmt>)
      ensures this.ident == ident && this.inputs == inputs && this.output == output
      ensures this.stmts == stmts && abi == None && attrs == []
    {
      this.ident := ident;
      this.inputs := inputs;
      this.output := output;
      this.stmts := stmts;
      abi := None;
      attrs := [];
    }
  }

  /** A parameter `convert_arg` produces: a plain, non-`mut` identifier pattern. */
  predicate PlainIdentArg(a: FnArg)
  {
    a.Typed? && a.pat.PatIdent? && !a.pat.mutable
  }

  /** `convert_arg`: a receiver becomes `this: Self` (behind `&`/`&mut` as the
      receiver was), a typed identifier loses its `mut`, any other pattern is an
      error. */
  function ConvertArg(a: FnArg): (r: Result<FnArg, CompileError>)
    ensures r.Ok? ==> PlainIdentArg(r.value)
    ensures r.Err? <==> a.Typed? && !a.pat.PatIdent?
    ensures r.Ok? && a.Typed? ==> r.value.ty == a.ty && r.value.pat.ident == a.pat.ident
    ensures r.Ok? && a.Receiver? ==> r.value.pat.ident == "this"
  {
    match a
    case Receiver(reference, mutable) =>
      Ok(Typed(PatIdent(false, "this"), if reference then Reference(mutable, SelfType) else SelfType))
    case Typed(PatIdent(_, ident), ty) => Ok(Typed(PatIdent(false, ident), ty))
    case Typed(OtherPat, _) => Err(CompileError("invalid argument specified"))
  }

  /** `arg_to_name`: `this` for a receiver, the identifier of an identifier pattern,
      an error otherwise. */
  function ArgToName(a: FnArg): (r: Result<string, CompileError>)
    ensures r.Err? <==> a.Typed? && !a.pat.PatIdent?
  {
    match a
    case Receiver(_, _) => Ok("this")
    case Typed(PatIdent(_, ident), _) => Ok(ident)
    case Typed(OtherPat, _) => Err(CompileError("invalid argument pattern"))
  }

  /** `.map(convert_arg).collect::<Result<Vec<_>>>()`: all converted, or the first
      error. */
  function ConvertArgs(args: seq<FnArg>): (r: Result<seq<FnArg>, CompileError>)
    ensures r.Ok? ==> (|r.value| == |args|
      && forall i :: 0 <= i < |args| ==> ConvertArg(args[i]) == Ok(r.value[i]))
    ensures r.Err? ==> exists i :: (0 <= i < |args| && ConvertArg(args[i]) == Err(r.error)
      && forall j :: 0 <= j < i ==> ConvertArg(args[j]).Ok?)
  {
    if |args| == 0 then Ok([])
    else match ConvertArg(args[0])
      case Err(e) => Err(e)
      case Ok(a) =>
        match ConvertArgs(args[1..])
        case Err(e) =>
          ghost var i :| 0 <= i < |args[1..]| && ConvertArg(args[1..][i]) == Err(e)
            && forall j :: 0 <= j < i ==> ConvertArg(args[1..][j]).Ok?;
          assert ConvertArg(args[i + 1]) == Err(e);
          Err(e)
        case Ok(rest) => Ok([a] + rest)
  }

  /** `.map(arg_to_name).collect::<Result<Vec<_>>>()`. */
  function ArgNames(args: seq<FnArg>): (r: Result<seq<string>, CompileError>)
    ensures r.Ok? ==> (|r.value| == |args|
      && forall i :: 0 <= i < |args| ==> ArgToName(args[i]) == Ok(r.value[i]))
    ensures r.Err? ==> exists i :: (0 <= i < |args| && ArgToName(args[i]) == Err(r.error)
      && forall j :: 0 <= j < i ==> ArgToName(args[j]).Ok?)
  {
    if |args| == 0 then Ok([])
    else match ArgToName(args[0])
      case Err(e) => Err(e)
      case Ok(n) =>
        match ArgNames(args[1..])
        case Err(e) =>
          ghost var i :| 0 <= i < |args[1..]| && ArgToName(args[1..][i]) == Err(e)
            && forall j :: 0 <= j < i ==> ArgToName(args[1..][j]).Ok?;
          assert ArgToName(args[i + 1]) == Err(e);
          Err(e)
        case Ok(rest) => Ok([n] + rest)
  }

  /** Every converted parameter has a name: the name pass after conversion cannot
      fail, and it yields each parameter's identifier (`this` for the receiver). */
  lemma {:induction false} NamesOfConverted(args: seq<FnArg>)
    requires ConvertArgs(args).Ok?
    ensures ArgNames(ConvertArgs(args).value).Ok?
    ensures forall i :: 0 <= i < |args| ==>
      ArgNames(ConvertArgs(args).value).value[i] == (if args[i].Receiver? then "this" else args[i].pat.ident)
  {
    if |args| > 0 {
      NamesOfConverted(args[1..]);
      var conv := ConvertArgs(args).value;
      assert conv[1..] == ConvertArgs(args[1..]).value;
    }
  }

  /** The three statements `push_original_utils` puts in front of the body. */
  function OriginalUtils(hook: string, trampoline: string, args: seq<FnArg>, names: seq<string>, output: ReturnType): seq<Stmt>
  {
    [OriginalMacro(hook, trampoline, args, output), CallOriginalMacro, OriginalFn(args, names, output)]
  }

  /** `push_original_utils`: converts the parameters (stopping at the first bad one
      before touching the body), inserts `original!` at 0 and `call_original!` at 1,
      names the converted parameters, and inserts `fn original` at 2. The signature
      is left as it was. */
  method PushOriginalUtils(f: ItemFn, hook: string, trampoline: string) returns (r: Result<(), CompileError>)
    modifies f
    ensures f.inputs == old(f.inputs) && f.output == old(f.output)
    ensures f.abi == old(f.abi) && f.attrs == old(f.attrs)
    ensures r.Err? <==> ConvertArgs(f.inputs).Err?
    ensures r.Err? ==> r.error == ConvertArgs(f.inputs).error && f.stmts == old(f.stmts)
    ensures r.Ok? ==> var args := ConvertArgs(f.inputs).value;
      ArgNames(args).Ok? && f.stmts == OriginalUtils(hook, trampoline, args, ArgNames(args).value, f.output) + old(f.stmts)
  {
    var inputs := f.inputs;
    var args: seq<FnArg> := [];
    var i := 0;
    while i < |inputs|
      invariant 0 <= i <= |inputs| && |args| == i
      invariant forall k :: 0 <= k < i ==> ConvertArg(inputs[k]) == Ok(args[k])
    {
      var c := ConvertArg(inputs[i]);
      if c.Err? {
        FirstError(inputs, i);
        return Err(c.error);
      }
      args := args + [c.value];
      i := i + 1;
    }
    AllConverted(inputs, args);
    var body := f.stmts;
    f.stmts := [OriginalMacro(hook, trampoline, args, f.output)] + f.stmts;
    f.stmts := f.stmts[..1] + [CallOriginalMacro] + f.stmts[1..];
    NamesOfConverted(inputs);
    var names: seq<string> := [];
    var j := 0;
    while j < |args|
      invariant 0 <= j <= |args| && |names| == j
      invariant forall k :: 0 <= k < j ==> ArgToName(args[k]) == Ok(names[k])
    {
      // cannot fail: the converted parameters all have names (`NamesOfConverted`)
      var n := ArgToName(args[j]);
      assert n.Ok?;
      names := names + [n.value];
      j := j + 1;
    }
    assert names == ArgNames(args).value;
    f.stmts := f.stmts[..2] + [OriginalFn(args, names, f.output)] + f.stmts[2..];
    assert f.stmts == OriginalUtils(hook, trampoline, args, names, f.output) + body;
    r := Ok(());
  }

  /** A parameter that fails after all earlier ones converted is the error
      `collect` reports. */
  lemma FirstError(args: seq<FnArg>, i: nat)
    requires i < |args| && ConvertArg(args[i]).Err?
    requires forall k :: 0 <= k < i ==> ConvertArg(args[k]).Ok?
    ensures ConvertArgs(args) == Err(ConvertArg(args[i]).error)
  {
  }

  /** When every parameter converts, `collect` gives the converted list. */
  lemma AllConverted(args: seq<FnArg>, converted: seq<FnArg>)
    requires |converted| == |args|
    requires forall k :: 0 <= k < |args| ==> ConvertArg(args[k]) == Ok(converted[k])
    ensures ConvertArgs(args) == Ok(converted)
  {
    if ConvertArgs(args).Ok? {
      assert forall k :: 0 <= k < |args| ==> ConvertArgs(args).value[k] == converted[k];
      assert ConvertArgs(args).value == converted;
    }
  }

  /** What `original!()` evaluates to at run time: the trampoline global, or a panic
      naming the hook while that global is still 0. */
  function OriginalTarget(trampoline: Addr, hook: string): (r: Result<Addr, Panic>)
    ensures r.Ok? <==> trampoline != 0
    ensures r.Ok? ==> r.value == trampoline
    ensures r.Err? ==> r.error == OriginalNotSet(hook)
  {
    if trampoline == 0 then Err(OriginalNotSet(hook)) else Ok(trampoline)
  }
}
