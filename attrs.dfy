/** The hook attribute grammar (skyline-macro/src/attrs.rs):

      [module = <string literal | nnrtld | main | skyline | nnSdk> ,] (replace | offset) = <expr> [, force_jit]

    and the `name = "<literal>"` argument of `#[main]`.

    Tokens and expressions are abstracted: a token is an identifier, a punctuation
    character, the path separator `::`, a string literal, any other literal, or a
    delimited group; an expression is a primary (a literal, a group or a path)
    optionally joined to further primaries by binary operators. Only the shape hook
    selection looks at is kept: a string literal, another literal, a path, or anything
    else. */
module Attrs {
  import opened Wrappers

  datatype Token =
    | Ident(name: string)
    | Punct(ch: char)
    | PathSep
    | LitStr(value: string)
    | LitOther
    | Group

  /** An expression by its shape. */
  datatype Expr = StrLit(value: string) | OtherLit | Path(segments: seq<string>) | Other

  datatype ParseError = ParseError(message: string)

  /** What a parser produced from position `pos`: a value and the position after it. */
  type Parsed<T> = Result<(T, nat), ParseError>

  datatype KnownModule = Rtld | Main | Skyline | Sdk

  datatype ModuleArg = ByKnown(known: KnownModule) | ByName(name: string)

  datatype HookStyle = Symbol | Offset

  /** `KeyValue<Key, Value>`: `key = value`; the `=` carries nothing. */
  datatype KeyValue<K, V> = KeyValue(key: K, value: V)

  /** `HookAttributes`. The `module` and `name` keys and the `force_jit` keyword carry
      nothing but their presence, so only the values are kept. */
  datatype HookAttributes = HookAttributes(
    moduleArg: Option<ModuleArg>,
    style: KeyValue<HookStyle, Expr>,
    forceJit: bool)

  // ---------------------------------------------------------------------------
  // The grammar, as functions from a token sequence and a position

  function IsKeyword(toks: seq<Token>, pos: nat, kw: string): bool
  {
    pos < |toks| && toks[pos] == Ident(kw)
  }

  function IsPunct(toks: seq<Token>, pos: nat, ch: char): bool
  {
    pos < |toks| && toks[pos] == Punct(ch)
  }

  /** `true` and `false` are keywords: the lexer hands them over as identifiers, but
      they are boolean literals and never a path segment. */
  predicate IsBoolLiteral(n: string)
  {
    n == "true" || n == "false"
  }

  /** The rest of a path after its first segment: `:: ident` pairs. */
  function PathRest(toks: seq<Token>, pos: nat, segments: seq<string>): (r: Parsed<seq<string>>)
    requires pos <= |toks|
    ensures r.Ok? ==> pos <= r.value.1 <= |toks| && |r.value.0| >= |segments|
    decreases |toks| - pos
  {
    if pos < |toks| && toks[pos] == PathSep then
      if pos + 1 < |toks| && toks[pos + 1].Ident? && !IsBoolLiteral(toks[pos + 1].name) then
        PathRest(toks, pos + 2, segments + [toks[pos + 1].name])
      else Err(ParseError("expected identifier"))
    else Ok((segments, pos))
  }

  /** A primary expression: a literal (a boolean among them), a group or a path. */
  function Primary(toks: seq<Token>, pos: nat): (r: Parsed<Expr>)
    requires pos <= |toks|
    ensures r.Ok? ==> pos < r.value.1 <= |toks|
  {
    if pos == |toks| then Err(ParseError("expected expression"))
    else match toks[pos]
      case LitStr(v) => Ok((StrLit(v), pos + 1))
      case LitOther => Ok((OtherLit, pos + 1))
      case Group => Ok((Other, pos + 1))
      case Ident(n) =>
        if IsBoolLiteral(n) then Ok((OtherLit, pos + 1))
        else
          (match PathRest(toks, pos + 1, [n])
           case Ok((segments, next)) => Ok((Path(segments), next))
           case Err(e) => Err(e))
      case _ => Err(ParseError("expected expression"))
  }

  /** The binary and assignment operators of Rust expressions, as the punctuation
      characters they are spelled with. */
  const BinaryOperators: set<string> := {
    "+", "-", "*", "/", "%", "^", "&", "|", "<", ">", "=",
    "==", "!=", "<=", ">=", "&&", "||", "<<", ">>",
    "+=", "-=", "*=", "/=", "%=", "^=", "&=", "|=", "<<=", ">>="}

  /** The character of a punctuation token; a space, which no operator contains, for
      any other token. */
  function PunctChar(t: Token): char
  {
    if t.Punct? then t.ch else ' '
  }

  /** The characters a run of punctuation tokens spells. */
  function Spelling(ts: seq<Token>): (s: string)
    ensures |s| == |ts|
  {
    if ts == [] then [] else [PunctChar(ts[0])] + Spelling(ts[1..])
  }

  /** How many tokens from `pos` spell a binary operator, the longest one first, or 0. */
  function OperatorLength(toks: seq<Token>, pos: nat): (n: nat)
    requires pos <= |toks|
    ensures n <= 3 && pos + n <= |toks|
    ensures n > 0 ==> Spelling(toks[pos..pos + n]) in BinaryOperators
    ensures n < 3 && pos + 3 <= |toks| ==> Spelling(toks[pos..pos + 3]) !in BinaryOperators
    ensures n < 2 && pos + 2 <= |toks| ==> Spelling(toks[pos..pos + 2]) !in BinaryOperators
  {
    if pos + 3 <= |toks| && Spelling(toks[pos..pos + 3]) in BinaryOperators then 3
    else if pos + 2 <= |toks| && Spelling(toks[pos..pos + 2]) in BinaryOperators then 2
    else if pos + 1 <= |toks| && Spelling(toks[pos..pos + 1]) in BinaryOperators then 1
    else 0
  }

  /** Binary operators and their right operands after a primary, up to a `,` or any
      other token that is not an operator; true when there was at least one. */
  function OperatorTail(toks: seq<Token>, pos: nat): (r: Parsed<bool>)
    requires pos <= |toks|
    ensures r.Ok? ==> pos <= r.value.1 <= |toks|
    decreases |toks| - pos
  {
    var n := OperatorLength(toks, pos);
    if n > 0 then
      match Primary(toks, pos + n)
      case Err(e) => Err(e)
      case Ok((_, next)) =>
        (match OperatorTail(toks, next)
         case Err(e) => Err(e)
         case Ok((_, last)) => Ok((true, last)))
    else Ok((false, pos))
  }

  /** `syn::Expr`: a primary alone keeps its shape; with operators it is `Other`. */
  function ExprSpec(toks: seq<Token>, pos: nat): (r: Parsed<Expr>)
    requires pos <= |toks|
    ensures r.Ok? ==> pos < r.value.1 <= |toks|
  {
    match Primary(toks, pos)
    case Err(e) => Err(e)
    case Ok((primary, next)) =>
      match OperatorTail(toks, next)
      case Err(e) => Err(e)
      case Ok((hasOperator, last)) => Ok((if hasOperator then Other else primary, last))
  }

  /** `KnownModule`: one of four keywords, else "unknown module". */
  function KnownModuleSpec(toks: seq<Token>, pos: nat): (r: Parsed<KnownModule>)
    requires pos <= |toks|
    ensures r.Ok? ==> r.value.1 == pos + 1 <= |toks| && toks[pos] == Ident(KnownModuleKeyword(r.value.0))
    ensures r.Err? ==> r.error == ParseError("unknown module")
  {
    if IsKeyword(toks, pos, "nnrtld") then Ok((Rtld, pos + 1))
    else if IsKeyword(toks, pos, "main") then Ok((Main, pos + 1))
    else if IsKeyword(toks, pos, "skyline") then Ok((Skyline, pos + 1))
    else if IsKeyword(toks, pos, "nnSdk") then Ok((Sdk, pos + 1))
    else Err(ParseError("unknown module"))
  }

  /** `ModuleArg`: a string literal first, else a known module. */
  function ModuleArgSpec(toks: seq<Token>, pos: nat): (r: Parsed<ModuleArg>)
    requires pos <= |toks|
    ensures r.Ok? ==> r.value.1 == pos + 1 <= |toks| && toks[pos] == ModuleArgTokens(r.value.0)[0]
    ensures r.Ok? && r.value.0.ByKnown? ==> pos < |toks| && !toks[pos].LitStr?
  {
    if pos < |toks| && toks[pos].LitStr? then Ok((ByName(toks[pos].value), pos + 1))
    else match KnownModuleSpec(toks, pos)
      case Ok((k, next)) => Ok((ByKnown(k), next))
      case Err(e) => Err(e)
  }

  /** `HookStyle`: `replace` or `offset`, else "unknown hook type". */
  function HookStyleSpec(toks: seq<Token>, pos: nat): (r: Parsed<HookStyle>)
    requires pos <= |toks|
    ensures r.Ok? ==> r.value.1 == pos + 1 <= |toks| && toks[pos] == Ident(StyleKeyword(r.value.0))
    ensures r.Err? ==> r.error == ParseError("unknown hook type")
  {
    if IsKeyword(toks, pos, "replace") then Ok((Symbol, pos + 1))
    else if IsKeyword(toks, pos, "offset") then Ok((Offset, pos + 1))
    else Err(ParseError("unknown hook type"))
  }

  /** `KeyValue<kw::module, ModuleArg>`. */
  function ModuleKvSpec(toks: seq<Token>, pos: nat): (r: Parsed<ModuleArg>)
    requires pos <= |toks|
    ensures r.Ok? ==> r.value.1 == pos + 3 <= |toks|
    ensures r.Ok? ==> toks[pos..pos + 3] == [Ident("module"), Punct('=')] + ModuleArgTokens(r.value.0)
  {
    if !IsKeyword(toks, pos, "module") then Err(ParseError("expected `module`"))
    else if !IsPunct(toks, pos + 1, '=') then Err(ParseError("expected `=`"))
    else match ModuleArgSpec(toks, pos + 2)
      case Ok((m, next)) => Ok((m, next))
      case Err(e) => Err(e)
  }

  /** `KeyValue<HookStyle, syn::Expr>`. */
  function StyleKvSpec(toks: seq<Token>, pos: nat): (r: Parsed<KeyValue<HookStyle, Expr>>)
    requires pos <= |toks|
    ensures r.Ok? ==> pos + 2 < r.value.1 <= |toks|
    ensures r.Ok? ==> toks[pos] == Ident(StyleKeyword(r.value.0.key)) && toks[pos + 1] == Punct('=')
  {
    match HookStyleSpec(toks, pos)
    case Err(e) => Err(e)
    case Ok((style, next)) =>
      if !IsPunct(toks, next, '=') then Err(ParseError("expected `=`"))
      else match ExprSpec(toks, next + 1)
        case Ok((e, last)) => Ok((KeyValue(style, e), last))
        case Err(e) => Err(e)
  }

  /** The optional leading `module = M ,` of `HookAttributes`, taken only when the
      first token is `module`. */
  function ModulePrefixSpec(toks: seq<Token>, pos: nat): (r: Parsed<Option<ModuleArg>>)
    requires pos <= |toks|
    ensures r.Ok? && r.value.0.None? ==> r.value.1 == pos && !IsKeyword(toks, pos, "module")
    ensures r.Ok? && r.value.0.Some? ==> r.value.1 == pos + 4 <= |toks| && toks[pos] == Ident("module")
  {
    if IsKeyword(toks, pos, "module") then
      match ModuleKvSpec(toks, pos)
      case Err(e) => Err(e)
      case Ok((m, next)) =>
        if IsPunct(toks, next, ',') then Ok((Some(m), next + 1)) else Err(ParseError("expected `,`"))
    else Ok((None, pos))
  }

  /** `HookAttributes`: an optional leading `module = M ,`, the style, and an optional
      `, force_jit`. */
  function AttrsSpec(toks: seq<Token>, pos: nat): (r: Parsed<HookAttributes>)
    requires pos <= |toks|
    ensures r.Ok? ==> pos + 2 < r.value.1 <= |toks|
    ensures r.Ok? ==> toks[pos] == Ident(if r.value.0.moduleArg.Some? then "module" else StyleKeyword(r.value.0.style.key))
    ensures r.Ok? && r.value.0.forceJit ==> toks[r.value.1 - 2..r.value.1] == [Punct(','), Ident("force_jit")]
  {
    match ModulePrefixSpec(toks, pos)
    case Err(e) => Err(e)
    case Ok((m, afterModule)) =>
      match StyleKvSpec(toks, afterModule)
      case Err(e) => Err(e)
      case Ok((style, afterStyle)) =>
        if !IsPunct(toks, afterStyle, ',') then Ok((HookAttributes(m, style, false), afterStyle))
        else if IsKeyword(toks, afterStyle + 1, "force_jit") then Ok((HookAttributes(m, style, true), afterStyle + 2))
        else Err(ParseError("expected `force_jit`"))
  }

  /** A whole attribute: the grammar must consume every token. */
  function ParseAttributes(toks: seq<Token>): (r: Result<HookAttributes, ParseError>)
    ensures r.Ok? ==> |toks| >= 3
    ensures r.Ok? ==> toks[0] == Ident(if r.value.moduleArg.Some? then "module" else StyleKeyword(r.value.style.key))
    ensures r.Ok? && r.value.forceJit ==> toks[|toks| - 1] == Ident("force_jit")
  {
    match AttrsSpec(toks, 0)
    case Err(e) => Err(e)
    case Ok((a, next)) => if next == |toks| then Ok(a) else Err(ParseError("unexpected token"))
  }

  /** `MainAttrs`, `KeyValue<kw::name, syn::LitStr>`. */
  function NameKvSpec(toks: seq<Token>, pos: nat): (r: Parsed<string>)
    requires pos <= |toks|
    ensures r.Ok? ==> r.value.1 == pos + 3 <= |toks|
    ensures r.Ok? ==> toks[pos..pos + 3] == [Ident("name"), Punct('='), LitStr(r.value.0)]
  {
    if !IsKeyword(toks, pos, "name") then Err(ParseError("expected `name`"))
    else if !IsPunct(toks, pos + 1, '=') then Err(ParseError("expected `=`"))
    else if pos + 2 < |toks| && toks[pos + 2].LitStr? then Ok((toks[pos + 2].value, pos + 3))
    else Err(ParseError("expected string literal"))
  }

  // ---------------------------------------------------------------------------
  // The parse stream and the `Parse` implementations

  /** Whether a parser's result and the cursor after it are what the grammar gives. */
  predicate Agrees<T(==)>(r: Result<T, ParseError>, pos: nat, spec: Parsed<T>)
  {
    match r
    case Ok(v) => spec == Ok((v, pos))
    case Err(e) => spec == Err(e)
  }

  /** `syn::parse::ParseStream`: the tokens and a cursor that only moves forward. A
      failed attempt to read one token leaves the cursor where it was. */
  class ParseStream {
    const toks: seq<Token>
    var pos: nat

    ghost predicate Valid()
      reads this
    {
      pos <= |toks|
    }

    constructor (toks: seq<Token>)
      ensures Valid() && this.toks == toks && pos == 0
    {
      this.toks := toks;
      pos := 0;
    }

    /** `input.peek(kw)`. */
    method PeekKeyword(kw: string) returns (b: bool)
      requires Valid()
      ensures b == IsKeyword(toks, pos, kw)
    {
      b := pos < |toks| && toks[pos] == Ident(kw);
    }

    /** `input.parse::<kw>()`: consumes the keyword if it is next. */
    method ParseKeyword(kw: string) returns (b: bool)
      requires Valid()
      modifies this
      ensures Valid()
      ensures b == IsKeyword(toks, old(pos), kw)
      ensures pos == if b then old(pos) + 1 else old(pos)
    {
      b := pos < |toks| && toks[pos] == Ident(kw);
      if b {
        pos := pos + 1;
      }
    }

    /** `input.parse::<Token![c]>()`. */
    method ParsePunct(ch: char) returns (b: bool)
      requires Valid()
      modifies this
      ensures Valid()
      ensures b == IsPunct(toks, old(pos), ch)
      ensures pos == if b then old(pos) + 1 else old(pos)
    {
      b := pos < |toks| && toks[pos] == Punct(ch);
      if b {
        pos := pos + 1;
      }
    }

    /** `input.parse::<syn::LitStr>()`. */
    method ParseLitStr() returns (r: Option<string>)
      requires Valid()
      modifies this
      ensures Valid()
      ensures r.Some? <==> old(pos) < |toks| && toks[old(pos)].LitStr?
      ensures r.Some? ==> r.value == toks[old(pos)].value && pos == old(pos) + 1
      ensures r.None? ==> pos == old(pos)
    {
      if pos < |toks| && toks[pos].LitStr? {
        r := Some(toks[pos].value);
        pos := pos + 1;
      } else {
        r := None;
      }
    }

    /** `input.parse::<syn::Expr>()`. */
    method ParseExpr() returns (r: Result<Expr, ParseError>)
      requires Valid()
      modifies this
      ensures Valid()
      ensures Agrees(r, pos, ExprSpec(toks, old(pos)))
    {
      match ExprSpec(toks, pos)
      case Ok((e, next)) =>
        pos := next;
        r := Ok(e);
      case Err(e) =>
        r := Err(e);
    }
  }

  /** `impl Parse for KnownModule`: tries each keyword in turn. */
  method ParseKnownModule(input: ParseStream) returns (r: Result<KnownModule, ParseError>)
    requires input.Valid()
    modifies input
    ensures input.Valid()
    ensures Agrees(r, input.pos, KnownModuleSpec(input.toks, old(input.pos)))
  {
    var b := input.ParseKeyword("nnrtld");
    if b {
      return Ok(Rtld);
    }
    b := input.ParseKeyword("main");
    if b {
      return Ok(Main);
    }
    b := input.ParseKeyword("skyline");
    if b {
      return Ok(Skyline);
    }
    b := input.ParseKeyword("nnSdk");
    if b {
      return Ok(Sdk);
    }
    return Err(ParseError("unknown module"));
  }

  /** `impl Parse for ModuleArg`: a string literal, else a known module. */
  method ParseModuleArg(input: ParseStream) returns (r: Result<ModuleArg, ParseError>)
    requires input.Valid()
    modifies input
    ensures input.Valid()
    ensures Agrees(r, input.pos, ModuleArgSpec(input.toks, old(input.pos)))
  {
    var s := input.ParseLitStr();
    if s.Some? {
      return Ok(ByName(s.value));
    }
    var k := ParseKnownModule(input);
    match k
    case Ok(known) => r := Ok(ByKnown(known));
    case Err(e) => r := Err(e);
  }

  /** `impl Parse for HookStyle`. */
  method ParseHookStyle(input: ParseStream) returns (r: Result<HookStyle, ParseError>)
    requires input.Valid()
    modifies input
    ensures input.Valid()
    ensures Agrees(r, input.pos, HookStyleSpec(input.toks, old(input.pos)))
  {
    var b := input.ParseKeyword("replace");
    if b {
      return Ok(Symbol);
    }
    b := input.ParseKeyword("offset");
    if b {
      return Ok(Offset);
    }
    return Err(ParseError("unknown hook type"));
  }

  /** `KeyValue<kw::module, ModuleArg>::parse`: key, `=`, value, stopping at the first
      failure. */
  method ParseModuleKv(input: ParseStream) returns (r: Result<ModuleArg, ParseError>)
    requires input.Valid()
    modifies input
    ensures input.Valid()
    ensures Agrees(r, input.pos, ModuleKvSpec(input.toks, old(input.pos)))
  {
    var key := input.ParseKeyword("module");
    if !key {
      return Err(ParseError("expected `module`"));
    }
    var equals := input.ParsePunct('=');
    if !equals {
      return Err(ParseError("expected `=`"));
    }
    var value := ParseModuleArg(input);
    match value
    case Ok(m) => r := Ok(m);
    case Err(e) => r := Err(e);
  }

  /** `KeyValue<HookStyle, syn::Expr>::parse`. */
  method ParseStyleKv(input: ParseStream) returns (r: Result<KeyValue<HookStyle, Expr>, ParseError>)
    requires input.Valid()
    modifies input
    ensures input.Valid()
    ensures Agrees(r, input.pos, StyleKvSpec(input.toks, old(input.pos)))
  {
    var key := ParseHookStyle(input);
    if key.Err? {
      return Err(key.error);
    }
    var equals := input.ParsePunct('=');
    if !equals {
      return Err(ParseError("expected `=`"));
    }
    var value := input.ParseExpr();
    match value
    case Ok(e) => r := Ok(KeyValue(key.value, e));
    case Err(e) => r := Err(e);
  }

  /** `KeyValue<kw::name, syn::LitStr>::parse`, the `#[main]` argument. */
  method ParseNameKv(input: ParseStream) returns (r: Result<string, ParseError>)
    requires input.Valid()
    modifies input
    ensures input.Valid()
    ensures Agrees(r, input.pos, NameKvSpec(input.toks, old(input.pos)))
  {
    var key := input.ParseKeyword("name");
    if !key {
      return Err(ParseError("expected `name`"));
    }
    var equals := input.ParsePunct('=');
    if !equals {
      return Err(ParseError("expected `=`"));
    }
    var value := input.ParseLitStr();
    if value.None? {
      return Err(ParseError("expected string literal"));
    }
    return Ok(value.value);
  }

  /** The `module = M ,` that `HookAttributes::parse` reads when it peeks `module`. */
  method ParseModulePrefix(input: ParseStream) returns (r: Result<Option<ModuleArg>, ParseError>)
    requires input.Valid()
    modifies input
    ensures input.Valid()
    ensures Agrees(r, input.pos, ModulePrefixSpec(input.toks, old(input.pos)))
  {
    var hasModule := input.PeekKeyword("module");
    if !hasModule {
      return Ok(None);
    }
    var m := ParseModuleKv(input);
    if m.Err? {
      return Err(m.error);
    }
    var comma := input.ParsePunct(',');
    if !comma {
      return Err(ParseError("expected `,`"));
    }
    return Ok(Some(m.value));
  }

  /** `impl Parse for HookAttributes`. */
  method ParseHookAttributes(input: ParseStream) returns (r: Result<HookAttributes, ParseError>)
    requires input.Valid()
    modifies input
    ensures input.Valid()
    ensures Agrees(r, input.pos, AttrsSpec(input.toks, old(input.pos)))
  {
    var moduleArg := ParseModulePrefix(input);
    if moduleArg.Err? {
      return Err(moduleArg.error);
    }
    var style := ParseStyleKv(input);
    if style.Err? {
      return Err(style.error);
    }
    var forceJit := false;
    var comma := input.ParsePunct(',');
    if comma {
      var fj := input.ParseKeyword("force_jit");
      if !fj {
        return Err(ParseError("expected `force_jit`"));
      }
      forceJit := true;
    }
    return Ok(HookAttributes(moduleArg.value, style.value, forceJit));
  }

  // ---------------------------------------------------------------------------
  // Writing attributes back as tokens, and reading them again

  /** An expression that has a token form: a path has at least one segment. */
  predicate Printable(e: Expr)
  {
    e.Path? ==> |e.segments| > 0 && SegmentsPrintable(e.segments)
  }

  /** Path segments are identifiers other than the boolean keywords. */
  predicate SegmentsPrintable(segments: seq<string>)
  {
    forall i :: 0 <= i < |segments| ==> !IsBoolLiteral(segments[i])
  }

  /** `:: ident` for each segment. */
  function SepTokens(segments: seq<string>): (toks: seq<Token>)
    ensures |toks| == 2 * |segments|
  {
    if |segments| == 0 then [] else [PathSep, Ident(segments[0])] + SepTokens(segments[1..])
  }

  function PathTokens(segments: seq<string>): (toks: seq<Token>)
    requires |segments| > 0
    ensures |toks| == 2 * |segments| - 1
  {
    [Ident(segments[0])] + SepTokens(segments[1..])
  }

  function ExprTokens(e: Expr): seq<Token>
    requires Printable(e)
  {
    match e
    case StrLit(v) => [LitStr(v)]
    case OtherLit => [LitOther]
    case Path(segments) => PathTokens(segments)
    case Other => [Group]
  }

  function KnownModuleKeyword(k: KnownModule): string
  {
    match k
    case Rtld => "nnrtld"
    case Main => "main"
    case Skyline => "skyline"
    case Sdk => "nnSdk"
  }

  function ModuleArgTokens(m: ModuleArg): seq<Token>
  {
    match m
    case ByKnown(k) => [Ident(KnownModuleKeyword(k))]
    case ByName(n) => [LitStr(n)]
  }

  function StyleKeyword(s: HookStyle): string
  {
    match s
    case Symbol => "replace"
    case Offset => "offset"
  }

  /** The attribute written out in the grammar's form. */
  function AttributeTokens(a: HookAttributes): (toks: seq<Token>)
    requires Printable(a.style.value)
    ensures |toks| >= 3
    ensures toks[0] == Ident(if a.moduleArg.Some? then "module" else StyleKeyword(a.style.key))
    ensures a.forceJit ==> toks[|toks| - 2..] == [Punct(','), Ident("force_jit")]
  {
    (if a.moduleArg.Some? then [Ident("module"), Punct('=')] + ModuleArgTokens(a.moduleArg.value) + [Punct(',')] else [])
    + [Ident(StyleKeyword(a.style.key)), Punct('=')] + ExprTokens(a.style.value)
    + (if a.forceJit then [Punct(','), Ident("force_jit")] else [])
  }

  /** `:: ident` pairs, followed by anything that does not start with `::`, are read
      as further segments of the path. */
  lemma {:induction false} PathRestReads(pre: seq<Token>, rest: seq<string>, post: seq<Token>, segments: seq<string>)
    requires SegmentsPrintable(rest)
    requires |post| == 0 || post[0] != PathSep
    ensures PathRest(pre + SepTokens(rest) + post, |pre|, segments) == Ok((segments + rest, |pre| + 2 * |rest|))
    decreases |rest|
  {
    var toks := pre + SepTokens(rest) + post;
    if |rest| == 0 {
      assert toks[|pre|..] == post;
      assert segments + rest == segments;
    } else {
      var pre' := pre + [PathSep, Ident(rest[0])];
      assert toks == pre' + SepTokens(rest[1..]) + post;
      assert !IsBoolLiteral(rest[0]);
      PathRestReads(pre', rest[1..], post, segments + [rest[0]]);
      assert segments + [rest[0]] + rest[1..] == segments + rest;
    }
  }

  /** A keyword written for a known module is read back as that module. */
  lemma KnownModuleKeywordReads(toks: seq<Token>, pos: nat, k: KnownModule)
    requires pos < |toks| && toks[pos] == Ident(KnownModuleKeyword(k))
    ensures KnownModuleSpec(toks, pos) == Ok((k, pos + 1))
  {
  }

  /** A style keyword is read back as that style. */
  lemma StyleKeywordReads(toks: seq<Token>, pos: nat, style: HookStyle)
    requires pos < |toks| && toks[pos] == Ident(StyleKeyword(style))
    ensures HookStyleSpec(toks, pos) == Ok((style, pos + 1))
  {
  }

  /** A path's tokens, not followed by `::`, are read back as the same path. */
  lemma PathReads(pre: seq<Token>, segments: seq<string>, post: seq<Token>)
    requires |segments| > 0 && SegmentsPrintable(segments)
    requires |post| == 0 || post[0] != PathSep
    ensures Primary(pre + PathTokens(segments) + post, |pre|) == Ok((Path(segments), |pre| + |PathTokens(segments)|))
  {
    var toks := pre + PathTokens(segments) + post;
    var pre' := pre + [Ident(segments[0])];
    assert toks == pre' + SepTokens(segments[1..]) + post;
    assert toks[|pre|] == Ident(segments[0]) && !IsBoolLiteral(segments[0]);
    assert SegmentsPrintable(segments[1..]) by {
      forall i | 0 <= i < |segments[1..]|
        ensures !IsBoolLiteral(segments[1..][i])
      {
        assert segments[1..][i] == segments[i + 1];
      }
    }
    PathRestReads(pre', segments[1..], post, [segments[0]]);
    assert [segments[0]] + segments[1..] == segments;
  }

  /** An expression's tokens, not followed by `::`, are read back by `Primary` as the
      same expression. */
  lemma PrimaryReads(pre: seq<Token>, e: Expr, post: seq<Token>)
    requires Printable(e)
    requires |post| == 0 || post[0] != PathSep
    ensures Primary(pre + ExprTokens(e) + post, |pre|) == Ok((e, |pre| + |ExprTokens(e)|))
  {
    if e.Path? {
      PathReads(pre, e.segments, post);
    } else {
      assert (pre + ExprTokens(e) + post)[|pre|] == ExprTokens(e)[0];
    }
  }

  /** At the end of the input or at a `,` there is no operator tail. */
  lemma NoOperatorTail(toks: seq<Token>, pos: nat)
    requires pos <= |toks|
    requires pos == |toks| || toks[pos] == Punct(',')
    ensures OperatorTail(toks, pos) == Ok((false, pos))
  {
    if pos < |toks| {
      CommaStartsNoOperator(Spelling(toks[pos..pos + 1]));
      if pos + 2 <= |toks| {
        CommaStartsNoOperator(Spelling(toks[pos..pos + 2]));
      }
      if pos + 3 <= |toks| {
        CommaStartsNoOperator(Spelling(toks[pos..pos + 3]));
      }
    }
  }

  /** No operator begins with a `,`, the separator between key-value pairs. */
  lemma CommaStartsNoOperator(s: string)
    requires |s| > 0 && s[0] == ','
    ensures s !in BinaryOperators
  {
  }

  /** An expression's tokens, followed by nothing or by a `,`, read back as the same
      expression. */
  lemma ExprRoundTrip(pre: seq<Token>, e: Expr, post: seq<Token>)
    requires Printable(e)
    requires |post| == 0 || post[0] == Punct(',')
    ensures ExprSpec(pre + ExprTokens(e) + post, |pre|) == Ok((e, |pre| + |ExprTokens(e)|))
  {
    var toks := pre + ExprTokens(e) + post;
    var end := |pre| + |ExprTokens(e)|;
    PrimaryReads(pre, e, post);
    assert end == |toks| || toks[end] == post[0];
    NoOperatorTail(toks, end);
  }

  /** `module = M ,` at the start is read back as `M`, three tokens long. */
  lemma ModuleKvReads(toks: seq<Token>, m: ModuleArg)
    requires 4 <= |toks|
    requires toks[0] == Ident("module") && toks[1] == Punct('=')
    requires toks[2] == ModuleArgTokens(m)[0] && toks[3] == Punct(',')
    ensures ModuleKvSpec(toks, 0) == Ok((m, 3))
  {
    if m.ByKnown? {
      KnownModuleKeywordReads(toks, 2, m.known);
    }
  }

  /** A style keyword, `=` and an expression's tokens, followed by nothing or by a
      `,`, are read back as the same key-value pair. */
  lemma StyleKvReads(pre: seq<Token>, kv: KeyValue<HookStyle, Expr>, post: seq<Token>)
    requires Printable(kv.value)
    requires |post| == 0 || post[0] == Punct(',')
    ensures StyleKvSpec(pre + [Ident(StyleKeyword(kv.key)), Punct('=')] + ExprTokens(kv.value) + post, |pre|)
      == Ok((kv, |pre| + 2 + |ExprTokens(kv.value)|))
  {
    var head := pre + [Ident(StyleKeyword(kv.key)), Punct('=')];
    var toks := head + ExprTokens(kv.value) + post;
    ExprRoundTrip(head, kv.value, post);
    assert toks[|pre|] == Ident(StyleKeyword(kv.key)) && toks[|pre| + 1] == Punct('=');
    StyleKeywordReads(toks, |pre|, kv.key);
  }

  /** How `AttrsSpec` puts the parts together: the module part, when there is one, ends
      with a `,`; the style follows; `, force_jit` closes the attribute when present. */
  lemma AttrsFromParts(toks: seq<Token>, a: HookAttributes, afterModule: nat, afterStyle: nat)
    requires afterModule <= |toks|
    requires a.moduleArg.None? ==> afterModule == 0 && !IsKeyword(toks, 0, "module")
    requires a.moduleArg.Some? ==>
      0 < afterModule && IsKeyword(toks, 0, "module") &&
      ModuleKvSpec(toks, 0) == Ok((a.moduleArg.value, afterModule - 1)) && IsPunct(toks, afterModule - 1, ',')
    requires StyleKvSpec(toks, afterModule) == Ok((a.style, afterStyle))
    requires a.forceJit ==>
      IsPunct(toks, afterStyle, ',') && IsKeyword(toks, afterStyle + 1, "force_jit") && afterStyle + 2 == |toks|
    requires !a.forceJit ==> afterStyle == |toks|
    ensures ParseAttributes(toks) == Ok(a)
  {
  }

  /** Writing an attribute and parsing it gives it back. */
  lemma AttributesRoundTrip(a: HookAttributes)
    requires Printable(a.style.value)
    ensures ParseAttributes(AttributeTokens(a)) == Ok(a)
  {
    var modulePart := if a.moduleArg.Some? then [Ident("module"), Punct('=')] + ModuleArgTokens(a.moduleArg.value) + [Punct(',')] else [];
    var tail: seq<Token> := if a.forceJit then [Punct(','), Ident("force_jit")] else [];
    var toks := AttributeTokens(a);
    assert toks == modulePart + [Ident(StyleKeyword(a.style.key)), Punct('=')] + ExprTokens(a.style.value) + tail;
    StyleKvReads(modulePart, a.style, tail);
    var afterStyle := |modulePart| + 2 + |ExprTokens(a.style.value)|;
    if a.moduleArg.Some? {
      assert toks[..4] == modulePart;
      ModuleKvReads(toks, a.moduleArg.value);
    } else {
      assert toks[0] == Ident(StyleKeyword(a.style.key));
    }
    if a.forceJit {
      assert toks[afterStyle..] == tail;
    }
    AttrsFromParts(toks, a, |modulePart|, afterStyle);
  }

  /** A `,` after the style must be followed by `force_jit`: otherwise the whole
      attribute is rejected. */
  lemma CommaNeedsForceJit(toks: seq<Token>, pos: nat)
    requires pos <= |toks| && !IsKeyword(toks, pos, "module")
    requires StyleKvSpec(toks, pos).Ok?
    requires var next := StyleKvSpec(toks, pos).value.1;
      IsPunct(toks, next, ',') && !IsKeyword(toks, next + 1, "force_jit")
    ensures AttrsSpec(toks, pos) == Err(ParseError("expected `force_jit`"))
  {
  }

  /** Without a trailing `,` the attribute ends after the style's value and
      `force_jit` is off. */
  lemma NoCommaNoForceJit(toks: seq<Token>, pos: nat)
    requires pos <= |toks| && !IsKeyword(toks, pos, "module")
    requires StyleKvSpec(toks, pos).Ok?
    requires !IsPunct(toks, StyleKvSpec(toks, pos).value.1, ',')
    ensures AttrsSpec(toks, pos) == Ok((HookAttributes(None, StyleKvSpec(toks, pos).value.0, false), StyleKvSpec(toks, pos).value.1))
  {
  }

  /** The `module` argument is accepted only in first position: an attribute that
      starts with a style never has a module. */
  lemma ModuleOnlyFirst(toks: seq<Token>, pos: nat)
    requires pos <= |toks|
    requires !IsKeyword(toks, pos, "module")
    ensures AttrsSpec(toks, pos).Ok? ==> AttrsSpec(toks, pos).value.0.moduleArg.None?
  {
  }

  /** The keyword tables: the four module keywords and the two style keywords map to
      their cases, and any other token is an error. */
  lemma KeywordTables(toks: seq<Token>, pos: nat)
    requires pos < |toks|
    ensures KnownModuleSpec(toks, pos).Ok? <==> toks[pos] in [Ident("nnrtld"), Ident("main"), Ident("skyline"), Ident("nnSdk")]
    ensures KnownModuleSpec(toks, pos).Ok? ==> KnownModuleKeyword(KnownModuleSpec(toks, pos).value.0) == toks[pos].name
    ensures KnownModuleSpec(toks, pos).Err? ==> KnownModuleSpec(toks, pos).error == ParseError("unknown module")
    ensures HookStyleSpec(toks, pos).Ok? <==> toks[pos] in [Ident("replace"), Ident("offset")]
    ensures HookStyleSpec(toks, pos).Ok? ==> StyleKeyword(HookStyleSpec(toks, pos).value.0) == toks[pos].name
    ensures HookStyleSpec(toks, pos).Err? ==> HookStyleSpec(toks, pos).error == ParseError("unknown hook type")
  {
  }

  /** A string literal is always taken as a module name, before keywords are tried. */
  lemma StringBeforeKeyword(toks: seq<Token>, pos: nat)
    requires pos < |toks| && toks[pos].LitStr?
    ensures ModuleArgSpec(toks, pos) == Ok((ByName(toks[pos].value), pos + 1))
  {
  }

  /** `KeyValue` reads key, `=` and value in that order and reports the first failure. */
  lemma KeyValueOrder(toks: seq<Token>, pos: nat)
    requires pos <= |toks|
    ensures HookStyleSpec(toks, pos).Err? ==> StyleKvSpec(toks, pos) == Err(HookStyleSpec(toks, pos).error)
    ensures HookStyleSpec(toks, pos).Ok? && !IsPunct(toks, HookStyleSpec(toks, pos).value.1, '=') ==>
      StyleKvSpec(toks, pos) == Err(ParseError("expected `=`"))
    ensures HookStyleSpec(toks, pos).Ok? && IsPunct(toks, HookStyleSpec(toks, pos).value.1, '=') ==>
      var e := ExprSpec(toks, HookStyleSpec(toks, pos).value.1 + 1);
      (e.Err? ==> StyleKvSpec(toks, pos) == Err(e.error))
      && (e.Ok? ==> StyleKvSpec(toks, pos) == Ok((KeyValue(HookStyleSpec(toks, pos).value.0, e.value.0), e.value.1)))
  {
  }

  /** `true` and `false` are boolean literals wherever an expression starts. */
  lemma BoolIsLiteral(toks: seq<Token>, pos: nat)
    requires pos < |toks| && toks[pos].Ident? && IsBoolLiteral(toks[pos].name)
    ensures Primary(toks, pos) == Ok((OtherLit, pos + 1))
  {
  }

  /** `replace = true` names a literal, not a symbol path. */
  lemma ReplaceTrue()
    ensures ParseAttributes([Ident("replace"), Punct('='), Ident("true")])
      == Ok(HookAttributes(None, KeyValue(Symbol, OtherLit), false))
  {
  }

  /** `replace = a ; b`: a `;` is no operator, so the expression ends at `a` and the
      attribute has a token left over. */
  lemma SemicolonEndsAttribute()
    ensures ParseAttributes([Ident("replace"), Punct('='), Ident("a"), Punct(';'), Ident("b")])
      == Err(ParseError("unexpected token"))
  {
    var toks := [Ident("replace"), Punct('='), Ident("a"), Punct(';'), Ident("b")];
    assert Spelling(toks[3..4]) == ";";
    assert Spelling(toks[3..5]) == "; ";
    assert OperatorLength(toks, 3) == 0;
    assert ExprSpec(toks, 2) == Ok((Path(["a"]), 3));
  }

  /** `replace = a <= b` is a comparison, an expression of no particular shape. */
  lemma ComparisonIsExpression()
    ensures ParseAttributes([Ident("replace"), Punct('='), Ident("a"), Punct('<'), Punct('='), Ident("b")])
      == Ok(HookAttributes(None, KeyValue(Symbol, Other), false))
  {
    var toks := [Ident("replace"), Punct('='), Ident("a"), Punct('<'), Punct('='), Ident("b")];
    assert Spelling(toks[5..6]) == " ";
    assert Spelling(toks[4..6]) == "= ";
    assert Spelling(toks[3..6]) == "<= ";
    assert Spelling(toks[3..5]) == "<=";
    assert OperatorLength(toks, 3) == 2;
    assert OperatorLength(toks, 6) == 0;
    assert ExprSpec(toks, 2) == Ok((Other, 6));
  }
}
