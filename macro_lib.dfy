/** The attribute macros of skyline-macro/src/lib.rs: the hook attributes, each of
    which hands its arguments to the hook generator with a fixed hook kind, and
    `#[main]`, which marks the module's entry point and emits the data the loader
    later reads back: the module start record, the module name record, the MOD0
    header and the space for the loader's module object.

    The emitted data is modelled as the bytes it assembles to. Where the linker
    places each piece is not known to the macro; the round-trip lemmas take the
    placement as a hypothesis and show that the lookups of src/rtld/mod.rs
    (`Rtld.GetModuleName`, `Rtld.GetModuleForSelf`) recover what was emitted. */
module MacroLib {
  import opened Wrappers
  import opened Rtld
  import Contexts
  import HookFfi
  import opened HookItems
  import Attrs
  import Hooks
  import SkylineCrate

  // ---------------------------------------------------------------------------
  // The hook attributes

  /** The `#[proc_macro_attribute]` entry points other than `#[main]`. */
  datatype EntryPoint = HookAttr | InlineHookAttr | LegacyInlineHookAttr | CallbackAttr | ShimAttr

  /** The hook kind each entry point hands to `make_hook`; `#[shim]` goes to
      `make_shim` instead. */
  function EntryKind(e: EntryPoint): (k: Option<HookKind>)
    ensures k.None? <==> e == ShimAttr
  {
    match e
    case HookAttr => Some(Hook)
    case InlineHookAttr => Some(Inline)
    case LegacyInlineHookAttr => Some(LegacyInline)
    case CallbackAttr => Some(Callback)
    case ShimAttr => None
  }

  /** Each hook kind is produced by exactly one attribute. */
  lemma EntryKindsOneToOne(a: EntryPoint, b: EntryPoint, k: HookKind)
    ensures EntryKind(a) == Some(k) && EntryKind(b) == Some(k) ==> a == b
    ensures exists e :: EntryKind(e) == Some(k)
  {
    var e := match k
      case Hook => HookAttr
      case Inline => InlineHookAttr
      case LegacyInline => LegacyInlineHookAttr
      case Callback => CallbackAttr;
    assert EntryKind(e) == Some(k);
  }

  /** Expanding one hook attribute: the attribute tokens, the annotated function and
      the manifest lookup for the `skyline` crate go to `make_hook` with the entry
      point's kind, or to `make_shim`. */
  method Expand(entry: EntryPoint, tokens: seq<Attrs.Token>, f: ItemFn, lookup: Result<SkylineCrate.FoundCrate, string>)
    returns (e: Hooks.Expansion)
    modifies f
    ensures Attrs.ParseAttributes(tokens).Err? ==>
      e == Hooks.Expansion([], Err(CompileError(Attrs.ParseAttributes(tokens).error.message)))
      && f.stmts == old(f.stmts)
    ensures entry != ShimAttr && Attrs.ParseAttributes(tokens).Ok? ==>
      e == Hooks.ExpansionOf(Attrs.ParseAttributes(tokens).value, EntryKind(entry).value, f.ident, old(f.inputs),
                             SkylineCrate.CratePath(lookup))
    ensures entry == ShimAttr && Attrs.ParseAttributes(tokens).Ok? && lookup.Err? ==>
      e == Hooks.Expansion([], Err(CompileError(lookup.error))) && f.stmts == old(f.stmts)
    ensures entry == ShimAttr && Attrs.ParseAttributes(tokens).Ok? && lookup.Ok? ==>
      e == Hooks.ExpansionOf(Attrs.ParseAttributes(tokens).value, Hook, f.ident, old(f.inputs),
                             SkylineCrate.CratePath(lookup))
  {
    var crate := SkylineCrate.CratePath(lookup);
    if entry == ShimAttr {
      e := Hooks.MakeShim(tokens, f, crate);
    } else {
      e := Hooks.MakeHook(tokens, f, EntryKind(entry).value, crate);
    }
  }

  // ---------------------------------------------------------------------------
  // Bytes in memory

  /** `.word x`: the low 32 bits of `x`, little-endian. A negative difference of
      labels assembles to its two's complement. */
  function Word(x: int): (b: seq<Byte>)
    ensures |b| == 4
  {
    LittleEndian(x % Two32, 4)
  }

  /** Consecutive `.word` directives. */
  function Words(ws: seq<int>): (b: seq<Byte>)
    ensures |b| == 4 * |ws|
  {
    if |ws| == 0 then [] else Word(ws[0]) + Words(ws[1..])
  }

  /** The `i`th directive's bytes sit at offset `4 * i`. */
  lemma {:induction false} WordsSlice(ws: seq<int>, i: nat)
    requires i < |ws|
    ensures Words(ws)[4 * i .. 4 * i + 4] == Word(ws[i])
  {
    if i > 0 {
      WordsSlice(ws[1..], i - 1);
      assert Words(ws)[4 * i .. 4 * i + 4] == Words(ws[1..])[4 * (i - 1) .. 4 * (i - 1) + 4];
    }
  }

  /** The `n` low bytes of `u`, least significant first. */
  function LittleEndian(u: nat, n: nat): (b: seq<Byte>)
    ensures |b| == n
  {
    if n == 0 then [] else [u % 0x100] + LittleEndian(u / 0x100, n - 1)
  }

  /** `bytes` lie in memory from `a` on: reading that many bytes there gives them
      back. */
  predicate BytesAt(p: Process, a: Addr, bytes: seq<Byte>)
  {
    ReadBytes(p, a, |bytes|) == bytes
  }

  /** Reading `i + n` bytes is reading `i` and then the `n` after them. */
  lemma {:induction false} ReadBytesSplit(p: Process, a: Addr, i: nat, n: nat)
    requires i + n <= Two64
    ensures ReadBytes(p, a, i + n) == ReadBytes(p, a, i) + ReadBytes(p, Wrap(a + i), n)
    decreases i
  {
    if i == 0 {
      assert Wrap(a + 0) == a;
    } else {
      var next := Wrap(a + 1);
      ReadBytesSplit(p, next, i - 1, n);
      WrapStep(a, i);
      calc {
        ReadBytes(p, a, i + n);
        [p.read(a)] + ReadBytes(p, next, (i - 1) + n);
        [p.read(a)] + (ReadBytes(p, next, i - 1) + ReadBytes(p, Wrap(a + i), n));
        ([p.read(a)] + ReadBytes(p, next, i - 1)) + ReadBytes(p, Wrap(a + i), n);
      }
    }
  }

  /** Stepping one byte and then `i - 1` more lands where stepping `i` does. */
  lemma WrapStep(a: Addr, i: nat)
    requires 1 <= i <= Two64
    ensures Wrap(Wrap(a + 1) + (i - 1)) == Wrap(a + i)
  {
  }

  lemma BytesAtSlice(p: Process, a: Addr, bytes: seq<Byte>, i: nat, j: nat)
    requires BytesAt(p, a, bytes) && i <= j <= |bytes| <= Two64
    ensures BytesAt(p, Wrap(a + i), bytes[i..j])
  {
    var at := Wrap(a + i);
    ReadBytesSplit(p, a, i, |bytes| - i);
    assert ReadBytes(p, at, |bytes| - i) == bytes[i..];
    ReadBytesSplit(p, at, j - i, |bytes| - j);
    assert ReadBytes(p, at, j - i) == bytes[i..][..j - i];
    assert bytes[i..][..j - i] == bytes[i..j];
  }

  /** A word laid out by `.word` reads back as its low 32 bits. */
  lemma ReadWord(p: Process, a: Addr, x: int)
    requires BytesAt(p, a, Word(x))
    ensures Read32(p, a) == x % Two32
    ensures 0 <= x < Two32 ==> Read32(p, a) == x
  {
    var a1, a2, a3 := Wrap(a + 1), Wrap(a + 2), Wrap(a + 3);
    assert Wrap(a1 as int + 1) == a2 && Wrap(a2 as int + 1) == a3;
    assert ReadBytes(p, a3, 1) == [p.read(a3)];
    assert ReadBytes(p, a2, 2) == [p.read(a2), p.read(a3)];
    assert ReadBytes(p, a1, 3) == [p.read(a1), p.read(a2), p.read(a3)];
    assert ReadBytes(p, a, 4) == [p.read(a), p.read(a1), p.read(a2), p.read(a3)];
    assert ReadLe(p, a3, 1) == p.read(a3);
    assert ReadLe(p, a2, 2) == p.read(a2) + 0x100 * p.read(a3);
    assert ReadLe(p, a1, 3) == p.read(a1) + 0x100 * (p.read(a2) + 0x100 * p.read(a3));
    assert Read32(p, a) == p.read(a) + 0x100 * (p.read(a1) + 0x100 * (p.read(a2) + 0x100 * p.read(a3)));
    var u: int := x % Two32;
    var q1: int := u / 0x100;
    var q2: int := q1 / 0x100;
    var q3: int := q2 / 0x100;
    assert q3 < 0x100;
    assert LittleEndian(q3, 1) == [q3 % 0x100];
    assert LittleEndian(q2, 2) == [q2 % 0x100, q3 % 0x100];
    assert LittleEndian(q1, 3) == [q1 % 0x100, q2 % 0x100, q3 % 0x100];
    assert Word(x) == [u % 0x100, q1 % 0x100, q2 % 0x100, q3];
    assert u == u % 0x100 + 0x100 * q1;
    assert q1 == q1 % 0x100 + 0x100 * q2;
    assert q2 == q2 % 0x100 + 0x100 * q3;
  }

  /** A word at offset `i` of bytes laid out in memory reads back as its low 32 bits. */
  lemma ReadWordAt(p: Process, a: Addr, bytes: seq<Byte>, i: nat, x: int)
    requires BytesAt(p, a, bytes) && i + 4 <= |bytes| <= Two64 && bytes[i..i + 4] == Word(x)
    ensures Read32(p, Wrap(a + i)) == x % Two32
    ensures 0 <= x < Two32 ==> Read32(p, Wrap(a + i)) == x
  {
    BytesAtSlice(p, a, bytes, i, i + 4);
    ReadWord(p, Wrap(a + i), x);
  }

  // ---------------------------------------------------------------------------
  // `#[main]`

  /** `MainAttrs` (`name = "..."`) parsed from the whole attribute. */
  function MainAttrsSpec(toks: seq<Attrs.Token>): (r: Result<string, Attrs.ParseError>)
    ensures r.Ok? ==> |toks| == 3 && toks[2] == Attrs.LitStr(r.value)
  {
    match Attrs.NameKvSpec(toks, 0)
    case Err(e) => Err(e)
    case Ok((name, next)) => if next == |toks| then Ok(name) else Err(Attrs.ParseError("unexpected token"))
  }

  /** The module name record in `.rodata.module_name`: a zero word, the name's length
      in bytes, then the name's UTF-8 bytes. */
  function NameRecord(name: string): (b: seq<Byte>)
    ensures |b| == 8 + |HookFfi.Utf8(name)|
  {
    Words(NameWords(name)) + HookFfi.Utf8(name)
  }

  /** `__module_start` in `.nro_header`: zero, the MOD0 header's offset, zero, zero. */
  function ModuleStartRecord(headerOffset: U32): (b: seq<Byte>)
    ensures |b| == 16
  {
    Words(ModuleStartWords(headerOffset))
  }

  function ModuleStartWords(headerOffset: U32): (ws: seq<int>)
    ensures |ws| == 4 && ws[1] == headerOffset
  {
    [0, headerOffset, 0, 0]
  }

  /** The link-time distances the MOD0 header records, each from the header itself. */
  datatype SectionOffsets = SectionOffsets(
    dynamic: int, bssStart: int, bssEnd: int, ehFrameHdrStart: int, ehFrameHdrEnd: int, moduleRuntime: int)

  /** `_mod_header` in `.rodata.mod0` followed by `IS_NRO`: the magic, the six
      offsets, and the word 1. */
  function Mod0Header(o: SectionOffsets): (b: seq<Byte>)
    ensures |b| == 32
  {
    Words(Mod0Words(o))
  }

  function Mod0Words(o: SectionOffsets): (ws: seq<int>)
    ensures |ws| == 8 && ws[0] == Mod0Magic && ws[6] == o.moduleRuntime
  {
    [Mod0Magic, o.dynamic, o.bssStart, o.bssEnd, o.ehFrameHdrStart, o.ehFrameHdrEnd, o.moduleRuntime, 1]
  }

  /** `.space 0xD0` in `.bss.module_runtime`: where the loader builds this module's
      object. */
  const ModuleRuntimeSpace: nat := 0xD0

  /** The directives `#[main]` adds beside the function, by what they assemble to
      where that depends on the macro's input alone. */
  datatype ModuleAsm = ModuleAsm(nameRecord: seq<Byte>, runtimeSpace: nat)

  /** `#[main]`: parses `name = "..."` from the attribute, marks the function
      `#[no_mangle]` and `extern "C"`, and emits the module data naming the module. */
  method MainAttribute(tokens: seq<Attrs.Token>, f: ItemFn) returns (r: Result<ModuleAsm, CompileError>)
    modifies f
    ensures MainAttrsSpec(tokens).Err? ==>
      r == Err(CompileError(MainAttrsSpec(tokens).error.message))
      && f.attrs == old(f.attrs) && f.abi == old(f.abi)
    ensures MainAttrsSpec(tokens).Ok? ==>
      r == Ok(ModuleAsm(NameRecord(MainAttrsSpec(tokens).value), ModuleRuntimeSpace))
      && f.attrs == old(f.attrs) + [Hooks.NoMangle] && f.abi == Some("C")
    ensures f.inputs == old(f.inputs) && f.output == old(f.output) && f.stmts == old(f.stmts)
  {
    var input := new Attrs.ParseStream(tokens);
    var parsed := Attrs.ParseNameKv(input);
    if parsed.Err? {
      return Err(CompileError(parsed.error.message));
    }
    if input.pos != |tokens| {
      return Err(CompileError("unexpected token"));
    }
    f.attrs := f.attrs + [Hooks.NoMangle];
    f.abi := Some("C");
    r := Ok(ModuleAsm(NameRecord(parsed.value), ModuleRuntimeSpace));
  }

  /** The ASCII bytes "MOD0" are the little-endian image of the magic the loader
      checks. */
  lemma MagicIsMod0()
    ensures Word(Mod0Magic) == ['M' as int, 'O' as int, 'D' as int, '0' as int]
  {
  }

  /** An ASCII character occurs in a string's UTF-8 bytes exactly where it occurs in
      the string: the bytes of every other character are at least 0x80. */
  lemma {:induction false} AsciiInUtf8(s: string, c: char)
    requires c as int < 0x80
    ensures (c as int in HookFfi.Utf8(s)) <==> c in s
    decreases |s|
  {
    if |s| > 0 {
      AsciiInUtf8(s[1..], c);
      var head := HookFfi.Utf8Char(s[0]);
      assert HookFfi.Utf8(s) == head + HookFfi.Utf8(s[1..]);
      assert (c as int in head) <==> s[0] == c;
      assert c in s <==> s[0] == c || c in s[1..] by {
        assert s == [s[0]] + s[1..];
      }
    }
  }

  /** The words `ws` read back, one every four bytes from `a` on, as their low 32
      bits. */
  predicate WordsRead(p: Process, a: Addr, ws: seq<int>)
  {
    4 * |ws| <= Two64
    && forall i {:trigger WordAddr(a, i)} :: 0 <= i < |ws| ==> Read32(p, WordAddr(a, i)) == ws[i] % Two32
  }

  /** The address of the `i`th word from `a` on. */
  function WordAddr(a: Addr, i: nat): Addr
    requires 4 * i < Two64
  {
    Wrap(a + 4 * i)
  }

  /** Every `.word` directive's bytes sit at four times its index. */
  lemma WordsSlices(ws: seq<int>)
    ensures forall i :: 0 <= i < |ws| ==> Words(ws)[4 * i .. 4 * i + 4] == Word(ws[i])
  {
    forall i | 0 <= i < |ws|
      ensures Words(ws)[4 * i .. 4 * i + 4] == Word(ws[i])
    {
      WordsSlice(ws, i);
    }
  }

  /** Bytes holding the words `ws` one after another, laid out in memory, read back
      word by word. */
  lemma WordsLaidOut(p: Process, a: Addr, ws: seq<int>, bytes: seq<Byte>)
    requires BytesAt(p, a, bytes) && |bytes| == 4 * |ws| <= Two64
    requires forall i :: 0 <= i < |ws| ==> bytes[4 * i .. 4 * i + 4] == Word(ws[i])
    ensures WordsRead(p, a, ws)
  {
    forall i | 0 <= i < |ws|
      ensures Read32(p, WordAddr(a, i)) == ws[i] % Two32
    {
      ReadWordAt(p, a, bytes, 4 * i, ws[i]);
    }
  }

  /** The two words that open the name record: zero and the name's byte length. */
  function NameWords(name: string): (ws: seq<int>)
    ensures |ws| == 2 && ws[0] == 0 && ws[1] == |HookFfi.Utf8(name)|
  {
    [0, |HookFfi.Utf8(name)|]
  }

  /** Where the name record must lie for `get_module_name` to find it: the region
      after the one holding the module base starts with its two words and then the
      name's bytes. The end-of-region test the lookup applies to the first word must
      not fire. */
  predicate NameRecordPlaced(p: Process, m: ModuleObject, name: string)
  {
    p.query(m.moduleBase).Some?
    && var info := p.query(m.moduleBase).value;
       p.query(RegionEnd(info)).Some?
       && var ro := p.query(RegionEnd(info)).value;
          info.addr != RegionEnd(ro)
          && WordsRead(p, ro.addr, NameWords(name))
          && BytesAt(p, Wrap(ro.addr + 8), HookFfi.Utf8(name))
  }

  /** The bytes of a name record, laid out from `a`, read back as its two words and
      the name's bytes. */
  lemma NameRecordLaidOut(p: Process, a: Addr, name: string)
    requires BytesAt(p, a, NameRecord(name)) && |NameRecord(name)| <= Two64
    ensures WordsRead(p, a, NameWords(name))
    ensures BytesAt(p, Wrap(a + 8), HookFfi.Utf8(name))
  {
    var head := Words(NameWords(name));
    ConcatLaidOut(p, a, head, HookFfi.Utf8(name));
    WordsSlices(NameWords(name));
    WordsLaidOut(p, a, NameWords(name), head);
  }

  /** Two byte strings laid out one after the other. */
  lemma ConcatLaidOut(p: Process, a: Addr, head: seq<Byte>, tail: seq<Byte>)
    requires BytesAt(p, a, head + tail) && |head + tail| <= Two64
    ensures BytesAt(p, a, head) && BytesAt(p, Wrap(a + |head|), tail)
  {
    var whole := head + tail;
    BytesAtSlice(p, a, whole, 0, |head|);
    assert Wrap(a + 0) == a && whole[0..|head|] == head;
    BytesAtSlice(p, a, whole, |head|, |whole|);
    assert whole[|head|..|whole|] == tail;
  }

  /** The name `#[main]` records is the name the loader reports for the module, as
      long as it is non-empty, fits the signed length word and holds no path
      separator (the lookup keeps only the last path component). */
  lemma ModuleNameRoundTrip(p: Process, m: ModuleObject, name: string)
    requires NameRecordPlaced(p, m, name)
    requires 0 < |HookFfi.Utf8(name)| < 0x8000_0000
    requires '/' !in name && '\\' !in name
    ensures GetModuleName(p, m).Some? && GetModuleName(p, m).value == HookFfi.Utf8(name)
  {
    var info := p.query(m.moduleBase).value;
    var ro := p.query(RegionEnd(info)).value;
    var bytes := HookFfi.Utf8(name);
    assert WordAddr(ro.addr, 0) == ro.addr;
    assert WordAddr(ro.addr, 1) == Wrap(ro.addr + 4);
    AsciiInUtf8(name, '\\');
    AsciiInUtf8(name, '/');
    NameFromRecord(p, m, info, ro, bytes);
    PlainPathName(bytes);
  }

  /** `get_module_name` on a record whose fields read back as a zero word, the
      length of `bytes` and `bytes` names the last component of `bytes`. */
  lemma NameFromRecord(p: Process, m: ModuleObject, info: MemInfo, ro: MemInfo, bytes: seq<Byte>)
    requires p.query(m.moduleBase) == Some(info) && p.query(RegionEnd(info)) == Some(ro)
    requires info.addr != RegionEnd(ro)
    requires Read32(p, ro.addr) == 0
    requires Read32(p, Wrap(ro.addr + 4)) == |bytes| % Two32
    requires ReadBytes(p, Wrap(ro.addr + 8), |bytes|) == bytes
    requires 0 < |bytes| < 0x8000_0000
    ensures GetModuleName(p, m).Some? && GetModuleName(p, m).value == PathName(bytes)
  {
    GetModuleNameFrom(p, m, info, ro);
    SmallLength(|bytes|);
    PathRecordNameOf(p, info, ro, bytes);
  }

  /** A length below 2^32 is its own low word. */
  lemma SmallLength(n: nat)
    requires n < Two32
    ensures n % Two32 == n
  {
  }

  /** A path with no separator is its own name. */
  lemma PlainPathName(bytes: seq<Byte>)
    requires Backslash !in bytes && Slash !in bytes
    ensures PathName(bytes) == bytes
  {
    LastComponentOfPlain(bytes, Backslash);
    LastComponentOfPlain(bytes, Slash);
  }

  /** Where the MOD0 data must lie for `get_module_for_self` to find it: the region
      holding the caller's code starts with the words of `__module_start`, and the
      header's words lie the recorded offset further on. */
  predicate Mod0Placed(p: Process, selfCode: Addr, headerOffset: U32, o: SectionOffsets)
  {
    p.query(selfCode).Some?
    && var start := p.query(selfCode).value.addr;
       WordsRead(p, start, ModuleStartWords(headerOffset))
       && WordsRead(p, Wrap(start + headerOffset), Mod0Words(o))
  }

  /** The bytes of `__module_start` and of the MOD0 header, laid out where
      `Mod0Placed` asks, read back as their words. */
  lemma Mod0LaidOut(p: Process, selfCode: Addr, headerOffset: U32, o: SectionOffsets)
    requires p.query(selfCode).Some?
    requires BytesAt(p, p.query(selfCode).value.addr, ModuleStartRecord(headerOffset))
    requires BytesAt(p, Wrap(p.query(selfCode).value.addr + headerOffset), Mod0Header(o))
    ensures Mod0Placed(p, selfCode, headerOffset, o)
  {
    var start := p.query(selfCode).value.addr;
    WordsSlices(ModuleStartWords(headerOffset));
    WordsLaidOut(p, start, ModuleStartWords(headerOffset), ModuleStartRecord(headerOffset));
    WordsSlices(Mod0Words(o));
    WordsLaidOut(p, Wrap(start + headerOffset), Mod0Words(o), Mod0Header(o));
  }

  /** The loader's search for this module's object ends at the space `#[main]`
      reserved, provided that space lies after the header (the offset word is read
      back unsigned). */
  lemma ModuleForSelfRoundTrip(p: Process, selfCode: Addr, headerOffset: U32, o: SectionOffsets)
    requires Mod0Placed(p, selfCode, headerOffset, o)
    requires 0 <= o.moduleRuntime < Two32
    ensures GetModuleForSelf(p, selfCode).Some?
    ensures GetModuleForSelf(p, selfCode).value
      == Wrap(Wrap(p.query(selfCode).value.addr + headerOffset) + o.moduleRuntime)
  {
    var start := p.query(selfCode).value.addr;
    StartWordsRead(p, start, headerOffset);
    HeaderWordsRead(p, Wrap(start + headerOffset), o);
    SelfFromHeader(p, selfCode, start, headerOffset, o.moduleRuntime);
  }

  lemma StartWordsRead(p: Process, start: Addr, headerOffset: U32)
    requires WordsRead(p, start, ModuleStartWords(headerOffset))
    ensures Read32(p, Wrap(start + 4)) == headerOffset
  {
    assert WordAddr(start, 1) == Wrap(start + 4);
  }

  lemma HeaderWordsRead(p: Process, header: Addr, o: SectionOffsets)
    requires WordsRead(p, header, Mod0Words(o)) && 0 <= o.moduleRuntime < Two32
    ensures Read32(p, header) == Mod0Magic
    ensures Read32(p, Wrap(header + 24)) == o.moduleRuntime
  {
    assert WordAddr(header, 0) == header;
    assert WordAddr(header, 6) == Wrap(header as int + 24);
  }

  /** `get_module_for_self` on a start record and header whose words read back as
      the header offset, the magic and the object offset. */
  lemma SelfFromHeader(p: Process, selfCode: Addr, start: Addr, headerOffset: U32, objectOffset: U32)
    requires p.query(selfCode).Some? && p.query(selfCode).value.addr == start
    requires Read32(p, Wrap(start + 4)) == headerOffset
    requires Read32(p, Wrap(start + headerOffset)) == Mod0Magic
    requires Read32(p, Wrap(Wrap(start + headerOffset) + 24)) == objectOffset
    ensures GetModuleForSelf(p, selfCode).Some?
    ensures GetModuleForSelf(p, selfCode).value == Wrap(Wrap(start + headerOffset) + objectOffset)
  {
    assert Mod0HeaderAt(p, start) == Wrap(start + headerOffset);
    GetModuleForSelfMeaning(p, selfCode);
  }

  /** `rtld::ModuleObject` field by field under the C layout rules: six pointers, the
      `is_rela` flag, then nineteen 8-byte pointers and counters. */
  function ModuleObjectFields(): (fields: seq<Contexts.FieldLayout>)
    ensures Contexts.WellFormed(fields)
  {
    WordFields(6) + [Contexts.FieldLayout(1, 1)] + WordFields(19)
  }

  /** `n` fields of 8 bytes, 8-aligned. */
  function WordFields(n: nat): (fields: seq<Contexts.FieldLayout>)
    ensures |fields| == n && Contexts.WellFormed(fields)
  {
    seq(n, _ => Contexts.FieldLayout(8, 8))
  }

  /** Where the last of `fields` ends when they are laid out from `at`. */
  function LayoutEnd(fields: seq<Contexts.FieldLayout>, at: nat): nat
    requires Contexts.WellFormed(fields)
    decreases |fields|
  {
    if |fields| == 0 then at
    else LayoutEnd(fields[1..], Contexts.AlignUp(at, fields[0].align) + fields[0].size)
  }

  lemma {:induction false} LayoutEndIsLastEnd(fields: seq<Contexts.FieldLayout>, at: nat)
    requires Contexts.WellFormed(fields) && |fields| > 0
    ensures Contexts.FieldOffsets(fields, at)[|fields| - 1] + fields[|fields| - 1].size == LayoutEnd(fields, at)
    decreases |fields|
  {
    if |fields| > 1 {
      LayoutEndIsLastEnd(fields[1..], Contexts.AlignUp(at, fields[0].align) + fields[0].size);
    }
  }

  lemma {:induction false} LayoutEndAppend(a: seq<Contexts.FieldLayout>, b: seq<Contexts.FieldLayout>, at: nat)
    requires Contexts.WellFormed(a) && Contexts.WellFormed(b)
    ensures Contexts.WellFormed(a + b)
    ensures LayoutEnd(a + b, at) == LayoutEnd(b, LayoutEnd(a, at))
    decreases |a|
  {
    if |a| == 0 {
      assert a + b == b;
    } else {
      assert (a + b)[0] == a[0];
      assert (a + b)[1..] == a[1..] + b;
      LayoutEndAppend(a[1..], b, Contexts.AlignUp(at, a[0].align) + a[0].size);
    }
  }

  lemma {:induction false} MaxAlignAppend(a: seq<Contexts.FieldLayout>, b: seq<Contexts.FieldLayout>)
    requires Contexts.WellFormed(a) && Contexts.WellFormed(b)
    ensures Contexts.WellFormed(a + b)
    ensures Contexts.MaxAlign(a + b) == if Contexts.MaxAlign(a) > Contexts.MaxAlign(b) then Contexts.MaxAlign(a) else Contexts.MaxAlign(b)
    decreases |a|
  {
    if |a| == 0 {
      assert a + b == b;
    } else {
      assert (a + b)[0] == a[0];
      assert (a + b)[1..] == a[1..] + b;
      MaxAlignAppend(a[1..], b);
    }
  }

  lemma {:induction false} WordFieldsLayout(n: nat, at: nat)
    requires n > 0
    ensures LayoutEnd(WordFields(n), at) == Contexts.AlignUp(at, 8) + 8 * n
    ensures Contexts.MaxAlign(WordFields(n)) == 8
    decreases n
  {
    assert WordFields(n)[1..] == WordFields(n - 1);
    var next := Contexts.AlignUp(at, 8) + 8;
    if n > 1 {
      WordFieldsLayout(n - 1, next);
      assert Contexts.AlignUp(next, 8) == next;
    }
  }

  /** The `.space 0xD0` that `#[main]` reserves is exactly the size of the loader's
      module object. */
  lemma RuntimeSpaceHoldsModuleObject()
    ensures Contexts.StructSize(ModuleObjectFields()) == ModuleRuntimeSpace
  {
    StructSizeByEnd(ModuleObjectFields());
    ModuleObjectEnd();
    ModuleObjectAlign();
    LayoutAlignments();
  }

  /** A struct's size is where its last field ends, rounded up to its alignment. */
  lemma StructSizeByEnd(fields: seq<Contexts.FieldLayout>)
    requires Contexts.WellFormed(fields) && |fields| > 0
    ensures Contexts.StructSize(fields) == Contexts.AlignUp(LayoutEnd(fields, 0), Contexts.MaxAlign(fields))
  {
    LayoutEndIsLastEnd(fields, 0);
  }

  /** The roundings the module object's layout goes through. */
  lemma LayoutAlignments()
    ensures Contexts.AlignUp(0, 8) == 0 && Contexts.AlignUp(48, 1) == 48
    ensures Contexts.AlignUp(49, 8) == 56 && Contexts.AlignUp(208, 8) == 208
  {
  }

  /** The last field of the module object ends at byte 208: 48 bytes of pointers, the
      flag, padding to 56, then 152 bytes. */
  lemma ModuleObjectEnd()
    ensures LayoutEnd(ModuleObjectFields(), 0) == 208
  {
    HeadThenTailEnd(WordFields(6) + [Contexts.FieldLayout(1, 1)], WordFields(19));
  }

  /** The pointers and the flag, then the nineteen trailing fields. */
  lemma HeadThenTailEnd(head: seq<Contexts.FieldLayout>, tail: seq<Contexts.FieldLayout>)
    requires head == WordFields(6) + [Contexts.FieldLayout(1, 1)] && tail == WordFields(19)
    ensures LayoutEnd(head + tail, 0) == 208
  {
    FlagEnd(head);
    TailEnd();
    LayoutEndAppend(head, tail, 0);
  }

  /** The nineteen trailing fields, laid out after the flag, end at byte 208. */
  lemma TailEnd()
    ensures LayoutEnd(WordFields(19), 49) == 208
  {
    WordFieldsLayout(19, 49);
    assert Contexts.AlignUp(49, 8) == 56;
  }

  /** The six pointers and the flag end at byte 49. */
  lemma FlagEnd(head: seq<Contexts.FieldLayout>)
    requires head == WordFields(6) + [Contexts.FieldLayout(1, 1)]
    ensures Contexts.WellFormed(head) && LayoutEnd(head, 0) == 49
  {
    PointersEnd();
    LayoutEndAppend(WordFields(6), [Contexts.FieldLayout(1, 1)], 0);
    assert LayoutEnd([Contexts.FieldLayout(1, 1)], 48) == 49 by {
      assert Contexts.AlignUp(48, 1) == 48;
    }
  }

  /** The six leading pointers end at byte 48. */
  lemma PointersEnd()
    ensures LayoutEnd(WordFields(6), 0) == 48
  {
    WordFieldsLayout(6, 0);
    assert Contexts.AlignUp(0, 8) == 0;
  }

  /** The module object is 8-aligned. */
  lemma ModuleObjectAlign()
    ensures Contexts.MaxAlign(ModuleObjectFields()) == 8
  {
    WordFieldsAlign(6);
    WordFieldsAlign(19);
    MaxAlignOfParts(WordFields(6), [Contexts.FieldLayout(1, 1)], WordFields(19));
  }

  /** Word fields are 8-aligned. */
  lemma WordFieldsAlign(n: nat)
    requires n > 0
    ensures Contexts.MaxAlign(WordFields(n)) == 8
  {
    WordFieldsLayout(n, 0);
  }

  /** Word fields on both sides of a byte field give the whole an alignment of 8. */
  lemma MaxAlignOfParts(a: seq<Contexts.FieldLayout>, b: seq<Contexts.FieldLayout>, c: seq<Contexts.FieldLayout>)
    requires Contexts.WellFormed(a) && Contexts.WellFormed(b) && Contexts.WellFormed(c)
    requires Contexts.MaxAlign(a) == 8 && Contexts.MaxAlign(c) == 8
    requires b == [Contexts.FieldLayout(1, 1)]
    ensures Contexts.WellFormed(a + b + c) && Contexts.MaxAlign(a + b + c) == 8
  {
    MaxAlignAppend(a, b);
    MaxAlignAppend(a + b, c);
  }
}
