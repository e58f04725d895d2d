/** The register contexts of src/hooks/contexts.rs and the stack memory they overlay.

    An inline hook saves the registers into a block of stack memory, hands the callback
    a pointer to that block reinterpreted as `InlineCtx` or `ExInlineCtx`, and reloads
    the registers from the same block afterwards. Both structs are `#[repr(C)]`, so
    the offset of every register inside the block follows from the C layout rules. */
module Contexts {
  import opened Wrappers

  // ---------------------------------------------------------------------------
  // The C layout rules (`#[repr(C)]`)

  /** A field of a `#[repr(C)]` struct, by size and alignment in bytes. */
  datatype FieldLayout = FieldLayout(size: nat, align: nat)

  predicate WellFormed(fields: seq<FieldLayout>)
  {
    forall i :: 0 <= i < |fields| ==> fields[i].align > 0
  }

  /** The first multiple of `a` at or after `x`, as a count of `a`-sized units. */
  function AlignedUnits(x: nat, a: nat): (k: nat)
    requires a > 0
    ensures x <= a * k < x + a
  {
    var k := (x + a - 1) / a;
    assert x + a - 1 == a * k + (x + a - 1) % a;
    k
  }

  /** The first multiple of `a` at or after `x`. */
  function AlignUp(x: nat, a: nat): nat
    requires a > 0
  {
    a * AlignedUnits(x, a)
  }

  /** The offsets of `fields` laid out in order from byte `at`: each field starts at
      the first suitably aligned byte after the end of the previous one. */
  function FieldOffsets(fields: seq<FieldLayout>, at: nat): (offs: seq<nat>)
    requires WellFormed(fields)
    ensures |offs| == |fields|
    ensures forall i :: 0 <= i < |fields| ==> at <= offs[i]
    ensures forall i, j :: 0 <= i < j < |fields| ==> offs[i] + fields[i].size <= offs[j]
    decreases |fields|
  {
    if |fields| == 0 then []
    else
      var o := AlignUp(at, fields[0].align);
      [o] + FieldOffsets(fields[1..], o + fields[0].size)
  }

  /** The largest alignment among `fields` (1 for no fields). */
  function MaxAlign(fields: seq<FieldLayout>): (a: nat)
    requires WellFormed(fields)
    ensures a > 0
    ensures forall i :: 0 <= i < |fields| ==> fields[i].align <= a
  {
    if |fields| == 0 then 1
    else
      var rest := MaxAlign(fields[1..]);
      if fields[0].align > rest then fields[0].align else rest
  }

  /** The size of the struct: the end of its last field, rounded up to the struct's
      alignment. Every field lies inside it. */
  function StructSize(fields: seq<FieldLayout>): (size: nat)
    requires WellFormed(fields)
    ensures forall i :: 0 <= i < |fields| ==> FieldOffsets(fields, 0)[i] + fields[i].size <= size
  {
    var offs := FieldOffsets(fields, 0);
    var end := if |fields| == 0 then 0 else offs[|fields| - 1] + fields[|fields| - 1].size;
    AlignUp(end, MaxAlign(fields))
  }

  // ---------------------------------------------------------------------------
  // The two contexts

  const GeneralRegisterCount := 31
  const FpuRegisterCount := 32

  /** `CpuRegister` is a `u64`; `FpuRegister` is a `u128`, which AArch64 aligns to 16. */
  const CpuRegisterLayout := FieldLayout(8, 8)
  const FpuRegisterLayout := FieldLayout(16, 16)

  /** x0 to x30. */
  type GeneralRegisters = s: seq<bv64> | |s| == GeneralRegisterCount
    witness [0, 0, 0, 0, 0, 0, 0, 0, 0, 0, 0, 0, 0, 0, 0, 0, 0, 0, 0, 0, 0, 0, 0, 0, 0, 0, 0, 0, 0, 0, 0]

  /** q0 to q31. */
  type FpuRegisters = s: seq<bv128> | |s| == FpuRegisterCount
    witness [0, 0, 0, 0, 0, 0, 0, 0, 0, 0, 0, 0, 0, 0, 0, 0, 0, 0, 0, 0, 0, 0, 0, 0, 0, 0, 0, 0, 0, 0, 0, 0]

  datatype InlineCtx = InlineCtx(registers: GeneralRegisters)

  datatype ExInlineCtx = ExInlineCtx(registers: GeneralRegisters, sp: bv64, fpuRegisters: FpuRegisters)

  function ArrayLayout(element: FieldLayout, n: nat): FieldLayout
  {
    FieldLayout(element.size * n, element.align)
  }

  /** `InlineCtx { registers: [CpuRegister; 31] }`. */
  function InlineCtxFields(): seq<FieldLayout>
  {
    [ArrayLayout(CpuRegisterLayout, GeneralRegisterCount)]
  }

  /** `ExInlineCtx { registers: [CpuRegister; 31], sp: CpuRegister, fpu_registers: [FpuRegister; 32] }`. */
  function ExInlineCtxFields(): seq<FieldLayout>
  {
    [ArrayLayout(CpuRegisterLayout, GeneralRegisterCount), CpuRegisterLayout,
     ArrayLayout(FpuRegisterLayout, FpuRegisterCount)]
  }

  /** `InlineCtx` is exactly the 31 general registers: 0xF8 bytes, x_i at byte 8i. */
  lemma InlineCtxLayout()
    ensures FieldOffsets(InlineCtxFields(), 0) == [0]
    ensures StructSize(InlineCtxFields()) == 0xF8
  {
  }

  /** The fields of `ExInlineCtx`: 31 registers of 8 bytes, one of 8, and 32 FPU
      registers of 16 bytes, aligned to 16. */
  lemma ExInlineCtxFieldSizes()
    ensures ExInlineCtxFields() == [FieldLayout(0xF8, 8), FieldLayout(8, 8), FieldLayout(0x200, 16)]
  {
  }

  /** The alignments the `ExInlineCtx` layout meets: each of these ends is already a
      multiple of the next field's alignment. */
  lemma ExInlineCtxAlignments()
    ensures AlignUp(0, 8) == 0 && AlignUp(0xF8, 8) == 0xF8
    ensures AlignUp(0x100, 16) == 0x100 && AlignUp(0x300, 16) == 0x300
  {
    assert AlignedUnits(0, 8) == 0;
    assert AlignedUnits(0xF8, 8) == 0x1F;
    assert AlignedUnits(0x100, 16) == 0x10;
    assert AlignedUnits(0x300, 16) == 0x30;
  }

  /** `ExInlineCtx`: the registers fill bytes [0, 0xF8), `sp` sits at 0xF8 and the FPU
      registers start at 0x100. */
  lemma ExInlineCtxOffsets()
    ensures FieldOffsets(ExInlineCtxFields(), 0) == [0, 0xF8, 0x100]
  {
    ExInlineCtxFieldSizes();
    ExInlineCtxAlignments();
    ThreeFieldOffsets(FieldLayout(0xF8, 8), FieldLayout(8, 8), FieldLayout(0x200, 16), 0);
  }

  /** The offsets of a three-field struct: each field at the first aligned byte after
      the previous one ends. */
  lemma ThreeFieldOffsets(a: FieldLayout, b: FieldLayout, c: FieldLayout, at: nat)
    requires a.align > 0 && b.align > 0 && c.align > 0
    ensures var oa := AlignUp(at, a.align);
      var ob := AlignUp(oa + a.size, b.align);
      var oc := AlignUp(ob + b.size, c.align);
      FieldOffsets([a, b, c], at) == [oa, ob, oc]
  {
    var f := [a, b, c];
    var oa := AlignUp(at, a.align);
    var ob := AlignUp(oa + a.size, b.align);
    assert f[1..] == [b, c] && f[1..][1..] == [c] && f[1..][1..][1..] == [];
    assert FieldOffsets([c], ob + b.size) == [AlignUp(ob + b.size, c.align)];
    assert FieldOffsets([b, c], oa + a.size) == [ob] + FieldOffsets([c], ob + b.size);
  }

  /** `ExInlineCtx` is 0x300 bytes, aligned to its FPU registers' 16. */
  lemma ExInlineCtxSize()
    ensures StructSize(ExInlineCtxFields()) == 0x300
  {
    ExInlineCtxFieldSizes();
    var f := [FieldLayout(0xF8, 8), FieldLayout(8, 8), FieldLayout(0x200, 16)];
    ExInlineCtxOffsets();
    assert f[2..][1..] == [];
    assert MaxAlign(f[2..]) == 16;
    assert MaxAlign(f) == 16;
    ExInlineCtxAlignments();
  }

  /** Byte offset of general register `i` inside either context. */
  function RegisterOffset(i: nat): (off: nat)
    requires i < GeneralRegisterCount
    ensures off + 8 <= SpOffset
  {
    8 * i
  }

  const SpOffset: nat := 0xF8

  /** Byte offset of FPU register `j` inside `ExInlineCtx`. */
  function FpuRegisterOffset(j: nat): (off: nat)
    requires j < FpuRegisterCount
    ensures SpOffset + 8 <= off && off + 16 <= 0x300
  {
    0x100 + 16 * j
  }

  /** The offsets used to address the save area are the ones the C layout gives the
      context fields: element `i` of the register array, `sp`, element `j` of the FPU
      array. */
  lemma OffsetsFollowLayout(i: nat, j: nat)
    requires i < GeneralRegisterCount && j < FpuRegisterCount
    ensures RegisterOffset(i) == FieldOffsets(ExInlineCtxFields(), 0)[0] + CpuRegisterLayout.size * i
    ensures RegisterOffset(i) == FieldOffsets(InlineCtxFields(), 0)[0] + CpuRegisterLayout.size * i
    ensures SpOffset == FieldOffsets(ExInlineCtxFields(), 0)[1]
    ensures FpuRegisterOffset(j) == FieldOffsets(ExInlineCtxFields(), 0)[2] + FpuRegisterLayout.size * j
  {
    ExInlineCtxOffsets();
    ExInlineCtxSize();
    InlineCtxLayout();
  }

  // ---------------------------------------------------------------------------
  // The save area: the stack block the contexts overlay

  /** A stored value: a 64-bit or a 128-bit word. */
  datatype Word = W64(x: bv64) | W128(q: bv128)

  /** The stack block, as the words stored at byte offsets from its base. Stores at
      different offsets in the layout above never overlap, so a map keyed by offset
      describes the block faithfully. */
  type SaveArea = map<nat, Word>

  /** The 64-bit word at `off`; storage not written as one reads as 0. */
  function Load64(area: SaveArea, off: nat): bv64
  {
    if off in area && area[off].W64? then area[off].x else 0
  }

  function Load128(area: SaveArea, off: nat): bv128
  {
    if off in area && area[off].W128? then area[off].q else 0
  }

  /** The block seen through `&mut ExInlineCtx`. */
  function ReadExCtx(area: SaveArea): (ctx: ExInlineCtx)
    ensures forall i :: 0 <= i < GeneralRegisterCount ==>
      ctx.registers[i] == Load64(area, RegisterOffset(i))
    ensures ctx.sp == Load64(area, SpOffset)
    ensures forall j :: 0 <= j < FpuRegisterCount ==>
      ctx.fpuRegisters[j] == Load128(area, FpuRegisterOffset(j))
  {
    ExInlineCtx(
      seq(GeneralRegisterCount, i requires 0 <= i < GeneralRegisterCount => Load64(area, RegisterOffset(i))),
      Load64(area, SpOffset),
      seq(FpuRegisterCount, j requires 0 <= j < FpuRegisterCount => Load128(area, FpuRegisterOffset(j))))
  }

  /** The block seen through `&mut InlineCtx`. */
  function ReadInlineCtx(area: SaveArea): (ctx: InlineCtx)
    ensures forall i :: 0 <= i < GeneralRegisterCount ==>
      ctx.registers[i] == Load64(area, RegisterOffset(i))
  {
    InlineCtx(seq(GeneralRegisterCount, i requires 0 <= i < GeneralRegisterCount => Load64(area, RegisterOffset(i))))
  }

  /** Stores x0..x30 at their offsets; nothing from `SpOffset` on is touched. */
  function StoreRegisters(area: SaveArea, regs: GeneralRegisters): (r: SaveArea)
    ensures forall i :: 0 <= i < GeneralRegisterCount ==>
      RegisterOffset(i) in r && r[RegisterOffset(i)] == W64(regs[i])
    ensures forall off :: off in area && off >= SpOffset ==> off in r && r[off] == area[off]
  {
    StoreRegistersFrom(area, regs, 0)
  }

  function StoreRegistersFrom(area: SaveArea, regs: GeneralRegisters, k: nat): (r: SaveArea)
    requires k <= GeneralRegisterCount
    ensures forall i :: k <= i < GeneralRegisterCount ==>
      RegisterOffset(i) in r && r[RegisterOffset(i)] == W64(regs[i])
    ensures forall off :: off in area && (off < 8 * k || off >= SpOffset) ==> off in r && r[off] == area[off]
    decreases GeneralRegisterCount - k
  {
    if k == GeneralRegisterCount then area
    else StoreRegistersFrom(area[RegisterOffset(k) := W64(regs[k])], regs, k + 1)
  }

  /** Stores q0..q31 at their offsets; nothing below 0x100 is touched. */
  function StoreFpuRegisters(area: SaveArea, regs: FpuRegisters): (r: SaveArea)
    ensures forall j :: 0 <= j < FpuRegisterCount ==>
      FpuRegisterOffset(j) in r && r[FpuRegisterOffset(j)] == W128(regs[j])
    ensures forall off :: off in area && off < SpOffset + 8 ==> off in r && r[off] == area[off]
  {
    StoreFpuRegistersFrom(area, regs, 0)
  }

  function StoreFpuRegistersFrom(area: SaveArea, regs: FpuRegisters, k: nat): (r: SaveArea)
    requires k <= FpuRegisterCount
    ensures forall j :: k <= j < FpuRegisterCount ==>
      FpuRegisterOffset(j) in r && r[FpuRegisterOffset(j)] == W128(regs[j])
    ensures forall off :: off in area && (off < 0x100 + 16 * k) ==> off in r && r[off] == area[off]
    decreases FpuRegisterCount - k
  {
    if k == FpuRegisterCount then area
    else StoreFpuRegistersFrom(area[FpuRegisterOffset(k) := W128(regs[k])], regs, k + 1)
  }

  /** The block after the callback wrote `ctx` through `&mut ExInlineCtx`. */
  function WriteExCtx(area: SaveArea, ctx: ExInlineCtx): (r: SaveArea)
    ensures SpOffset in r && r[SpOffset] == W64(ctx.sp)
    ensures forall j :: 0 <= j < FpuRegisterCount ==>
      FpuRegisterOffset(j) in r && r[FpuRegisterOffset(j)] == W128(ctx.fpuRegisters[j])
  {
    StoreFpuRegisters(StoreRegisters(area, ctx.registers)[SpOffset := W64(ctx.sp)], ctx.fpuRegisters)
  }

  lemma RegistersAfterWrite(area: SaveArea, ctx: ExInlineCtx, i: nat)
    requires i < GeneralRegisterCount
    ensures Load64(WriteExCtx(area, ctx), RegisterOffset(i)) == ctx.registers[i]
  {
    var a1 := StoreRegisters(area, ctx.registers);
    var a2 := a1[SpOffset := W64(ctx.sp)];
    var off := RegisterOffset(i);
    assert a1[off] == W64(ctx.registers[i]);
    assert off in a2 && a2[off] == a1[off];
  }

  lemma SpAndFpuAfterWrite(area: SaveArea, ctx: ExInlineCtx)
    ensures Load64(WriteExCtx(area, ctx), SpOffset) == ctx.sp
    ensures forall j :: 0 <= j < FpuRegisterCount ==>
      Load128(WriteExCtx(area, ctx), FpuRegisterOffset(j)) == ctx.fpuRegisters[j]
  {
    var a1 := StoreRegisters(area, ctx.registers);
    var a2 := a1[SpOffset := W64(ctx.sp)];
    var a3 := StoreFpuRegisters(a2, ctx.fpuRegisters);
    assert a3[SpOffset] == a2[SpOffset];
  }

  /** A block holding `ctx`'s values at the context offsets reads back as `ctx`. */
  lemma ReadBack(a: SaveArea, ctx: ExInlineCtx)
    requires forall i :: 0 <= i < GeneralRegisterCount ==> Load64(a, RegisterOffset(i)) == ctx.registers[i]
    requires Load64(a, SpOffset) == ctx.sp
    requires forall j :: 0 <= j < FpuRegisterCount ==> Load128(a, FpuRegisterOffset(j)) == ctx.fpuRegisters[j]
    ensures ReadExCtx(a) == ctx
  {
    var c := ReadExCtx(a);
    assert c.registers == ctx.registers;
    assert c.fpuRegisters == ctx.fpuRegisters;
  }

  /** Whatever the callback writes through the context is what the block then holds. */
  lemma ReadAfterWriteExCtx(area: SaveArea, ctx: ExInlineCtx)
    ensures ReadExCtx(WriteExCtx(area, ctx)) == ctx
  {
    var a3 := WriteExCtx(area, ctx);
    forall i | 0 <= i < GeneralRegisterCount
      ensures Load64(a3, RegisterOffset(i)) == ctx.registers[i]
    {
      RegistersAfterWrite(area, ctx, i);
    }
    SpAndFpuAfterWrite(area, ctx);
    ReadBack(a3, ctx);
  }
}
