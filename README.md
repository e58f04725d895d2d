# skylinex hooking core, modelled in Dafny

This project models the runtime and procedural-macro core of skylinex, a hooking framework for AArch64 Nintendo Switch
homebrew modules. The model covers the following parts.

- **Register views** (`Registers`, `Bytes`). `CpuRegister`, `VectorRegister` and `FpuRegister` are classes over a
  64-bit word or a 16-byte little-endian image. They have lane getters and in-place setters. A lane setter with an
  index out of range is a panic value.
- **Hook contexts** (`Contexts`). These are the `repr(C)` layouts of `InlineCtx` and `ExInlineCtx`, computed from
  field sizes and alignments. They also give the save block the stub reads and writes at those offsets.
- **The stack unwinder** (`Backtrace`). `Backtrace::new` is a `while` loop that writes into a 33-slot array.
  `Display` numbers the rows, and `get_formatted_addr_` does the offset arithmetic.
- **The loader registry** (`Rtld`). It covers the dynamic-symbol scan, `contains_address` and the module-name
  record, the circular module lists and their iterator, the lookups by address and by name, and the MOD0 check.
- **The attribute grammar** (`Attrs`). A `ParseStream` class holds a cursor that the `Parse` impls advance step by
  step. Each one is proved against a grammar function. The project also proves that printing an attribute and
  parsing it back gives the same attribute.
- **Strategy selection and expansion** (`HookItems`, `Hooks`). These cover `should_be_jit_hook`,
  `error_module_on_replace`, `make_hook_internal`, `push_original_utils`, `original!()` and `make_shim`, including
  its run-once cells.
- **The generated hook modules** (`JitHooks`, `SymbolHooks`, `HookFfi`). A generated module is a class holding its
  trampoline global, and for symbol hooks also its `is_enabled` flag. The patch engine is a class with a ghost
  call log. The symbol stub's assembly is modelled as a machine-state transformer.
- **The macro crate root** (`SkylineCrate`, `MacroLib`). It covers the crate-name lookup, the attribute entry
  points, and `#[main]`'s module-name record and MOD0 header. A round trip proves that the loader's readers
  decode what `#[main]` lays out.

Process memory, `query_memory`, the loader's module lists, the static-module table and the C++ demangler are
parameters of the model.

## Model

| member | source | states |
|---|---|---|
| Bytes.Le128OfBytes128 | src/hooks/registers.rs:177-179 | a `u128` stored little-endian and read back is unchanged |
| Bytes.Le64OfBytes64 | src/hooks/registers.rs:177-179 | a 64-bit lane stored little-endian and read back is unchanged |
| Bytes.Le32OfBytes32 | src/hooks/registers.rs:177-179 | a 32-bit lane stored little-endian and read back is unchanged |
| Bytes.Le16OfBytes16 | src/hooks/registers.rs:177-179 | a 16-bit lane stored little-endian and read back is unchanged |
| Bytes.Le128 | src/hooks/registers.rs:177-179 | the 16-byte image is exactly the little-endian encoding of the value read from it |
| Bytes.Bytes16 | src/hooks/registers.rs:209-223 | a 16-bit lane occupies two bytes of the register image |
| Bytes.Bytes32 | src/hooks/registers.rs:197-208 | a 32-bit lane occupies four bytes |
| Bytes.Bytes64 | src/hooks/registers.rs:187-196 | a 64-bit lane occupies eight bytes |
| Bytes.Bytes128 | src/hooks/registers.rs:177-179 | the whole register is sixteen bytes |
| Bytes.Le16 | src/hooks/registers.rs:209-223 | two bytes read little-endian are exactly the value whose encoding they are |
| Bytes.Le32 | src/hooks/registers.rs:197-208 | four bytes read little-endian are exactly the value whose encoding they are |
| Bytes.Le64 | src/hooks/registers.rs:187-196 | eight bytes read little-endian are exactly the value whose encoding they are |
| Registers.Low32 | src/hooks/registers.rs:30-32 | the result is `x & 0xFFFF_FFFF` |
| Registers.Patch | src/hooks/registers.rs:254-280 | the patched bytes hold the new bytes and every other byte is unchanged |
| Registers.WithLaneB | src/hooks/registers.rs:276-280 | the indexed 8-bit lane holds the new value and all other lanes keep theirs |
| Registers.WithLaneH | src/hooks/registers.rs:269-273 | the indexed 16-bit lane holds the new value; other lanes and every byte outside it are unchanged |
| Registers.WithLaneS | src/hooks/registers.rs:262-266 | the indexed 32-bit lane holds the new value; other lanes and every byte outside it are unchanged |
| Registers.WithLaneD | src/hooks/registers.rs:255-259 | the indexed 64-bit lane holds the new value; the other lane and its bytes are unchanged |
| Registers.HalfLanesAreBits01 | src/hooks/registers.rs:209-223 | 16-bit lanes 0 and 1 are bits [0,16) and [16,32) of the value |
| Registers.HalfLanesAreBits23 | src/hooks/registers.rs:209-223 | 16-bit lanes 2 and 3 are bits [32,48) and [48,64) |
| Registers.HalfLanesAreBits45 | src/hooks/registers.rs:209-223 | 16-bit lanes 4 and 5 are bits [64,80) and [80,96) |
| Registers.HalfLanesAreBits67 | src/hooks/registers.rs:209-223 | 16-bit lanes 6 and 7 are bits [96,112) and [112,128) |
| Registers.LaneHIsBits | src/hooks/registers.rs:209-223 | 16-bit lane i is bits [16i, 16i+16) on the little-endian target |
| Registers.ByteLanesAreBits | src/hooks/registers.rs:225-247 | each of the sixteen 8-bit lanes is its byte of the value |
| Registers.LaneBIsBits | src/hooks/registers.rs:225-247 | 8-bit lane i is bits [8i, 8i+8) |
| Registers.LowLaneDOfZero | src/hooks/registers.rs:422-427 | writing lane 0 of a zeroed register gives the zero-extended 64-bit value |
| Registers.LowLaneSOfZero | src/hooks/registers.rs:429-434 | writing lane 0 of a zeroed register gives the zero-extended 32-bit value |
| Registers.LowLaneHOfZero | src/hooks/registers.rs:436-441 | writing lane 0 of a zeroed register gives the zero-extended 16-bit value |
| Registers.LowLaneBOfZero | src/hooks/registers.rs:443-448 | writing lane 0 of a zeroed register gives the zero-extended 8-bit value |
| Registers.CpuRegister.constructor | src/hooks/registers.rs:17-19 | the register holds the given 64 bits |
| Registers.CpuRegister.X | src/hooks/registers.rs:21-25 | `x()` is the stored 64-bit value itself |
| Registers.CpuRegister.W | src/hooks/registers.rs:27-32 | `w()` is the low 32 bits of `x()` |
| Registers.CpuRegister.R | src/hooks/registers.rs:34-39 | `r()` equals `w()` |
| Registers.CpuRegister.SetX | src/hooks/registers.rs:41-44 | after `set_x(v)`, `x()` is `v` |
| Registers.CpuRegister.SetW | src/hooks/registers.rs:46-51 | `set_w` zero-extends: `x()` is the 32-bit value, its upper half is 0 and `w()` reads it back |
| Registers.CpuRegister.SetR | src/hooks/registers.rs:53-58 | `set_r` zero-extends like `set_w`, and `r()` reads the value back |
| Registers.VectorRegister.constructor | src/hooks/registers.rs:177-179 | the register holds the given 128 bits |
| Registers.VectorRegister.V | src/hooks/registers.rs:181-185 | `v()` is the whole register, its 16 stored bytes read little-endian |
| Registers.VectorRegister.D | src/hooks/registers.rs:187-196 | the two 64-bit lanes of the register's image, as raw bit patterns |
| Registers.VectorRegister.S | src/hooks/registers.rs:197-208 | the four 32-bit lanes, as raw bit patterns |
| Registers.VectorRegister.H | src/hooks/registers.rs:209-224 | the eight 16-bit lanes |
| Registers.VectorRegister.B | src/hooks/registers.rs:225-248 | the sixteen 8-bit lanes |
| Registers.VectorRegister.SetV | src/hooks/registers.rs:249-252 | all 128 bits are replaced: `v()` is the new value |
| Registers.VectorRegister.SetD | src/hooks/registers.rs:254-259 | an index below 2 changes only that lane; an index of 2 or more panics and changes nothing |
| Registers.VectorRegister.SetS | src/hooks/registers.rs:261-266 | an index below 4 changes only that lane; an index of 4 or more panics and changes nothing |
| Registers.VectorRegister.SetH | src/hooks/registers.rs:268-273 | an index below 8 changes only that lane; an index of 8 or more panics and changes nothing |
| Registers.VectorRegister.SetB | src/hooks/registers.rs:275-280 | an index below 16 changes only that lane; an index of 16 or more panics and changes nothing |
| Registers.VectorHIsBits | src/hooks/registers.rs:209-223 | `h()[i]` is bits [16i, 16i+16) of `v()` |
| Registers.VectorBIsBits | src/hooks/registers.rs:225-247 | `b()[i]` is bits [8i, 8i+8) of `v()` |
| Registers.FpuRegister.constructor | src/hooks/registers.rs:367-369 | the register holds the given 128 bits |
| Registers.FpuRegister.AsVec | src/hooks/registers.rs:372-375 | `as_vec` gives a separate vector register with the same 128 bits |
| Registers.FpuRegister.AsVecMut | src/hooks/registers.rs:377-382 | `as_vec_mut` gives the register's own vector view, so writes through it are writes to the register |
| Registers.FpuRegister.Q | src/hooks/registers.rs:384-387 | `q()` is the 128 bits of the register's vector view |
| Registers.FpuRegister.D | src/hooks/registers.rs:389-394 | `d()` is the lowest 64-bit lane |
| Registers.FpuRegister.S | src/hooks/registers.rs:396-401 | `s()` is the lowest 32-bit lane |
| Registers.FpuRegister.H | src/hooks/registers.rs:403-408 | `h()` is the lowest 16 bits of `q()` |
| Registers.FpuRegister.B | src/hooks/registers.rs:410-415 | `b()` is the lowest 8 bits of `q()` |
| Registers.FpuRegister.SetQ | src/hooks/registers.rs:417-420 | all 128 bits are replaced |
| Registers.FpuRegister.SetD | src/hooks/registers.rs:422-427 | the lowest 64 bits hold the value and every other bit is zero |
| Registers.FpuRegister.SetS | src/hooks/registers.rs:429-434 | the lowest 32 bits hold the value and every other bit is zero |
| Registers.FpuRegister.SetH | src/hooks/registers.rs:436-441 | the lowest 16 bits hold the value and every other bit is zero |
| Registers.FpuRegister.SetB | src/hooks/registers.rs:443-448 | the lowest 8 bits hold the value and every other bit is zero |
| Contexts.AlignedUnits | src/hooks/contexts.rs:23-35 | the first multiple of the alignment at or after the offset, as `repr(C)` padding places a field |
| Contexts.FieldOffsets | src/hooks/contexts.rs:23-35 | `repr(C)` fields are laid out in order, without overlap, from the given start |
| Contexts.MaxAlign | src/hooks/contexts.rs:23-35 | the struct's alignment is at least every field's alignment |
| Contexts.StructSize | src/hooks/contexts.rs:23-35 | the struct size covers every field's end |
| Contexts.ThreeFieldOffsets | src/hooks/contexts.rs:23-35 | in a three-field `repr(C)` struct each field starts at the first aligned byte after the previous one ends |
| Contexts.InlineCtxLayout | src/hooks/contexts.rs:9-14 | `InlineCtx` is exactly the 31 general registers: offset 0, size 0xF8 |
| Contexts.ExInlineCtxFieldSizes | src/hooks/contexts.rs:23-35 | `ExInlineCtx` is 31 registers of 8 bytes, then `sp` of 8, then 32 FPU registers of 16 bytes aligned to 16 |
| Contexts.ExInlineCtxOffsets | src/hooks/contexts.rs:23-35 | in the real field list of `ExInlineCtx` the registers are at 0, `sp` at 0xF8 and the FPU registers at 0x100 |
| Contexts.ExInlineCtxSize | src/hooks/contexts.rs:23-35 | `ExInlineCtx`, laid out from its real field list, is 0x300 bytes, the size of the stub's frame |
| Contexts.RegisterOffset | src/hooks/contexts.rs:11-14 | each general register lies below the `sp` slot |
| Contexts.FpuRegisterOffset | src/hooks/contexts.rs:33-34 | each FPU register lies after `sp` and inside the 0x300 bytes |
| Contexts.OffsetsFollowLayout | src/hooks/contexts.rs:9-35 | `x_i` at 8i, `sp` at 0xF8 and `q_j` at 0x100+16j are exactly where the layout places them, in both contexts |
| Contexts.ReadExCtx | src/hooks/contexts.rs:16-35 | every field of the context seen through the pointer is the word or quadword stored at its offset |
| Contexts.ReadInlineCtx | src/hooks/contexts.rs:3-14 | every register of the `InlineCtx` view is the word stored at its offset |
| Contexts.StoreRegisters | skyline-macro/src/hooks/symbol_hooks.rs:14-31 | the `stp` run stores `x_i` at 8i and touches nothing from 0xF8 on |
| Contexts.StoreRegistersFrom | skyline-macro/src/hooks/symbol_hooks.rs:14-31 | the stores from register k on place each register at its offset and keep what lies outside |
| Contexts.StoreFpuRegisters | skyline-macro/src/hooks/symbol_hooks.rs:34-51 | the `stp q` run stores `q_j` at 0x100+16j and touches nothing below 0x100 |
| Contexts.StoreFpuRegistersFrom | skyline-macro/src/hooks/symbol_hooks.rs:34-51 | the stores from register k on place each register at its offset and keep what lies before |
| Contexts.WriteExCtx | src/hooks/contexts.rs:16-35 | writing a context through `&mut ExInlineCtx` puts `sp` at 0xF8 and each `q_j` at 0x100+16j of the block |
| Contexts.RegistersAfterWrite | src/hooks/contexts.rs:3-8 | a register the callback writes through the context is what the block then holds |
| Contexts.SpAndFpuAfterWrite | src/hooks/contexts.rs:21-34 | `sp` and the FPU registers written through the context are what the block then holds |
| Contexts.ReadBack | src/hooks/contexts.rs:16-35 | a block holding a context's values at the layout's offsets reads back as that context |
| Contexts.ReadAfterWriteExCtx | src/hooks/contexts.rs:16-35 | writing a whole context through the pointer and reading it gives the same context |
| Backtrace.PreviousStackPointer | src/hooks/backtrace.rs:41-50 | a null entry gives null; otherwise the result is the address one `StackFrame` (16 bytes) past the entry's pointer |
| Backtrace.WalkAfterIsWalk | src/hooks/backtrace.rs:154-182 | the loop state after some pushes is those pushes followed by the rest of the walk |
| Backtrace.EffectiveLimit | src/hooks/backtrace.rs:122 | `limit.max(32)`: at least 32 and at least the limit, and one of the two |
| Backtrace.Walk | src/hooks/backtrace.rs:154-182 | the walk pushes at most one entry per unit of budget and never gains budget |
| Backtrace.StartFrame | src/hooks/backtrace.rs:140-148 | the frame at `fp` is kept as the current frame exactly when its return address is the given link register |
| Backtrace.NewSpec | src/hooks/backtrace.rs:115-195 | a null initial frame pointer is exactly the `InitialFPNull` error; a success holds 33 slots and the given link register; a panic is the index 33 out of bounds |
| Backtrace.Filled | src/hooks/backtrace.rs:154 | the 33-slot array has the entries in its first slots and `None` after them |
| Backtrace.New | src/hooks/backtrace.rs:115-195 | `Backtrace::new` with its loop over a 33-slot array returns exactly the walk's specification, including the out-of-bounds panic |
| Backtrace.Unwind | src/hooks/backtrace.rs:154-187 | the loop's writes fit in the array iff the walk's slots number at most 33, and then the array holds exactly those slots |
| Backtrace.FilledFromSlots | src/hooks/backtrace.rs:154-187 | an array that holds the written entries in order and `None` after them is the filled array |
| Backtrace.NewFromInlineCtx | src/hooks/backtrace.rs:219-221 | the frame pointer is `x29` and the link register is `x30` of the context |
| Backtrace.WalkShape | src/hooks/backtrace.rs:157-182 | the walk never overspends its budget; every entry but the last is `Ok`; an error is only `RecursiveFramePointer` and only with budget left; entries count the budget spent, plus one for an error |
| Backtrace.WalkFollowsChain | src/hooks/backtrace.rs:171-178 | each `Ok` entry is the non-null frame at the pointer the chain reached, read from memory |
| Backtrace.WalkStops | src/hooks/backtrace.rs:158-169 | the walk stops with budget left only on a null frame pointer, or on a frame pointer equal to the previous one |
| Backtrace.WalkStopsOnNull | src/hooks/backtrace.rs:158-161 | a walk ending with budget left and no error stopped on a null pointer |
| Backtrace.WalkStopsOnRecursion | src/hooks/backtrace.rs:163-169 | a walk ending in an error stopped where the pointer equalled the previous one |
| Backtrace.SlotsShape | src/hooks/backtrace.rs:122-187 | the slots are a prefix with at most one error, which is last; `BacktraceLimitReached` appears iff the budget reached 0; there are at most `max(limit,32)` slots, and `Ok` entries stay below `max(limit,32) - 1` because the start frame is charged |
| Backtrace.NullStartReadsNothing | src/hooks/backtrace.rs:118-120 | a null start pointer gives `Err(InitialFPNull)` whatever memory holds |
| Backtrace.CurrentFrameKept | src/hooks/backtrace.rs:140-148 | the current frame is recorded iff its return address equals `current_lr`; then the walk resumes at its previous frame with `prev_fp = fp`, otherwise at `fp` with `prev_fp` null |
| Backtrace.NoPanicUpTo33 | src/hooks/backtrace.rs:122-187 | with a limit of at most 33 every store stays in the array |
| Backtrace.WalkOfUnbrokenSpendsAll | src/hooks/backtrace.rs:157-182 | a chain with no null or self pointer for the whole budget spends all of it, one entry per unit |
| Backtrace.DeepStackOverflows | src/hooks/backtrace.rs:122-186 | a limit above 33 over a deep enough chain indexes slot 33 and panics |
| Backtrace.OffsetFrom | src/hooks/backtrace.rs:87-90 | `address - base` on `u64`: adding it back to the base gives the address, and it is the plain difference when base ≤ address |
| Backtrace.FormattedAddr | src/hooks/backtrace.rs:85-102 | `get_formatted_addr_` computes the specified rendering from the module and symbol lookups |
| Backtrace.FormatSpec | src/hooks/backtrace.rs:85-102 | the rendering always shows the address, and shows it bare exactly when no module contains it |
| Backtrace.FormattedOffsets | src/hooks/backtrace.rs:85-102 | with no module only the bare address is shown; otherwise the module contains the address and base + module offset is the address; a symbol row names a first matching symbol and start + symbol offset is the address |
| Backtrace.FilledPrefix | src/hooks/backtrace.rs:232-247 | the number of filled slots before the first empty one |
| Backtrace.RenderSlot | src/hooks/backtrace.rs:233-246 | an `Ok` slot renders its return address; an `Err` slot renders the error |
| Backtrace.RenderHead | src/hooks/backtrace.rs:226-231 | the `Current LR` line, then the current frame as row 0 when present; the next row number is 1 after a current frame and 0 otherwise |
| Backtrace.Render | src/hooks/backtrace.rs:224-251 | `Display for Backtrace` produces the specified lines |
| Backtrace.RenderSpec | src/hooks/backtrace.rs:224-251 | the first line is `Current LR` with the formatted link register, followed by the current frame as row 0 when there is one |
| Backtrace.RenderSlots | src/hooks/backtrace.rs:232-249 | the loop renders the filled slots up to the first empty one, numbering consecutively |
| Backtrace.SlotRowsShape | src/hooks/backtrace.rs:232-249 | one row per filled slot before the first empty one, numbered consecutively from the start row |
| Backtrace.RenderShape | src/hooks/backtrace.rs:224-251 | line 0 is the LR; rows are numbered consecutively from 0; the current frame takes row 0 when present; each slot row shows its slot |
| Rtld.ReadLe | src/rtld/mod.rs:70-73 | a little-endian read of n ≤ 4 bytes is below 2^(8n) |
| Rtld.ReadBytes | src/rtld/mod.rs:80 | reading n bytes gives n bytes |
| Rtld.CString | src/rtld/mod.rs:116-127 | the bytes from `st_name` up to, not including, the first NUL, which is where the scan stops |
| Rtld.FirstMatch | src/rtld/mod.rs:97-115 | the scan's stopping index lies within the table's `hash_nchain_value` entries |
| Rtld.FirstMatchIsFirst | src/rtld/mod.rs:97-115 | the scan stops at a match, and no earlier entry matches |
| Rtld.FirstMatchStep | src/rtld/mod.rs:97-115 | one step of the scan: a match stops it, a non-match passes it on |
| Rtld.IsReservedSection | src/rtld/mod.rs:103 | a section index is reserved exactly when it is at least 0xFF00 |
| Rtld.SymbolType | src/rtld/mod.rs:107 | the symbol type is a nibble, equal to `st_info` when that is below 16 |
| Rtld.SymbolForAddress | src/rtld/mod.rs:96-136 | a found symbol starts at or below the address, and its name contains no NUL |
| Rtld.SymbolForAddressMeaning | src/rtld/mod.rs:96-136 | `None` iff no eligible symbol covers the address; otherwise the first one: start = base + `st_value`, start ≤ address ≤ start + size, and the name is its NUL-terminated `.dynstr` string |
| Rtld.CStringLength | src/rtld/mod.rs:116-121 | the pointer-bumping scan counts the C string's bytes |
| Rtld.FindSymbolForAddress | src/rtld/mod.rs:96-136 | the loop with early return computes the scan's result |
| Rtld.LastComponent | src/rtld/mod.rs:80-81 | the piece after the last separator contains no separator |
| Rtld.LastComponentIsSuffix | src/rtld/mod.rs:80-81 | the piece is a suffix of the input, preceded by a separator when shorter |
| Rtld.LastComponentOfPlain | src/rtld/mod.rs:80-81 | a path with no separator is its own last piece |
| Rtld.GetModuleName | src/rtld/mod.rs:49-85 | a returned name contains neither `\` nor `/` |
| Rtld.PathRecordName | src/rtld/mod.rs:61-84 | a name decoded from the record contains neither separator |
| Rtld.PathName | src/rtld/mod.rs:80-81 | splitting on `\` and then on `/` leaves neither separator |
| Rtld.GetModuleNameSome | src/rtld/mod.rs:49-85 | a name is returned iff both memory queries succeed, the leading `u32` is 0, the record is not the region's end, and the `i32` length is positive; the name is the last component of the length-many bytes after the header |
| Rtld.PathRecordNameSome | src/rtld/mod.rs:61-73 | the record gives a name iff its zero word, position and positive length checks pass |
| Rtld.PathRecordNameValue | src/rtld/mod.rs:74-84 | that name is the last component of the bytes the length covers |
| Rtld.GetModuleNameFrom | src/rtld/mod.rs:49-59 | once both regions are found, the name is the record's |
| Rtld.ContainsAddress | src/rtld/mod.rs:87-94 | an address is contained only when the query on the module base succeeds and the address lies between the region's start and its end, inclusive |
| Rtld.PathRecordNameOf | src/rtld/mod.rs:61-84 | a record that passes the checks names the last component of the path it holds |
| Rtld.ChainMembers | src/rtld/mod.rs:139-169 | every module on the ring before the sentinel is an allocated object other than the sentinel |
| Rtld.ModuleObjectListIterator.constructor | src/rtld/mod.rs:139-149 | the iterator starts at `front` and ends at the list header's own address |
| Rtld.ModuleObjectListIterator.Next | src/rtld/mod.rs:151-169 | `next` yields the modules in ring order, then `None` forever, and writes no list |
| Rtld.FindFirst | src/rtld/mod.rs:179-196 | `Iterator::find`: a result satisfies the predicate and nothing before it does; `None` iff nothing does |
| Rtld.FindModuleForAddress | src/rtld/mod.rs:179-187 | the first module of the auto-load list, then of the manual-load list, whose text region contains the address |
| Rtld.ModuleForAddress | src/rtld/mod.rs:179-187 | a found module is on one of the two lists, is loaded and contains the address; one from the manual list is returned only when no auto-loaded module contains it |
| Rtld.NameOrInvalid | src/rtld/mod.rs:195 | the compared name is the recovered one or `__invalid_name`, and contains neither `\` nor `/` |
| Rtld.FindInList | src/rtld/mod.rs:179-196 | the search over one list gives its first satisfying module |
| Rtld.FindModuleByName | src/rtld/mod.rs:189-196 | the first module of both lists, auto-load first, whose name (or `__invalid_name`) equals the query |
| Rtld.FindFirstAppend | src/rtld/mod.rs:179-187 | searching both lists is searching the first, then the second |
| Rtld.UnnamedMatchesOnlyPlaceholder | src/rtld/mod.rs:189-196 | a module without a name matches exactly the query `__invalid_name` |
| Rtld.GetModuleForSelf | src/rtld/mod.rs:198-211 | a result exists only if the memory query for the own code succeeded |
| Rtld.GetModuleForSelfMeaning | src/rtld/mod.rs:198-211 | a result exists iff the header's magic is `0x30444F4D`, and it is then the header address plus `module_object_offset` |
| Attrs.PathRest | skyline-macro/src/attrs.rs:109 | a path's further segments extend it and stay within the input |
| Attrs.Primary | skyline-macro/src/attrs.rs:109 | a primary expression consumes at least one token; `true` and `false` are literals, never paths |
| Attrs.OperatorTail | skyline-macro/src/attrs.rs:109 | each continuation is a Rust binary or assignment operator followed by a primary, and stays within the input |
| Attrs.Spelling | skyline-macro/src/attrs.rs:109 | one character per token |
| Attrs.OperatorLength | skyline-macro/src/attrs.rs:109 | the tokens taken spell a binary operator, and no longer operator starts there |
| Attrs.ExprSpec | skyline-macro/src/attrs.rs:109 | an expression consumes at least one token |
| Attrs.KnownModuleSpec | skyline-macro/src/attrs.rs:49-63 | a known module is the one keyword token at the cursor; anything else is "unknown module" |
| Attrs.ModuleArgSpec | skyline-macro/src/attrs.rs:80-88 | a module argument is the one token at the cursor; a known module is never a string literal |
| Attrs.HookStyleSpec | skyline-macro/src/attrs.rs:95-105 | a style is the one keyword token at the cursor; anything else is "unknown hook type" |
| Attrs.ModuleKvSpec | skyline-macro/src/attrs.rs:21-27 | `module = M` is exactly three tokens: `module`, `=` and the argument's token |
| Attrs.StyleKvSpec | skyline-macro/src/attrs.rs:21-27 | `style = expr` starts with the style keyword and `=`, and is followed by at least one token of expression |
| Attrs.ModulePrefixSpec | skyline-macro/src/attrs.rs:115-121 | `module = M ,` is read, as four tokens, only when `module` comes first; otherwise nothing is consumed |
| Attrs.AttrsSpec | skyline-macro/src/attrs.rs:113-133 | an attribute starts with `module` when it has one and with its style keyword otherwise, and ends with `, force_jit` when that is set |
| Attrs.ParseAttributes | skyline-macro/src/hooks.rs:311 | the whole attribute is consumed: at least three tokens, starting with `module` or the style keyword, ending with `force_jit` when that is set |
| Attrs.NameKvSpec | skyline-macro/src/attrs.rs:135 | `name = "..."` is exactly three tokens, and the name is the string literal's value |
| Attrs.ParseStream.constructor | skyline-macro/src/attrs.rs:113-114 | the stream starts at the first token |
| Attrs.ParseStream.PeekKeyword | skyline-macro/src/attrs.rs:115 | `peek` tests the next token without moving |
| Attrs.ParseStream.ParseKeyword | skyline-macro/src/attrs.rs:126 | a keyword is consumed iff it is next |
| Attrs.ParseStream.ParsePunct | skyline-macro/src/attrs.rs:117 | a punctuation token is consumed iff it is next |
| Attrs.ParseStream.ParseLitStr | skyline-macro/src/attrs.rs:82 | a string literal is taken iff it is next, and then consumed |
| Attrs.ParseStream.ParseExpr | skyline-macro/src/attrs.rs:109 | the expression parse and the cursor after it are what the grammar gives |
| Attrs.ParseKnownModule | skyline-macro/src/attrs.rs:49-63 | the cursor-stepping parse agrees with the keyword table, with "unknown module" otherwise |
| Attrs.ParseModuleArg | skyline-macro/src/attrs.rs:80-88 | it agrees with the grammar: a string literal first, else a known module |
| Attrs.ParseHookStyle | skyline-macro/src/attrs.rs:95-105 | it agrees with the grammar: `replace` or `offset`, with "unknown hook type" otherwise |
| Attrs.ParseModulePrefix | skyline-macro/src/attrs.rs:115-121 | the peek and optional `module = M ,` agree with the grammar |
| Attrs.ParseModuleKv | skyline-macro/src/attrs.rs:21-27 | `KeyValue<kw::module, ModuleArg>` agrees with the grammar |
| Attrs.ParseStyleKv | skyline-macro/src/attrs.rs:21-27 | `KeyValue<HookStyle, syn::Expr>` agrees with the grammar |
| Attrs.ParseNameKv | skyline-macro/src/attrs.rs:135 | `MainAttrs` agrees with the grammar |
| Attrs.ParseHookAttributes | skyline-macro/src/attrs.rs:113-133 | `HookAttributes::parse` with its peek and optional parts agrees with the grammar |
| Attrs.SepTokens | skyline-macro/src/attrs.rs:109 | two tokens per further path segment |
| Attrs.PathTokens | skyline-macro/src/attrs.rs:109 | a path of n segments is 2n-1 tokens |
| Attrs.AttributeTokens | skyline-macro/src/attrs.rs:107-133 | the printed attribute has at least three tokens, starts with `module` or the style keyword, and ends with `, force_jit` when that is set |
| Attrs.PathRestReads | skyline-macro/src/attrs.rs:109 | printed `:: ident` pairs are read back as the same segments |
| Attrs.KnownModuleKeywordReads | skyline-macro/src/attrs.rs:49-63 | a printed module keyword is read back as that module |
| Attrs.StyleKeywordReads | skyline-macro/src/attrs.rs:95-105 | a printed style keyword is read back as that style |
| Attrs.PathReads | skyline-macro/src/attrs.rs:109 | a printed path is read back as the same path |
| Attrs.PrimaryReads | skyline-macro/src/attrs.rs:109 | a printed expression is read back as a primary |
| Attrs.NoOperatorTail | skyline-macro/src/attrs.rs:109 | at the end of the input or at `,` no operator follows |
| Attrs.CommaStartsNoOperator | skyline-macro/src/attrs.rs:109 | no operator begins with `,`, so the key-value separator always ends an expression |
| Attrs.ExprRoundTrip | skyline-macro/src/attrs.rs:109 | a printed expression followed by nothing or `,` is read back with its shape |
| Attrs.ModuleKvReads | skyline-macro/src/attrs.rs:115-118 | a leading `module = M ,` is read back as M |
| Attrs.StyleKvReads | skyline-macro/src/attrs.rs:21-27 | a printed `style = expr` is read back |
| Attrs.AttrsFromParts | skyline-macro/src/attrs.rs:113-133 | parts that each parse, in order, with no tokens left over, give the attribute |
| Attrs.AttributesRoundTrip | skyline-macro/src/attrs.rs:107-133 | printing an attribute and parsing it gives it back |
| Attrs.CommaNeedsForceJit | skyline-macro/src/attrs.rs:125-127 | a comma after the style that is not followed by `force_jit` fails the parse |
| Attrs.NoCommaNoForceJit | skyline-macro/src/attrs.rs:123-131 | without a comma after the style the attribute has no `force_jit` and ends there |
| Attrs.ModuleOnlyFirst | skyline-macro/src/attrs.rs:115-121 | `module` is taken only when it comes first |
| Attrs.KeywordTables | skyline-macro/src/attrs.rs:49-63 | `nnrtld`/`main`/`skyline`/`nnSdk` and `replace`/`offset` are the only accepted keywords, each read as its own entry, with "unknown module" and "unknown hook type" for the rest (see also lines 95-105) |
| Attrs.StringBeforeKeyword | skyline-macro/src/attrs.rs:80-88 | a string literal is always a module name |
| Attrs.KeyValueOrder | skyline-macro/src/attrs.rs:21-27 | key, `=`, value are read in that order and the first failure is the result |
| Attrs.BoolIsLiteral | skyline-macro/src/attrs.rs:109 | `true` and `false` are read as literals wherever an expression starts |
| Attrs.ReplaceTrue | skyline-macro/src/attrs.rs:113-133 | `replace = true` has a literal target, not a path |
| Attrs.SemicolonEndsAttribute | skyline-macro/src/hooks.rs:310-315 | `replace = a ; b` fails to parse: `;` is no operator, so a token is left over |
| Attrs.ComparisonIsExpression | skyline-macro/src/attrs.rs:109 | `replace = a <= b` parses as an expression with an operator |
| SkylineCrate.CratePath | skyline-macro/src/lib.rs:10-16 | `Itself` is `crate`, `Name(n)` is `n`, and a failed lookup is a compile error carrying its message |
| HookItems.AsStr | skyline-macro/src/hooks.rs:27-34 | every kind has a non-empty name |
| HookItems.AsStrInjective | skyline-macro/src/hooks.rs:27-34 | kinds have distinct names, so generated identifiers differ between kinds |
| HookItems.HookTypeOfInjective | skyline-macro/src/hooks.rs:17-25 | `to_path` maps each kind to its own `HookType` |
| HookItems.HookTypeOf | skyline-macro/src/hooks.rs:17-25 | each kind names the engine's `HookType` of the same name |
| HookItems.OriginalUtils | skyline-macro/src/hooks.rs:198-259 | the three items put in front of the body: `original!`, `call_original!` and `fn original` |
| HookItems.ItemFn.constructor | skyline-macro/src/hooks.rs:264 | a parsed function with its signature and body, no ABI and no attributes |
| HookItems.ConvertArg | skyline-macro/src/hooks.rs:55-116 | the result is a plain identifier parameter: `self` becomes `this`; a typed identifier keeps its name and type without `mut`; any other pattern is the error |
| HookItems.ArgToName | skyline-macro/src/hooks.rs:38-53 | an error iff the parameter is a typed non-identifier pattern |
| HookItems.ConvertArgs | skyline-macro/src/hooks.rs:203-206 | `collect` over `convert_arg`: all converted in order, or the first parameter's error |
| HookItems.ArgNames | skyline-macro/src/hooks.rs:243-247 | `collect` over `arg_to_name`: all names in order, or the first error |
| HookItems.NamesOfConverted | skyline-macro/src/hooks.rs:243-247 | the names of converted parameters always exist: `this` for a receiver, the identifier otherwise |
| HookItems.PushOriginalUtils | skyline-macro/src/hooks.rs:198-259 | on a conversion error nothing changes; otherwise `original!`, `call_original!` and `original` are put in front of the body, and the signature is untouched |
| HookItems.FirstError | skyline-macro/src/hooks.rs:203-206 | the first failing parameter's error is the result |
| HookItems.AllConverted | skyline-macro/src/hooks.rs:203-206 | when every parameter converts, the converted list is the result |
| HookItems.OriginalTarget | skyline-macro/src/hooks.rs:217-224 | `original!()` panics naming the hook when the trampoline is 0 and calls through the trampoline otherwise |
| Hooks.OffsetSelectsJit | skyline-macro/src/hooks.rs:131-136 | the `offset` style always selects the JIT |
| Hooks.ShouldBeJitHook | skyline-macro/src/hooks.rs:119-175 | a diagnostic is only ever about `force_jit`; a symbol hook is chosen only for `replace` with a string or path target |
| Hooks.StringLiteralSelectsSymbol | skyline-macro/src/hooks.rs:144-159 | `replace` with a string literal selects a symbol hook, and `force_jit` there is an error |
| Hooks.OtherLiteralSelectsJit | skyline-macro/src/hooks.rs:160-164 | `replace` with any other literal selects the JIT |
| Hooks.PathJitIffForced | skyline-macro/src/hooks.rs:166-167 | `replace` with a path selects the JIT iff `force_jit` is given, with no diagnostic |
| Hooks.JitExactly | skyline-macro/src/hooks.rs:119-175 | the JIT is chosen exactly when it is required, or forced on a path |
| Hooks.DiagnosticsExactly | skyline-macro/src/hooks.rs:119-175 | the "unnecessary force_jit" warning appears exactly when `force_jit` is given and the JIT was required anyway; the error appears exactly on a string target with `force_jit` |
| Hooks.ErrorModuleOnReplace | skyline-macro/src/hooks.rs:177-196 | an error iff the style is `replace` and a `module` argument is present |
| Hooks.SymbolIffNotJit | skyline-macro/src/hooks.rs:264-301 | the symbol-hook module is generated iff `should_be_jit_hook` is false, with the same trampoline name either way |
| Hooks.ExpansionOf | skyline-macro/src/hooks.rs:264-308 | at most two diagnostics; a failed crate lookup fails the expansion; a generated module declares the trampoline global of `HookContext::new` |
| Hooks.ExpansionDiagnostics | skyline-macro/src/hooks.rs:264-267 | at most two diagnostics, the module-on-replace error exactly when `replace` has a `module` |
| Hooks.CrateLookupFailure | skyline-macro/src/hooks.rs:264-306 | a failed crate lookup makes the expansion its compile error |
| Hooks.MakeHookInternal | skyline-macro/src/hooks.rs:264-308 | the function becomes `extern "C"` with `#[deny(improper_ctypes_definitions)]` and `#[no_mangle]` added; a `hook` kind gets the original utilities; the expansion is the chosen generator's |
| Hooks.MakeHook | skyline-macro/src/hooks.rs:310-315 | an attribute that fails to parse is the whole output, with the function untouched; otherwise it is `make_hook_internal` |
| Hooks.ShimBody | skyline-macro/src/hooks.rs:326-347 | the body becomes a `static ONCE` and one statement that uses it |
| Hooks.ShimBodyWrapsStatements | skyline-macro/src/hooks.rs:326-347 | the user's statements appear only inside the one-shot closure: `call_once` for `()`, `get_or_init` otherwise |
| Hooks.MakeShim | skyline-macro/src/hooks.rs:317-350 | a parse or crate-lookup failure leaves the body alone; otherwise the body is wrapped once and expanded as a `Hook` kind |
| Hooks.OnceShim.constructor | skyline-macro/src/hooks.rs:333 | the `Once` starts unused |
| Hooks.OnceShim.Call | skyline-macro/src/hooks.rs:331-337 | the body runs on the first call only |
| Hooks.OnceCellShim.constructor | skyline-macro/src/hooks.rs:341 | the cell starts empty |
| Hooks.OnceCellShim.Call | skyline-macro/src/hooks.rs:339-345 | the first call runs the body and caches its value; later calls return the cached value without running it |
| Hooks.CallShimTwice | skyline-macro/src/hooks.rs:339-345 | two calls to a value-returning shim both return the first result |
| HookFfi.TrampolineSlot.constructor | skyline-macro/src/hooks/jit_hooks.rs:245 | the trampoline global starts at 0 |
| HookFfi.PatchEngine.constructor | src/hooks.rs:18-56 | the engine starts with an empty call log |
| HookFfi.PatchEngine.InstallOnSymbolCall | src/hooks.rs:21-28 | the call is appended to the log |
| HookFfi.PatchEngine.InstallOnSymbolFutureCall | src/hooks.rs:29-36 | the call is appended to the log |
| HookFfi.PatchEngine.InstallCall | src/hooks.rs:37-42 | the call is logged and returns the trampoline for that target |
| HookFfi.PatchEngine.InstallOnDynamicLoadCall | src/hooks.rs:43-50 | the call is appended to the log |
| HookFfi.PatchEngine.SetEnableCall | src/hooks.rs:51 | the call is appended to the log |
| HookFfi.PatchEngine.UninstallCall | src/hooks.rs:53 | the call is appended to the log |
| HookFfi.PatchEngine.UninstallFromSymbolCall | src/hooks.rs:55 | the call is appended to the log |
| HookFfi.PatchEngine.Fulfil | skyline-macro/src/hooks/jit_hooks.rs:83-90 | a deferred request's slot receives its trampoline later, from the engine |
| HookFfi.TextAt | skyline-macro/src/hooks/jit_hooks.rs:58 | `text()[offset]` panics iff the offset is not below the text size; otherwise it is the text start plus the offset, modulo 2^64, and lies inside the text when the text does not wrap |
| HookFfi.Utf8Char | skyline-macro/src/hooks/jit_hooks.rs:67-70 | one to four bytes, with a 0 byte only for NUL |
| HookFfi.Utf8 | skyline-macro/src/hooks/jit_hooks.rs:67-70 | a string's bytes hold a 0 byte iff it contains NUL |
| HookFfi.Utf8Append | skyline-macro/src/hooks/jit_hooks.rs:67-70 | encoding distributes over concatenation |
| HookFfi.NulTerminated | skyline-macro/src/hooks/jit_hooks.rs:132-135 | `format!("{}\0", s)` ends in a 0 byte |
| HookFfi.CStringOfTerminated | skyline-macro/src/hooks/symbol_hooks.rs:371-380 | a NUL-free name with its NUL appended reads back as a C string |
| HookFfi.NulTerminatedName | skyline-macro/src/hooks/jit_hooks.rs:132-144 | dropping the last byte of the terminated name gives the name, and the FFI side reads a NUL-free name back |
| HookFfi.NulUtf8 | skyline-macro/src/hooks/jit_hooks.rs:68 | `\0` encodes as the single byte 0 |
| JitHooks.TrampolineIdent | skyline-macro/src/hooks/jit_hooks.rs:13-17 | `__skex_codegen_{base}_{kind}_trampoline` is longer than the base |
| JitHooks.TargetModule | skyline-macro/src/hooks/jit_hooks.rs:44-48 | without a `module` the target is `main` |
| JitHooks.StaticModuleOf | skyline-macro/src/hooks/jit_hooks.rs:21-30 | `skyline` and only `skyline` names the `SkylineEx` static module |
| JitHooks.StaticModuleOfInjective | skyline-macro/src/hooks/jit_hooks.rs:21-30 | different known modules name different static modules |
| JitHooks.InstallTarget | skyline-macro/src/hooks/jit_hooks.rs:32-95 | `replace` patches the value itself; install defers only for a named module that is not static, with the NUL-terminated name; a fault is the offset out of bounds |
| JitHooks.SetEnableTarget | skyline-macro/src/hooks/jit_hooks.rs:97-153 | `replace` targets the value itself; a failure is the offset out of bounds or a dynamic module that is not loaded |
| JitHooks.LoadedTarget | skyline-macro/src/hooks/jit_hooks.rs:142-148 | the panic names the module, and happens exactly when no module on either list has that name |
| JitHooks.ReplaceUsesValue | skyline-macro/src/hooks/jit_hooks.rs:37-40 | under `replace` the target is the expression unchanged, for install and for enable/disable (see also lines 102-105) |
| JitHooks.DefaultModuleIsMain | skyline-macro/src/hooks/jit_hooks.rs:44-48 | leaving out `module` is the same as writing `module = main`, for both resolutions (see also lines 109-113) |
| JitHooks.KnownModuleTarget | skyline-macro/src/hooks/jit_hooks.rs:55-59 | a known module gives text start + offset, and an offset at or past the text size panics (see also lines 120-124) |
| JitHooks.InstallAndSetEnableAgree | skyline-macro/src/hooks/jit_hooks.rs:32-153 | install and enable/disable resolve the same address or the same panic; install defers exactly for a named module that is not static |
| JitHooks.UnloadedDynamicModule | skyline-macro/src/hooks/jit_hooks.rs:65-92 | for a named module that is neither static nor loaded, install defers with the NUL-terminated name, and enable/disable panic naming the module (see also lines 139-149) |
| JitHooks.JitHook.constructor | skyline-macro/src/hooks/jit_hooks.rs:222-257 | a fresh generated module whose trampoline global is 0 |
| JitHooks.JitHook.Install | skyline-macro/src/hooks/jit_hooks.rs:155-175 | a resolved address is installed and the trampoline set to the engine's return; a deferred request is logged and leaves the trampoline alone; a fault panics without an engine call |
| JitHooks.JitHook.Uninstall | skyline-macro/src/hooks/jit_hooks.rs:177-188 | one `uninstall(user)` call |
| JitHooks.JitHook.SetEnable | skyline-macro/src/hooks/jit_hooks.rs:190-220 | a resolved address gets one `set_enable` call; an unresolved one panics without a call; the trampoline is not written |
| JitHooks.JitHook.Enable | skyline-macro/src/hooks/jit_hooks.rs:190-204 | `enable` passes `true` |
| JitHooks.JitHook.Disable | skyline-macro/src/hooks/jit_hooks.rs:206-220 | `disable` passes `false` |
| JitHooks.ResolveForSetEnable | skyline-macro/src/hooks/jit_hooks.rs:97-153 | the generated resolution computes the specified target |
| JitHooks.FindLoaded | skyline-macro/src/hooks/jit_hooks.rs:142-148 | the name with its NUL dropped is looked up among the loaded modules |
| JitHooks.LoadedTargetOf | skyline-macro/src/hooks/jit_hooks.rs:144-148 | a loaded module gives base + offset; none panics naming the module |
| JitHooks.InstallThenCallOriginal | skyline-macro/src/hooks/jit_hooks.rs:245 | before install `original!()` panics; after an installing `install` it calls the trampoline the engine returned (see also skyline-macro/src/hooks.rs lines 217-224) |
| SymbolHooks.ManualHookNames | skyline-macro/src/hooks/symbol_hooks.rs:113-121 | the symbol hook's trampoline has the same name as the JIT one |
| SymbolHooks.ManualNamesDistinct | skyline-macro/src/hooks/symbol_hooks.rs:113-121 | the four generated names are pairwise distinct |
| SymbolHooks.FlagBitIsFlag | skyline-macro/src/hooks/symbol_hooks.rs:144-147 | `tbz w16, #0` on the word loaded from the flag tests exactly the flag |
| SymbolHooks.FlagWord | skyline-macro/src/hooks/symbol_hooks.rs:144-147 | the low byte of the loaded word is the flag as 0 or 1; the other bytes are the neighbours' |
| SymbolHooks.ReadInlineAfterStore | skyline-macro/src/hooks/symbol_hooks.rs:14-31 | `ldp` of x0..x30 reads back what `stp` stored (see also lines 54-71) |
| SymbolHooks.InlineViewOfExCtx | src/hooks/contexts.rs:9-27 | the `InlineCtx` and `ExInlineCtx` views of a block have the same x0..x30 |
| SymbolHooks.RunStub | skyline-macro/src/hooks/symbol_hooks.rs:124-338 | the stub's run is the specification: the flag test, then the kind's sequence |
| SymbolHooks.StubSpec | skyline-macro/src/hooks/symbol_hooks.rs:124-338 | a clear flag always goes to the trampoline without calling the user; only an enabled `hook` jumps to the user; the trampoline is entered with its address in x16; `sp` is always restored |
| SymbolHooks.EnabledSpec | skyline-macro/src/hooks/symbol_hooks.rs:149-172 | an enabled stub calls the user exactly when the kind is not `hook`, and `hook` jumps to the user with the entry state unchanged; `sp` is restored |
| SymbolHooks.RunEnabled | skyline-macro/src/hooks/symbol_hooks.rs:149-172 | the enabled sequence of each kind computes the specified run |
| SymbolHooks.RunFullSave | skyline-macro/src/hooks/symbol_hooks.rs:149-172 | the 0x300 save, the call and the restore of the callback and inline stubs give the specified run (see also lines 212-235) |
| SymbolHooks.FullSaveExit | skyline-macro/src/hooks/symbol_hooks.rs:162-172 | the state after restoring from the block and loading the trampoline into x16 is the specified exit |
| SymbolHooks.SaveAndCallFull | skyline-macro/src/hooks/symbol_hooks.rs:149-160 | a callback receives the original x0 and an untouched block; an inline hook receives the block's address and the block holds what it wrote (see also lines 212-223) |
| SymbolHooks.RunLegacySave | skyline-macro/src/hooks/symbol_hooks.rs:273-289 | the legacy 0x100 frame gives the specified run |
| SymbolHooks.SaveAndCallLegacy | skyline-macro/src/hooks/symbol_hooks.rs:273-281 | the legacy hook receives the block's address and the block holds the CPU registers it wrote |
| SymbolHooks.LegacySaveExit | skyline-macro/src/hooks/symbol_hooks.rs:281-289 | the legacy exit restores x0..x30 from the block, and `sp` from the frame size |
| SymbolHooks.DisabledPassesThrough | skyline-macro/src/hooks/symbol_hooks.rs:144-147 | a clear flag jumps straight to the trampoline, without user code and without touching the stack (see also lines 167-172) |
| SymbolHooks.EnabledCallsUser | skyline-macro/src/hooks/symbol_hooks.rs:149-172 | an enabled stub calls the user function iff the kind is not `hook`, and only `hook` branches away for good (see also lines 321-322) |
| SymbolHooks.CallbackIsTransparent | skyline-macro/src/hooks/symbol_hooks.rs:149-172 | a callback sees the original x0, and every register but x16, plus `sp` and the FPU registers, reach the trampoline unchanged |
| SymbolHooks.UntouchedInlineIsCallback | skyline-macro/src/hooks/symbol_hooks.rs:14-91 | an unmodified save area restores every register, so the stub behaves like a plain callback |
| SymbolHooks.UntouchedLegacyLosesFpu | skyline-macro/src/hooks/symbol_hooks.rs:273-289 | the legacy stub restores x0..x30 but saves no FPU register, so what the user left in them goes on |
| SymbolHooks.InlineSpIgnored | skyline-macro/src/hooks/symbol_hooks.rs:153-154 | an `sp` written into the context has no effect: it is not reloaded (see also src/hooks/contexts.rs lines 29-31) |
| SymbolHooks.SymbolHook.constructor | skyline-macro/src/hooks/symbol_hooks.rs:510-518 | the trampoline starts at 0 and `is_enabled` starts true |
| SymbolHooks.SymbolHook.Install | skyline-macro/src/hooks/symbol_hooks.rs:340-417 | a missing self module panics; a string target calls the future-symbol install with the NUL-terminated name, and any other target calls install-on-symbol; both pass the self module, the stub and the trampoline slot |
| SymbolHooks.SymbolHook.Uninstall | skyline-macro/src/hooks/symbol_hooks.rs:419-435 | one `uninstall_from_symbol(stub)` call |
| SymbolHooks.SymbolHook.Enable | skyline-macro/src/hooks/symbol_hooks.rs:437-449 | the flag becomes true with no engine call |
| SymbolHooks.SymbolHook.Disable | skyline-macro/src/hooks/symbol_hooks.rs:451-463 | the flag becomes false with no engine call |
| SymbolHooks.SymbolHook.Run | skyline-macro/src/hooks/symbol_hooks.rs:124-338 | the stub runs with the module's own flag and trampoline |
| MacroLib.EntryKind | skyline-macro/src/lib.rs:18-41 | every entry point but `shim` has a kind |
| MacroLib.EntryKindsOneToOne | skyline-macro/src/lib.rs:18-36 | each hook kind is produced by exactly one attribute |
| MacroLib.Expand | skyline-macro/src/lib.rs:18-41 | `hook`, `inline_hook`, `legacy_inline_hook` and `callback` expand with their kinds; `shim` goes through `make_shim` as a `Hook` |
| MacroLib.Word | skyline-macro/src/lib.rs:58-61 | a `.word` is four bytes |
| MacroLib.Words | skyline-macro/src/lib.rs:57-79 | n directives are 4n bytes |
| MacroLib.WordsSlice | skyline-macro/src/lib.rs:57-79 | the i-th directive's bytes sit at 4i |
| MacroLib.LittleEndian | skyline-macro/src/lib.rs:58 | the n low bytes of a value |
| MacroLib.ReadBytesSplit | src/rtld/mod.rs:80 | reading i+n bytes is reading i bytes, then the n after them |
| MacroLib.BytesAtSlice | skyline-macro/src/lib.rs:63-66 | a slice of bytes laid out in memory is laid out at its offset |
| MacroLib.ReadWord | skyline-macro/src/lib.rs:58-65 | a `.word` reads back as its low 32 bits |
| MacroLib.ReadWordAt | skyline-macro/src/lib.rs:57-79 | a word inside laid-out bytes reads back as its low 32 bits |
| MacroLib.MainAttrsSpec | skyline-macro/src/lib.rs:45 | `name = "..."` is three tokens ending in the literal (see also skyline-macro/src/attrs.rs line 135) |
| MacroLib.NameRecord | skyline-macro/src/lib.rs:63-66 | the record is 8 bytes of header plus the name's bytes |
| MacroLib.ModuleStartRecord | skyline-macro/src/lib.rs:57-61 | `__module_start` is 16 bytes |
| MacroLib.ModuleStartWords | skyline-macro/src/lib.rs:57-61 | word 1 of `__module_start` is the MOD0 header's offset |
| MacroLib.Mod0Header | skyline-macro/src/lib.rs:67-79 | the MOD0 header is eight words |
| MacroLib.Mod0Words | skyline-macro/src/lib.rs:67-79 | word 0 is `MOD0` and word 6 is the module object's offset |
| MacroLib.MainAttribute | skyline-macro/src/lib.rs:43-93 | a bad attribute is a compile error; otherwise the function gets `#[no_mangle]` and `extern "C"`, and the name record and runtime space are emitted |
| MacroLib.MagicIsMod0 | skyline-macro/src/lib.rs:70 | the magic's little-endian bytes are `M`, `O`, `D`, `0` (see also src/rtld/mod.rs line 15) |
| MacroLib.AsciiInUtf8 | skyline-macro/src/lib.rs:63-66 | an ASCII byte occurs in the encoding iff its character occurs in the string |
| MacroLib.WordsSlices | skyline-macro/src/lib.rs:57-79 | every directive's bytes sit at four times its index |
| MacroLib.WordsLaidOut | skyline-macro/src/lib.rs:57-79 | laid-out directive bytes read back word by word |
| MacroLib.NameWords | skyline-macro/src/lib.rs:64-65 | the record opens with 0 and the name's byte length |
| MacroLib.NameRecordLaidOut | skyline-macro/src/lib.rs:63-66 | a laid-out record reads back as its two words and the name's bytes |
| MacroLib.ConcatLaidOut | skyline-macro/src/lib.rs:63-66 | two byte strings laid out one after the other |
| MacroLib.ModuleNameRoundTrip | skyline-macro/src/lib.rs:63-66 | a record `#[main]` lays out for a non-empty name without separators is decoded by `get_module_name` as that name (see also src/rtld/mod.rs lines 49-85) |
| MacroLib.NameFromRecord | src/rtld/mod.rs:49-85 | a record with a zero word, a positive length and the bytes decodes to the bytes' last component |
| MacroLib.SmallLength | skyline-macro/src/lib.rs:65 | a length below 2^32 is its own `.word` |
| MacroLib.PlainPathName | src/rtld/mod.rs:80-81 | a path without separators is its own name |
| MacroLib.Mod0LaidOut | skyline-macro/src/lib.rs:57-79 | the laid-out start record and header read back as their words |
| MacroLib.ModuleForSelfRoundTrip | skyline-macro/src/lib.rs:57-79 | `get_module_for_self` over what `#[main]` lays out finds the magic and returns header + runtime offset (see also src/rtld/mod.rs lines 198-211) |
| MacroLib.StartWordsRead | skyline-macro/src/lib.rs:57-61 | word 1 of `__module_start` reads as the header's offset |
| MacroLib.HeaderWordsRead | skyline-macro/src/lib.rs:67-76 | the header reads as the magic, and word 6 as the runtime offset |
| MacroLib.SelfFromHeader | src/rtld/mod.rs:198-211 | a start record and a header with the magic give header + object offset |
| MacroLib.ModuleObjectFields | src/rtld/mod.rs:18-46 | the module object's field list is well formed |
| MacroLib.WordFields | src/rtld/mod.rs:18-46 | n well-formed 8-byte fields |
| MacroLib.LayoutEndIsLastEnd | src/hooks/contexts.rs:23-35 | the layout ends where its last field ends |
| MacroLib.LayoutEndAppend | src/hooks/contexts.rs:23-35 | laying out a+b is laying out b after a |
| MacroLib.MaxAlignAppend | src/hooks/contexts.rs:23-35 | the alignment of a+b is the larger of the two |
| MacroLib.WordFieldsLayout | src/rtld/mod.rs:18-46 | n word fields end at 8n past the aligned start and are 8-aligned |
| MacroLib.RuntimeSpaceHoldsModuleObject | skyline-macro/src/lib.rs:81-83 | `.space 0xD0` is exactly the size of `ModuleObject` (see also src/rtld/mod.rs lines 18-46) |
| MacroLib.StructSizeByEnd | src/hooks/contexts.rs:23-35 | a struct's size is its last field's end rounded up to its alignment |
| MacroLib.LayoutAlignments | src/rtld/mod.rs:18-46 | the roundings the module object goes through |
| MacroLib.ModuleObjectEnd | src/rtld/mod.rs:18-46 | the module object's last field ends at byte 208 |
| MacroLib.HeadThenTailEnd | src/rtld/mod.rs:18-46 | the pointers and flag, then nineteen words, end at 208 |
| MacroLib.TailEnd | src/rtld/mod.rs:18-46 | nineteen words after the flag end at 208 |
| MacroLib.FlagEnd | src/rtld/mod.rs:18-46 | six pointers and the flag end at 49 |
| MacroLib.PointersEnd | src/rtld/mod.rs:18-46 | six pointers end at 48 |
| MacroLib.ModuleObjectAlign | src/rtld/mod.rs:18-46 | the module object is 8-aligned |
| MacroLib.WordFieldsAlign | src/rtld/mod.rs:18-46 | word fields are 8-aligned |
| MacroLib.MaxAlignOfParts | src/rtld/mod.rs:18-46 | word fields around a byte field give an alignment of 8 |

## Left out

- The float views and float setters of `VectorRegister` and `FpuRegister` are modelled only as raw 64- and 32-bit
  patterns. Every `fmt::*` impl in src/hooks/registers.rs is left out.
- The C++ demangler (`__cxa_demangle`, `free`, `strlen`) is an uninterpreted byte-string function passed in.
- The `get_backtrace!` inline assembly is left out. So are `write_formatted_addr` and `write` under the
  `static-module` feature, which repeat `Display` through `std::io::Write`.
- Rendered text is structured values (`Formatted`, `Line`, `RowContent`), not formatted strings.
- `query_memory`, process memory and the loader's lists are inputs. Loader threads changing the lists during a
  traversal are not modelled. Neither are concurrent reads of `is_enabled`, nor the thread-safety of
  `Once`/`OnceCell`.
- The patch engine and loader FFI in src/hooks.rs and src/memory.rs are a class that logs calls. What the engine
  does with a hook is not modelled. Only its returned trampoline is, as a function of the call.
- Of src/memory.rs only `text()` indexing is modelled (`HookFfi.TextAt`). The other section accessors are left out.
- `syn`/`quote` token trees, spans, `parse_quote!` output and the way diagnostics are emitted are left out.
  - Expressions are the shapes `StrLit | OtherLit | Path | Other`.
  - Diagnostics are values.
  - Generated statements are abstract `Stmt` values.
- `Attrs.ExprSpec`: the grammar of `syn::Expr` is a primary expression (a literal, `true` or `false`, a
  parenthesised group or a path), optionally followed by Rust binary or assignment operators, each followed by
  another primary. Other Rust expression forms are not parsed: unary and prefix operators, method calls, field
  access, indexing, casts, ranges, closures and blocks. Operator precedence is not modelled, because any
  expression with an operator is `Other`.
- `u64` arithmetic that overflows panics in a debug build of the original. The model always wraps modulo 2^64,
  as a release build does: `Rtld.Wrap` is used for symbol and region ends and for module base plus offset, and
  `Backtrace.OffsetFrom` for address minus base.
- The assembler's escaping of `.ascii "{}"` is not modelled. Names are laid out as their UTF-8 bytes.
- Where the linker places the name record and the MOD0 header is a hypothesis of the round trips
  (`NameRecordPlaced`, `Mod0Placed`), not something derived.
- MacroLib.ModuleNameRoundTrip: holds for names that are non-empty, shorter than 2^31 bytes and free of `/` and
  `\`. Longer names make the `i32` length non-positive. Names with separators are cut to their last component.
- Backtrace.NoPanicUpTo33: states only that no panic happens up to an effective limit of 33. The panic for larger
  limits is stated separately by `DeepStackOverflows`, for chains long enough to reach slot 33.
- `Backtrace::new_from_legacy_inline_ctx` refers to a `LegacyInlineCtx` type that src/hooks/contexts.rs does not
  define. The model gives only `NewFromInlineCtx`, which uses the same registers.
- The symbol stub is a transformer over registers, `sp` and a save block. Instruction encoding, the GOT and
  `.cfi` directives are left out. The user function is an abstract `UserCode` value.
- A generated module's statics are object fields. Their linkage and `pub(super)` visibility are left out.

Two places where this model follows the code rather than its description:

- The walk limit is floored at 32 (`limit.max(32)`). A small requested limit therefore still allows up to 31
  frames after the start frame.
- `find_module_by_name` substitutes `__invalid_name` for a module without a name. The query `__invalid_name`
  therefore matches such a module (`UnnamedMatchesOnlyPlaceholder`).
