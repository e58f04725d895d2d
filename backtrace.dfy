/** The frame-pointer stack unwinder (src/hooks/backtrace.rs).

    A stack frame record is a pair (previous frame pointer, return address). The unwinder
    starts at a frame pointer, optionally takes the frame there as the "current frame",
    then follows `previous_frame` links, storing what it finds in a fixed array of 33
    slots, until it meets a null pointer, a frame that points to itself, or the end of
    its budget. Stack memory is given to the model as a function from address to the
    record stored there; raw pointer reads become applications of it. */
module Backtrace {
  import opened Wrappers
  import Rtld
  import Contexts

  type Addr = Rtld.Addr

  const Null: Addr := 0

  /** `StackFrame`: the two words a function prologue pushes. */
  datatype StackFrame = StackFrame(previousFrame: Addr, returnAddress: Addr)

  /** The stack, as the record stored at each address. */
  type Memory = Addr -> StackFrame

  datatype BacktraceError = InitialFPNull | RecursiveFramePointer | BacktraceLimitReached

  /** `BacktraceEntry`: a frame pointer and a copy of the record it pointed to. */
  datatype BacktraceEntry = BacktraceEntry(ptr: Addr, frame: StackFrame)

  /** The size of a `StackFrame` record in bytes. */
  const FrameSize: nat := 16

  /** `get_previous_stack_pointer`: the address just past the entry's record, or null for
      a null entry. */
  function PreviousStackPointer(e: BacktraceEntry): (sp: Addr)
    ensures e.ptr == Null ==> sp == Null
    ensures e.ptr != Null ==> Rtld.Wrap(sp + Rtld.Two64 - FrameSize) == e.ptr
  {
    if e.ptr == Null then Null else Rtld.Wrap(e.ptr + FrameSize)
  }

  /** One slot of the backtrace array: empty, a frame, or the error that ended the walk. */
  type Slot = Option<Result<BacktraceEntry, BacktraceError>>

  /** The number of slots of the backtrace array. */
  const SlotCount: nat := 33

  /** `Backtrace`. */
  datatype Backtrace = Backtrace(currentFrame: Option<BacktraceEntry>, currentLr: Addr, backtrace: seq<Slot>)

  /** What `Backtrace::new` does: return a result, or panic on an array index. */
  datatype NewOutcome = Returned(result: Result<Backtrace, BacktraceError>) | Panics(reason: Panic)

  // ---------------------------------------------------------------------------
  // The walk, as a function

  /** `limit.max(32)`. */
  function EffectiveLimit(limit: nat): (n: nat)
    ensures n >= 32 && n >= limit
    ensures n == limit || n == 32
  {
    if limit < 32 then 32 else limit
  }

  /** What a walk produced: the entries pushed, in order, and the budget left over. */
  datatype Walked = Walked(entries: seq<Result<BacktraceEntry, BacktraceError>>, left: nat)

  /** The loop of `Backtrace::new` from frame pointer `fp`, with `prev` the frame
      pointer visited before it and `budget` the remaining limit. */
  function Walk(mem: Memory, fp: Addr, prev: Addr, budget: nat): (w: Walked)
    ensures w.left <= budget && |w.entries| <= budget
    decreases budget
  {
    if budget == 0 then Walked([], 0)
    else if fp == Null then Walked([], budget)
    else if prev == fp then Walked([Err(RecursiveFramePointer)], budget)
    else
      var entry := BacktraceEntry(fp, mem(fp));
      var rest := Walk(mem, entry.frame.previousFrame, fp, budget - 1);
      Walked([Ok(entry)] + rest.entries, rest.left)
  }

  /** `Walk` after the entries `acc` were already pushed: the loop's state as it runs. */
  function WalkAfter(mem: Memory, fp: Addr, prev: Addr, budget: nat, acc: seq<Result<BacktraceEntry, BacktraceError>>): Walked
    decreases budget
  {
    if budget == 0 then Walked(acc, 0)
    else if fp == Null then Walked(acc, budget)
    else if prev == fp then Walked(acc + [Err(RecursiveFramePointer)], budget)
    else
      var entry := BacktraceEntry(fp, mem(fp));
      WalkAfter(mem, entry.frame.previousFrame, fp, budget - 1, acc + [Ok(entry)])
  }

  lemma {:induction false} WalkAfterIsWalk(mem: Memory, fp: Addr, prev: Addr, budget: nat, acc: seq<Result<BacktraceEntry, BacktraceError>>)
    ensures WalkAfter(mem, fp, prev, budget, acc)
         == Walked(acc + Walk(mem, fp, prev, budget).entries, Walk(mem, fp, prev, budget).left)
    decreases budget
  {
    if budget > 0 && fp != Null && prev != fp {
      var entry := BacktraceEntry(fp, mem(fp));
      WalkAfterIsWalk(mem, entry.frame.previousFrame, fp, budget - 1, acc + [Ok(entry)]);
      assert acc + [Ok(entry)] + Walk(mem, entry.frame.previousFrame, fp, budget - 1).entries
          == acc + ([Ok(entry)] + Walk(mem, entry.frame.previousFrame, fp, budget - 1).entries);
    } else if budget > 0 && fp != Null {
    } else {
      assert acc + [] == acc;
    }
  }

  /** The frame at `fp` is the current frame exactly when its return address is the
      given link register value. */
  function StartFrame(mem: Memory, fp: Addr, lr: Addr): (s: Option<BacktraceEntry>)
    ensures s.Some? <==> mem(fp).returnAddress == lr
    ensures s.Some? ==> s.value.ptr == fp && s.value.frame.returnAddress == lr
  {
    if mem(fp).returnAddress != lr then None else Some(BacktraceEntry(fp, mem(fp)))
  }

  /** Where the loop starts: after the current frame when there is one (with that frame
      as the previous pointer), else at `fp` itself with a null previous pointer. */
  function WalkStart(mem: Memory, fp: Addr, lr: Addr): (start: (Addr, Addr))
  {
    match StartFrame(mem, fp, lr)
    case None => (fp, Null)
    case Some(e) => (e.frame.previousFrame, fp)
  }

  /** The walk of `Backtrace::new`: one unit of the effective limit is charged for the
      start frame whether or not it is kept. */
  function WalkOf(mem: Memory, fp: Addr, lr: Addr, limit: nat): Walked
  {
    var start := WalkStart(mem, fp, lr);
    Walk(mem, start.0, start.1, EffectiveLimit(limit) - 1)
  }

  /** The values stored into the array, in order: the walk, then `BacktraceLimitReached`
      when the budget ran out. */
  function Slots(mem: Memory, fp: Addr, lr: Addr, limit: nat): seq<Result<BacktraceEntry, BacktraceError>>
  {
    var start := WalkStart(mem, fp, lr);
    SlotsFrom(mem, start.0, start.1, EffectiveLimit(limit) - 1)
  }

  /** The values the loop stores from frame pointer `fp` on, `prev` and `budget` as in
      `Walk`. */
  function SlotsFrom(mem: Memory, fp: Addr, prev: Addr, budget: nat): seq<Result<BacktraceEntry, BacktraceError>>
  {
    var w := Walk(mem, fp, prev, budget);
    w.entries + (if w.left == 0 then [Err(BacktraceLimitReached)] else [])
  }

  /** The 33-slot array holding `s` in its first slots and nothing after. */
  function Filled(s: seq<Result<BacktraceEntry, BacktraceError>>): (a: seq<Slot>)
    requires |s| <= SlotCount
    ensures |a| == SlotCount
  {
    seq(SlotCount, i requires 0 <= i < SlotCount => if i < |s| then Some(s[i]) else None)
  }

  /** `Backtrace::new`, as a function of the stack. */
  function NewSpec(mem: Memory, fp: Addr, lr: Addr, limit: nat): (r: NewOutcome)
    ensures fp == Null <==> r == Returned(Err(InitialFPNull))
    ensures r.Returned? && r.result.Ok? ==> |r.result.value.backtrace| == SlotCount && r.result.value.currentLr == lr
    ensures r.Panics? ==> r.reason == IndexOutOfBounds(SlotCount, SlotCount)
  {
    if fp == Null then Returned(Err(InitialFPNull))
    else
      var s := Slots(mem, fp, lr, limit);
      if |s| > SlotCount then Panics(IndexOutOfBounds(SlotCount, SlotCount))
      else Returned(Ok(Backtrace(StartFrame(mem, fp, lr), lr, Filled(s))))
  }

  // ---------------------------------------------------------------------------
  // The unwinder

  /** `Backtrace::new`: takes the current frame, then runs the bounded walk over the
      frame chain into a 33-slot array. */
  method New(mem: Memory, fp: Addr, lr: Addr, limit: nat) returns (r: NewOutcome)
    ensures r == NewSpec(mem, fp, lr, limit)
  {
    if fp == Null {
      return Returned(Err(InitialFPNull));
    }
    var budget := EffectiveLimit(limit);
    var currentFp := fp;
    var currentFrame := mem(currentFp);
    var prevFp: Addr;
    var startFrame: Option<BacktraceEntry>;
    if currentFrame.returnAddress != lr {
      prevFp := Null;
      startFrame := None;
    } else {
      var entry := BacktraceEntry(currentFp, mem(currentFp));
      prevFp := currentFp;
      currentFp := entry.frame.previousFrame;
      startFrame := Some(entry);
    }
    budget := budget - 1;
    assert (currentFp, prevFp) == WalkStart(mem, fp, lr) && startFrame == StartFrame(mem, fp, lr);

    var entries := new Slot[SlotCount](_ => None);
    var fits := Unwind(mem, currentFp, prevFp, budget, entries);
    if !fits {
      return Panics(IndexOutOfBounds(SlotCount, SlotCount));
    }
    return Returned(Ok(Backtrace(startFrame, lr, entries[..])));
  }

  /** The loop of `Backtrace::new` over an empty slot array: it either fills the array
      with what the walk stores, or panics (`fits` false) on the first index past the
      array's end. */
  method Unwind(mem: Memory, fp: Addr, prev: Addr, budget: nat, entries: array<Slot>) returns (fits: bool)
    requires entries.Length == SlotCount && forall i :: 0 <= i < SlotCount ==> entries[i] == None
    modifies entries
    ensures fits <==> |SlotsFrom(mem, fp, prev, budget)| <= SlotCount
    ensures fits ==> entries[..] == Filled(SlotsFrom(mem, fp, prev, budget))
  {
    var currentFp, prevFp, left := fp, prev, budget;
    var count := 0;
    ghost var written: seq<Result<BacktraceEntry, BacktraceError>> := [];
    ghost var total := WalkAfter(mem, currentFp, prevFp, left, written);
    WalkAfterIsWalk(mem, currentFp, prevFp, left, written);
    while left > 0
      invariant count == |written| <= SlotCount
      invariant forall i :: 0 <= i < SlotCount ==> entries[i] == if i < count then Some(written[i]) else None
      invariant total == WalkAfter(mem, currentFp, prevFp, left, written)
      decreases left
    {
      if currentFp == Null {
        break;
      }
      if prevFp == currentFp {
        if count >= SlotCount {
          return false;
        }
        entries[count] := Some(Err(RecursiveFramePointer));
        written := written + [Err(RecursiveFramePointer)];
        count := count + 1;
        break;
      }
      var entry := BacktraceEntry(currentFp, mem(currentFp));
      prevFp := currentFp;
      currentFp := entry.frame.previousFrame;
      if count >= SlotCount {
        WalkAfterIsWalk(mem, currentFp, prevFp, left - 1, written + [Ok(entry)]);
        return false;
      }
      entries[count] := Some(Ok(entry));
      written := written + [Ok(entry)];
      count := count + 1;
      left := left - 1;
    }
    assert total.entries == written && total.left == left;

    if left == 0 {
      if count >= SlotCount {
        return false;
      }
      entries[count] := Some(Err(BacktraceLimitReached));
      written := written + [Err(BacktraceLimitReached)];
      count := count + 1;
    }
    assert written == SlotsFrom(mem, fp, prev, budget);
    FilledFromSlots(entries[..], written);
    return true;
  }

  /** An array whose first slots hold `written` and whose others are empty is
      `Filled(written)`. */
  lemma FilledFromSlots(a: seq<Slot>, written: seq<Result<BacktraceEntry, BacktraceError>>)
    requires |a| == SlotCount && |written| <= SlotCount
    requires forall i :: 0 <= i < SlotCount ==> a[i] == if i < |written| then Some(written[i]) else None
    ensures a == Filled(written)
  {
  }

  /** A register value used as an address. */
  function RegisterAddr(x: bv64): Addr
  {
    x as int
  }

  /** `new_from_inline_ctx`: the frame pointer is `x29` and the link register `x30`. */
  method NewFromInlineCtx(mem: Memory, ctx: Contexts.InlineCtx, limit: nat) returns (r: NewOutcome)
    ensures r == NewSpec(mem, RegisterAddr(ctx.registers[29]), RegisterAddr(ctx.registers[30]), limit)
  {
    r := New(mem, RegisterAddr(ctx.registers[29]), RegisterAddr(ctx.registers[30]), limit);
  }

  // ---------------------------------------------------------------------------
  // What the walk produces

  /** The walk spends one unit per frame it keeps; it ends with at most one error, a
      `RecursiveFramePointer`, and only before the budget is spent. */
  lemma {:induction false} WalkShape(mem: Memory, fp: Addr, prev: Addr, budget: nat)
    ensures var w := Walk(mem, fp, prev, budget);
      w.left <= budget
      && (forall k :: 0 <= k < |w.entries| - 1 ==> w.entries[k].Ok?)
      && (forall k :: 0 <= k < |w.entries| && w.entries[k].Err? ==>
            w.entries[k].error == RecursiveFramePointer && w.left > 0)
      && |w.entries| == budget - w.left + (if |w.entries| > 0 && w.entries[|w.entries| - 1].Err? then 1 else 0)
    decreases budget
  {
    if budget > 0 && fp != Null && prev != fp {
      WalkShape(mem, mem(fp).previousFrame, fp, budget - 1);
      var rest := Walk(mem, mem(fp).previousFrame, fp, budget - 1);
      var w := Walk(mem, fp, prev, budget);
      assert w.entries == [Ok(BacktraceEntry(fp, mem(fp)))] + rest.entries;
      assert forall k :: 1 <= k < |w.entries| ==> w.entries[k] == rest.entries[k - 1];
    }
  }

  /** The pointer the walk stands on before its `k`th step. */
  function PointerAt(fp: Addr, entries: seq<Result<BacktraceEntry, BacktraceError>>, k: nat): Addr
    requires k <= |entries|
    requires forall j :: 0 <= j < k ==> entries[j].Ok?
  {
    if k == 0 then fp else entries[k - 1].value.frame.previousFrame
  }

  /** Each kept entry is the record read at the pointer the walk stood on, and the walk
      moves on to that record's `previous_frame`; the first entry is read at `fp`. */
  lemma {:induction false} WalkFollowsChain(mem: Memory, fp: Addr, prev: Addr, budget: nat)
    ensures var w := Walk(mem, fp, prev, budget);
      forall k :: 0 <= k < |w.entries| && w.entries[k].Ok? ==>
        (forall j :: 0 <= j < k ==> w.entries[j].Ok?)
        && w.entries[k].value.ptr == PointerAt(fp, w.entries, k)
        && w.entries[k].value.ptr != Null
        && w.entries[k].value.frame == mem(w.entries[k].value.ptr)
    decreases budget
  {
    WalkShape(mem, fp, prev, budget);
    if budget > 0 && fp != Null && prev != fp {
      var next := mem(fp).previousFrame;
      WalkFollowsChain(mem, next, fp, budget - 1);
      WalkShape(mem, next, fp, budget - 1);
      var rest := Walk(mem, next, fp, budget - 1);
      var w := Walk(mem, fp, prev, budget);
      assert w.entries == [Ok(BacktraceEntry(fp, mem(fp)))] + rest.entries;
      forall k | 0 <= k < |w.entries| && w.entries[k].Ok?
        ensures (forall j :: 0 <= j < k ==> w.entries[j].Ok?)
          && w.entries[k].value.ptr == PointerAt(fp, w.entries, k)
          && w.entries[k].value.ptr != Null
          && w.entries[k].value.frame == mem(w.entries[k].value.ptr)
      {
        if k > 0 {
          assert w.entries[k] == rest.entries[k - 1];
          assert forall j :: 0 <= j < k - 1 ==> rest.entries[j].Ok?;
          if k > 1 {
            assert rest.entries[k - 2] == w.entries[k - 1];
          }
        }
      }
    }
  }

  /** Why a walk ends: with budget left and no error it stopped on a null pointer; with
      a `RecursiveFramePointer` it stood on the pointer it had just left. */
  lemma WalkStops(mem: Memory, fp: Addr, prev: Addr, budget: nat)
    ensures var w := Walk(mem, fp, prev, budget);
      var n := |w.entries|;
      (w.left > 0 && (n == 0 || w.entries[n - 1].Ok?) ==>
         (forall j :: 0 <= j < n ==> w.entries[j].Ok?) && PointerAt(fp, w.entries, n) == Null)
      && (n > 0 && w.entries[n - 1].Err? ==>
         (forall j :: 0 <= j < n - 1 ==> w.entries[j].Ok?)
         && PointerAt(fp, w.entries, n - 1) == (if n == 1 then prev else w.entries[n - 2].value.ptr))
  {
    WalkStopsOnNull(mem, fp, prev, budget);
    WalkStopsOnRecursion(mem, fp, prev, budget);
  }

  /** A walk that ends with budget left and no error stopped on a null pointer. */
  lemma {:induction false} WalkStopsOnNull(mem: Memory, fp: Addr, prev: Addr, budget: nat)
    ensures var w := Walk(mem, fp, prev, budget);
      var n := |w.entries|;
      w.left > 0 && (n == 0 || w.entries[n - 1].Ok?) ==>
        (forall j :: 0 <= j < n ==> w.entries[j].Ok?) && PointerAt(fp, w.entries, n) == Null
    decreases budget
  {
    WalkShape(mem, fp, prev, budget);
    if budget > 0 && fp != Null && prev != fp {
      var next := mem(fp).previousFrame;
      WalkStopsOnNull(mem, next, fp, budget - 1);
      WalkShape(mem, next, fp, budget - 1);
      var rest := Walk(mem, next, fp, budget - 1);
      var w := Walk(mem, fp, prev, budget);
      assert w.entries == [Ok(BacktraceEntry(fp, mem(fp)))] + rest.entries;
      var n := |w.entries|;
      if w.left > 0 && w.entries[n - 1].Ok? {
        assert forall k :: 1 <= k < n ==> w.entries[k] == rest.entries[k - 1];
        assert PointerAt(fp, w.entries, n) == PointerAt(next, rest.entries, n - 1);
      }
    }
  }

  /** A walk that ends on a `RecursiveFramePointer` stood on the pointer it had just
      left. */
  lemma {:induction false} WalkStopsOnRecursion(mem: Memory, fp: Addr, prev: Addr, budget: nat)
    ensures var w := Walk(mem, fp, prev, budget);
      var n := |w.entries|;
      n > 0 && w.entries[n - 1].Err? ==>
        (forall j :: 0 <= j < n - 1 ==> w.entries[j].Ok?)
        && PointerAt(fp, w.entries, n - 1) == (if n == 1 then prev else w.entries[n - 2].value.ptr)
    decreases budget
  {
    WalkShape(mem, fp, prev, budget);
    if budget > 0 && fp != Null && prev != fp {
      var next := mem(fp).previousFrame;
      WalkStopsOnRecursion(mem, next, fp, budget - 1);
      WalkShape(mem, next, fp, budget - 1);
      var rest := Walk(mem, next, fp, budget - 1);
      var w := Walk(mem, fp, prev, budget);
      assert w.entries == [Ok(BacktraceEntry(fp, mem(fp)))] + rest.entries;
      var n := |w.entries|;
      if n > 1 && w.entries[n - 1].Err? {
        assert forall k :: 1 <= k < n ==> w.entries[k] == rest.entries[k - 1];
        assert PointerAt(fp, w.entries, n - 1) == PointerAt(next, rest.entries, n - 2);
        if n > 2 {
          assert w.entries[n - 2] == rest.entries[n - 3];
        }
      }
    }
  }

  /** The array holds at most one error and it is the last value stored;
      `BacktraceLimitReached` is stored exactly when the whole budget was spent; and no
      more frames are kept than the effective limit minus the unit charged for the
      start frame. */
  lemma SlotsShape(mem: Memory, fp: Addr, lr: Addr, limit: nat)
    ensures var s := Slots(mem, fp, lr, limit);
      (forall k :: 0 <= k < |s| - 1 ==> s[k].Ok?)
      && (Err(BacktraceLimitReached) in s <==> WalkOf(mem, fp, lr, limit).left == 0)
      && |s| <= EffectiveLimit(limit)
      && (forall k :: 0 <= k < |s| && s[k].Ok? ==> k < EffectiveLimit(limit) - 1)
  {
    var start := WalkStart(mem, fp, lr);
    var budget := EffectiveLimit(limit) - 1;
    WalkShape(mem, start.0, start.1, budget);
    var w := WalkOf(mem, fp, lr, limit);
    var s := Slots(mem, fp, lr, limit);
    if w.left > 0 {
      assert s == w.entries;
      assert forall k :: 0 <= k < |s| ==> s[k] != Err(BacktraceLimitReached);
    } else {
      assert s[|s| - 1] == Err(BacktraceLimitReached);
    }
  }

  /** A null frame pointer is rejected before any frame is read: the stack does not
      matter. */
  lemma NullStartReadsNothing(mem1: Memory, mem2: Memory, lr: Addr, limit: nat)
    ensures NewSpec(mem1, Null, lr, limit) == NewSpec(mem2, Null, lr, limit) == Returned(Err(InitialFPNull))
  {
  }

  /** The current frame is kept exactly when the record at `fp` holds `lr` as its return
      address; the walk then goes on from its `previous_frame`, otherwise from `fp`. */
  lemma CurrentFrameKept(mem: Memory, fp: Addr, lr: Addr, limit: nat)
    requires fp != Null
    ensures NewSpec(mem, fp, lr, limit).Returned? ==>
      var b := NewSpec(mem, fp, lr, limit).result.value;
      (b.currentFrame.Some? <==> mem(fp).returnAddress == lr)
      && (b.currentFrame.Some? ==> b.currentFrame.value == BacktraceEntry(fp, mem(fp)))
      && b.currentLr == lr
    ensures WalkStart(mem, fp, lr) == if mem(fp).returnAddress == lr then (mem(fp).previousFrame, fp) else (fp, Null)
  {
  }

  /** With an effective limit of at most 33 every store stays inside the array. */
  lemma NoPanicUpTo33(mem: Memory, fp: Addr, lr: Addr, limit: nat)
    requires limit <= SlotCount
    ensures NewSpec(mem, fp, lr, limit).Returned?
  {
    SlotsShape(mem, fp, lr, limit);
  }

  /** The chain from `fp` runs at least `n` frames without a null or self pointer. */
  ghost predicate Unbroken(mem: Memory, fp: Addr, prev: Addr, n: nat)
    decreases n
  {
    n == 0 || (fp != Null && fp != prev && Unbroken(mem, mem(fp).previousFrame, fp, n - 1))
  }

  lemma {:induction false} WalkOfUnbrokenSpendsAll(mem: Memory, fp: Addr, prev: Addr, budget: nat)
    requires Unbroken(mem, fp, prev, budget)
    ensures Walk(mem, fp, prev, budget).left == 0
    ensures |Walk(mem, fp, prev, budget).entries| == budget
    decreases budget
  {
    if budget > 0 {
      WalkOfUnbrokenSpendsAll(mem, mem(fp).previousFrame, fp, budget - 1);
    }
  }

  /** A limit above 33 panics on a stack deep enough to use it: the walk fills slots
      0..limit-2 and the limit error goes to slot `limit - 1`, past the array. */
  lemma DeepStackOverflows(mem: Memory, fp: Addr, lr: Addr, limit: nat)
    requires fp != Null && limit > SlotCount
    requires var start := WalkStart(mem, fp, lr); Unbroken(mem, start.0, start.1, limit - 1)
    ensures NewSpec(mem, fp, lr, limit) == Panics(IndexOutOfBounds(SlotCount, SlotCount))
  {
    var start := WalkStart(mem, fp, lr);
    WalkOfUnbrokenSpendsAll(mem, start.0, start.1, limit - 1);
  }

  // ---------------------------------------------------------------------------
  // Rendering

  /** An address as `get_formatted_addr_` describes it: bare, inside a module (its name,
      or "unknown", and the offset from the module base), or also inside a symbol (its
      name, demangled on request, and the offset from the symbol start). */
  datatype Formatted =
    | Bare(address: Addr)
    | InModule(address: Addr, moduleName: seq<Rtld.Byte>, moduleOffset: Addr)
    | InSymbol(address: Addr, moduleName: seq<Rtld.Byte>, moduleOffset: Addr, symbolName: seq<Rtld.Byte>, symbolOffset: Addr)

  const Unknown: seq<Rtld.Byte> := [0x75, 0x6E, 0x6B, 0x6E, 0x6F, 0x77, 0x6E]

  ghost predicate AllTablesWellFormed(heap: Rtld.Heap)
  {
    forall a :: a in heap ==> Rtld.TablesWellFormed(heap[a])
  }

  /** `address - base` on `u64`, which wraps in a release build. */
  function OffsetFrom(base: Addr, address: Addr): (d: Addr)
    ensures Rtld.Wrap(base + d) == address
    ensures base <= address ==> d == address - base
  {
    Rtld.Wrap(address - base)
  }

  /** What `get_formatted_addr_` shows for an address, for a loader whose lists hold
      `autoOrder` and `manualOrder`; `demangler` stands for the C++ demangler. */
  ghost function FormatSpec(p: Rtld.Process, l: Rtld.Loader, autoOrder: seq<Addr>, manualOrder: seq<Addr>,
                            address: Addr, demangle: bool, demangler: seq<Rtld.Byte> -> seq<Rtld.Byte>): (f: Formatted)
    requires AllTablesWellFormed(l.heap)
    ensures f.address == address
    ensures f.Bare? <==> Rtld.ModuleForAddress(p, l, autoOrder, manualOrder, address).None?
  {
    match Rtld.ModuleForAddress(p, l, autoOrder, manualOrder, address)
    case None => Bare(address)
    case Some(a) =>
      if a !in l.heap then Bare(address)
      else
        var obj := l.heap[a];
        var name := match Rtld.GetModuleName(p, obj) case Some(n) => n case None => Unknown;
        var moduleOffset := OffsetFrom(obj.moduleBase, address);
        match Rtld.SymbolForAddress(obj, address)
        case None => InModule(address, name, moduleOffset)
        case Some(hit) =>
          InSymbol(address, name, moduleOffset, if demangle then demangler(hit.name) else hit.name,
                   OffsetFrom(hit.start, address))
  }

  /** `get_formatted_addr_`. */
  method FormattedAddr(p: Rtld.Process, l: Rtld.Loader, ghost autoOrder: seq<Addr>, ghost manualOrder: seq<Addr>,
                       address: Addr, demangle: bool, demangler: seq<Rtld.Byte> -> seq<Rtld.Byte>)
    returns (f: Formatted)
    requires Rtld.LoaderHolds(l, autoOrder, manualOrder) && AllTablesWellFormed(l.heap)
    ensures f == FormatSpec(p, l, autoOrder, manualOrder, address, demangle, demangler)
  {
    var found := Rtld.FindModuleForAddress(p, l, autoOrder, manualOrder, address);
    if found.None? {
      return Bare(address);
    }
    var obj := l.heap[found.value];
    var moduleOffset := OffsetFrom(obj.moduleBase, address);
    var name := match Rtld.GetModuleName(p, obj) case Some(n) => n case None => Unknown;
    var symbol := Rtld.FindSymbolForAddress(obj, address);
    if symbol.Some? {
      var symbolOffset := OffsetFrom(symbol.value.start, address);
      var symbolName := if demangle then demangler(symbol.value.name) else symbol.value.name;
      return InSymbol(address, name, moduleOffset, symbolName, symbolOffset);
    }
    return InModule(address, name, moduleOffset);
  }

  /** The offsets shown lead back to the address: base + module offset is the address
      (modulo 2^64), and the symbol offset is the exact distance from the symbol start,
      which never exceeds the symbol's size. */
  lemma FormattedOffsets(p: Rtld.Process, l: Rtld.Loader, autoOrder: seq<Addr>, manualOrder: seq<Addr>,
                         address: Addr, demangle: bool, demangler: seq<Rtld.Byte> -> seq<Rtld.Byte>)
    requires AllTablesWellFormed(l.heap)
    ensures var f := FormatSpec(p, l, autoOrder, manualOrder, address, demangle, demangler);
      var found := Rtld.ModuleForAddress(p, l, autoOrder, manualOrder, address);
      f.address == address
      && (f.Bare? <==> found.None?)
      && (!f.Bare? ==>
            found.value in l.heap
            && Rtld.ContainsAddress(p, l.heap[found.value], address)
            && Rtld.Wrap(l.heap[found.value].moduleBase + f.moduleOffset) == address)
      && (f.InSymbol? ==>
            exists k :: 0 <= k < l.heap[found.value].hashNchainValue
              && Rtld.MatchesAt(l.heap[found.value], k, address)
              && Rtld.SymbolStart(l.heap[found.value], l.heap[found.value].dynsym[k]) + f.symbolOffset == address)
  {
    var found := Rtld.ModuleForAddress(p, l, autoOrder, manualOrder, address);
    if found.Some? {
      var obj := l.heap[found.value];
      Rtld.SymbolForAddressMeaning(obj, address);
    }
  }

  /** A line of the `Display` output. */
  datatype RowContent = Frame(at: Formatted) | Failure(error: BacktraceError)
  datatype Line = CurrentLr(at: Formatted) | Row(number: nat, content: RowContent)

  /** How many slots are filled before the first empty one. */
  function FilledPrefix(slots: seq<Slot>): (n: nat)
    ensures n <= |slots|
    ensures forall j :: 0 <= j < n ==> slots[j].Some?
    ensures n < |slots| ==> slots[n].None?
  {
    if |slots| == 0 || slots[0].None? then 0 else 1 + FilledPrefix(slots[1..])
  }

  /** The row a stored value shows: the formatted return address of a frame, or the
      error. */
  ghost function SlotContent(p: Rtld.Process, l: Rtld.Loader, autoOrder: seq<Addr>, manualOrder: seq<Addr>,
                             alternate: bool, demangler: seq<Rtld.Byte> -> seq<Rtld.Byte>,
                             slot: Result<BacktraceEntry, BacktraceError>): RowContent
    requires AllTablesWellFormed(l.heap)
  {
    match slot
    case Ok(e) => Frame(FormatSpec(p, l, autoOrder, manualOrder, e.frame.returnAddress, alternate, demangler))
    case Err(e) => Failure(e)
  }

  /** One row of the `Display` output. */
  method RenderSlot(p: Rtld.Process, l: Rtld.Loader, ghost autoOrder: seq<Addr>, ghost manualOrder: seq<Addr>,
                    alternate: bool, demangler: seq<Rtld.Byte> -> seq<Rtld.Byte>,
                    slot: Result<BacktraceEntry, BacktraceError>)
    returns (content: RowContent)
    requires Rtld.LoaderHolds(l, autoOrder, manualOrder) && AllTablesWellFormed(l.heap)
    ensures content == SlotContent(p, l, autoOrder, manualOrder, alternate, demangler, slot)
  {
    match slot
    case Ok(e) =>
      var at := FormattedAddr(p, l, autoOrder, manualOrder, e.frame.returnAddress, alternate, demangler);
      content := Frame(at);
    case Err(e) =>
      content := Failure(e);
  }

  /** The rows of the filled slots before the first empty one, numbered from `from`. */
  ghost function SlotRows(p: Rtld.Process, l: Rtld.Loader, autoOrder: seq<Addr>, manualOrder: seq<Addr>,
                          alternate: bool, demangler: seq<Rtld.Byte> -> seq<Rtld.Byte>,
                          slots: seq<Slot>, from: nat): seq<Line>
    requires AllTablesWellFormed(l.heap)
    decreases |slots|
  {
    if |slots| == 0 || slots[0].None? then []
    else [Row(from, SlotContent(p, l, autoOrder, manualOrder, alternate, demangler, slots[0].value))]
         + SlotRows(p, l, autoOrder, manualOrder, alternate, demangler, slots[1..], from + 1)
  }

  /** The lines before the slots: the link register line, then the current frame as
      row 0 if there is one. */
  ghost function HeadLines(bt: Backtrace, p: Rtld.Process, l: Rtld.Loader, autoOrder: seq<Addr>, manualOrder: seq<Addr>,
                           alternate: bool, demangler: seq<Rtld.Byte> -> seq<Rtld.Byte>): seq<Line>
    requires AllTablesWellFormed(l.heap)
  {
    [CurrentLr(FormatSpec(p, l, autoOrder, manualOrder, bt.currentLr, alternate, demangler))]
    + match bt.currentFrame
      case None => []
      case Some(e) => [Row(0, Frame(FormatSpec(p, l, autoOrder, manualOrder, e.frame.returnAddress, alternate, demangler)))]
  }

  /** The number of the first slot row: 1 after a current frame, else 0. */
  function FirstSlotRow(bt: Backtrace): nat
  {
    if bt.currentFrame.Some? then 1 else 0
  }

  /** `Display for Backtrace`, as the lines it writes: the head lines, then every
      filled slot up to the first empty one, rows numbered on from the head. */
  ghost function RenderSpec(bt: Backtrace, p: Rtld.Process, l: Rtld.Loader, autoOrder: seq<Addr>, manualOrder: seq<Addr>,
                            alternate: bool, demangler: seq<Rtld.Byte> -> seq<Rtld.Byte>): (lines: seq<Line>)
    requires AllTablesWellFormed(l.heap)
    ensures |lines| >= 1 + FirstSlotRow(bt)
    ensures lines[0] == CurrentLr(FormatSpec(p, l, autoOrder, manualOrder, bt.currentLr, alternate, demangler))
    ensures bt.currentFrame.Some? ==> lines[1] == Row(0, Frame(FormatSpec(p, l, autoOrder, manualOrder,
                                                     bt.currentFrame.value.frame.returnAddress, alternate, demangler)))
  {
    HeadLines(bt, p, l, autoOrder, manualOrder, alternate, demangler)
    + SlotRows(p, l, autoOrder, manualOrder, alternate, demangler, bt.backtrace, FirstSlotRow(bt))
  }

  /** The head lines of `Display for Backtrace`. */
  method RenderHead(bt: Backtrace, p: Rtld.Process, l: Rtld.Loader, ghost autoOrder: seq<Addr>, ghost manualOrder: seq<Addr>,
                    alternate: bool, demangler: seq<Rtld.Byte> -> seq<Rtld.Byte>)
    returns (lines: seq<Line>, current: nat)
    requires Rtld.LoaderHolds(l, autoOrder, manualOrder) && AllTablesWellFormed(l.heap)
    ensures lines == HeadLines(bt, p, l, autoOrder, manualOrder, alternate, demangler)
    ensures current == FirstSlotRow(bt)
  {
    var lr := FormattedAddr(p, l, autoOrder, manualOrder, bt.currentLr, alternate, demangler);
    lines := [CurrentLr(lr)];
    current := 0;
    if bt.currentFrame.Some? {
      var at := FormattedAddr(p, l, autoOrder, manualOrder, bt.currentFrame.value.frame.returnAddress, alternate, demangler);
      lines := lines + [Row(current, Frame(at))];
      current := current + 1;
    }
  }

  /** `Display for Backtrace`. */
  method Render(bt: Backtrace, p: Rtld.Process, l: Rtld.Loader, ghost autoOrder: seq<Addr>, ghost manualOrder: seq<Addr>,
                alternate: bool, demangler: seq<Rtld.Byte> -> seq<Rtld.Byte>)
    returns (lines: seq<Line>)
    requires Rtld.LoaderHolds(l, autoOrder, manualOrder) && AllTablesWellFormed(l.heap)
    ensures lines == RenderSpec(bt, p, l, autoOrder, manualOrder, alternate, demangler)
  {
    var head, current := RenderHead(bt, p, l, autoOrder, manualOrder, alternate, demangler);
    var rows := RenderSlots(p, l, autoOrder, manualOrder, alternate, demangler, bt.backtrace, current);
    lines := head + rows;
  }

  /** The slot rows: the loop over `backtrace`, which stops at the first empty slot. */
  method RenderSlots(p: Rtld.Process, l: Rtld.Loader, ghost autoOrder: seq<Addr>, ghost manualOrder: seq<Addr>,
                     alternate: bool, demangler: seq<Rtld.Byte> -> seq<Rtld.Byte>, slots: seq<Slot>, from: nat)
    returns (rows: seq<Line>)
    requires Rtld.LoaderHolds(l, autoOrder, manualOrder) && AllTablesWellFormed(l.heap)
    ensures rows == SlotRows(p, l, autoOrder, manualOrder, alternate, demangler, slots, from)
  {
    rows := [];
    var current := from;
    var i := 0;
    assert slots[0..] == slots;
    while i < |slots|
      invariant 0 <= i <= |slots|
      invariant SlotRows(p, l, autoOrder, manualOrder, alternate, demangler, slots, from)
        == rows + SlotRows(p, l, autoOrder, manualOrder, alternate, demangler, slots[i..], current)
    {
      if slots[i].None? {
        break;
      }
      var content := RenderSlot(p, l, autoOrder, manualOrder, alternate, demangler, slots[i].value);
      assert slots[i..][1..] == slots[i + 1..];
      rows := rows + [Row(current, content)];
      current := current + 1;
      i := i + 1;
    }
  }

  /** The rows of the filled slots are one per slot before the first empty one,
      numbered on from `from`, each showing its slot. */
  lemma {:induction false} SlotRowsShape(p: Rtld.Process, l: Rtld.Loader, autoOrder: seq<Addr>, manualOrder: seq<Addr>,
                                         alternate: bool, demangler: seq<Rtld.Byte> -> seq<Rtld.Byte>,
                                         slots: seq<Slot>, from: nat)
    requires AllTablesWellFormed(l.heap)
    ensures var rows := SlotRows(p, l, autoOrder, manualOrder, alternate, demangler, slots, from);
      |rows| == FilledPrefix(slots)
      && forall k :: 0 <= k < |rows| ==>
           rows[k] == Row(from + k, SlotContent(p, l, autoOrder, manualOrder, alternate, demangler, slots[k].value))
    decreases |slots|
  {
    if |slots| > 0 && slots[0].Some? {
      SlotRowsShape(p, l, autoOrder, manualOrder, alternate, demangler, slots[1..], from + 1);
    }
  }

  /** What `Display` writes: the link register line, the current frame as row 0 when
      there is one, then one row per filled slot before the first empty one, rows
      numbered consecutively. */
  lemma RenderShape(bt: Backtrace, p: Rtld.Process, l: Rtld.Loader, autoOrder: seq<Addr>, manualOrder: seq<Addr>,
                    alternate: bool, demangler: seq<Rtld.Byte> -> seq<Rtld.Byte>)
    requires AllTablesWellFormed(l.heap)
    ensures var lines := RenderSpec(bt, p, l, autoOrder, manualOrder, alternate, demangler);
      var first := if bt.currentFrame.Some? then 1 else 0;
      |lines| == 1 + first + FilledPrefix(bt.backtrace)
      && lines[0] == CurrentLr(FormatSpec(p, l, autoOrder, manualOrder, bt.currentLr, alternate, demangler))
      && (forall k :: 1 <= k < |lines| ==> lines[k].Row? && lines[k].number == k - 1)
      && (bt.currentFrame.Some? ==>
            lines[1].content == Frame(FormatSpec(p, l, autoOrder, manualOrder,
                                                 bt.currentFrame.value.frame.returnAddress, alternate, demangler)))
      && (forall j :: 0 <= j < FilledPrefix(bt.backtrace) ==>
            lines[1 + first + j].content
            == SlotContent(p, l, autoOrder, manualOrder, alternate, demangler, bt.backtrace[j].value))
  {
    var first := FirstSlotRow(bt);
    SlotRowsShape(p, l, autoOrder, manualOrder, alternate, demangler, bt.backtrace, first);
    var rows := SlotRows(p, l, autoOrder, manualOrder, alternate, demangler, bt.backtrace, first);
    var lines := RenderSpec(bt, p, l, autoOrder, manualOrder, alternate, demangler);
    assert forall j :: 0 <= j < |rows| ==> lines[1 + first + j] == rows[j];
  }
}
