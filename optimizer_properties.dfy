/**
 * What the pass of optimize_instructions guarantees about the slots it
 * writes: the shape of the output (run coalescing, passthrough, the `[>]`
 * rewrite), and what it conserves from the input (the order of Print and
 * Read, the loop brackets, the pointer and value deltas modulo 256).
 */
module OptimizerProperties {
  import opened Instructions
  import opened Optimizer

  // ----- Aggregates over instruction sequences -----

  /** How many instructions of `s` have kind `kind`. */
  function CountOf(s: seq<Instruction>, kind: InstructionType): nat {
    if s == [] then 0 else CountOf(Front(s), kind) + (if Last(s).kind == kind then 1 else 0)
  }

  /** The data of the instructions of `s` whose kind is in `kinds`, added up as a `uint8_t` (modulo 256). */
  function ByteSum(s: seq<Instruction>, kinds: set<InstructionType>): Byte {
    if s == [] then 0
    else if Last(s).kind in kinds then WrapAdd(ByteSum(Front(s), kinds), Last(s).data)
    else ByteSum(Front(s), kinds)
  }

  /** What the value deltas of the input and of the output are made of. */
  const ValueKinds: set<InstructionType> := {AddVal}

  /** What the pointer delta of the input is made of. */
  const InputPointerKinds: set<InstructionType> := {AddPtr}

  /** What the pointer delta of the output is made of: the rewritten `[>]` loops carry their AddPtr's data. */
  const OutputPointerKinds: set<InstructionType> := {AddPtr, MovePointerToZeroValue}

  predicate IsInputOutput(kind: InstructionType) {
    kind == Print || kind == Read
  }

  /** The kinds of the Print and Read instructions of `s`, in order. */
  function IoKinds(s: seq<Instruction>): seq<InstructionType> {
    if s == [] then [] else IoKinds(Front(s)) + (if IsInputOutput(Last(s).kind) then [Last(s).kind] else [])
  }

  /**
   * The loop brackets an instruction stands for, in order. With `zeroing`
   * set, a MovePointerToZeroValue stands for the `[` and `]` of the `[>]` it
   * replaced; without it, it stands for nothing (the pass drops one it reads).
   */
  function BracketsOf(kind: InstructionType, zeroing: bool): seq<InstructionType> {
    match kind
    case BeginLoop => [BeginLoop]
    case EndLoop => [EndLoop]
    case MovePointerToZeroValue => if zeroing then [BeginLoop, EndLoop] else []
    case _ => []
  }

  /** The bracket sequence of `s`: its loop structure with everything else erased. */
  function Brackets(s: seq<Instruction>, zeroing: bool): seq<InstructionType> {
    if s == [] then [] else Brackets(Front(s), zeroing) + BracketsOf(Last(s).kind, zeroing)
  }

  lemma {:induction false} ByteSumAppend(a: seq<Instruction>, b: seq<Instruction>, kinds: set<InstructionType>)
    ensures ByteSum(a + b, kinds) == WrapAdd(ByteSum(a, kinds), ByteSum(b, kinds))
    decreases |b|
  {
    if b == [] {
      assert a + b == a;
      assert WrapAdd(ByteSum(a, kinds), 0) == ByteSum(a, kinds);
    } else {
      assert Front(a + b) == a + Front(b);
      assert Last(a + b) == Last(b);
      ByteSumAppend(a, Front(b), kinds);
      if Last(b).kind in kinds {
        WrapAddAssociative(ByteSum(a, kinds), ByteSum(Front(b), kinds), Last(b).data);
      }
    }
  }

  lemma WrapAddZero(a: Byte)
    ensures WrapAdd(0, a) == a && WrapAdd(a, 0) == a
  {
  }

  lemma WrapAddAssociative(a: Byte, b: Byte, c: Byte)
    ensures WrapAdd(WrapAdd(a, b), c) == WrapAdd(a, WrapAdd(b, c))
  {
  }

  // ----- The invariant the pass keeps -----

  /**
   * The shape of the written slots: slot 0 is an AddPtr; no SubPtr or SubVal
   * is ever written; every slot other than an AddPtr, AddVal or
   * MovePointerToZeroValue has data 0; and no arithmetic slot follows a slot
   * of its own kind, so every run was coalesced as far as it goes.
   */
  predicate Coalesced(out: seq<Instruction>) {
    |out| >= 1 && out[0].kind == AddPtr &&
    (forall k :: 0 <= k < |out| ==> out[k].kind != SubPtr && out[k].kind != SubVal) &&
    (forall k :: 0 <= k < |out| && !IsArithmetic(out[k].kind) && out[k].kind != MovePointerToZeroValue ==> out[k].data == 0) &&
    (forall k :: 0 < k < |out| && IsArithmetic(out[k].kind) ==> out[k - 1].kind != out[k].kind)
  }

  /** The Print/Read sequence of the slots written equals that of the instructions read. */
  predicate KeepsInputOutput(ins: seq<Instruction>, c: Cursor)
    requires c.read <= |ins|
  {
    IoKinds(c.written) == IoKinds(ins[..c.read])
  }

  /**
   * Every BeginLoop read became a BeginLoop or a MovePointerToZeroValue slot,
   * and every EndLoop read an EndLoop slot or the end of a
   * MovePointerToZeroValue.
   */
  predicate KeepsLoops(ins: seq<Instruction>, c: Cursor)
    requires c.read <= |ins|
  {
    LoopsMatch(ins[..c.read], c.written)
  }

  /** The bracket sequence of the slots written equals that of the instructions read. */
  predicate KeepsBrackets(ins: seq<Instruction>, c: Cursor)
    requires c.read <= |ins|
  {
    BracketsMatch(ins[..c.read], c.written)
  }

  predicate BracketsMatch(done: seq<Instruction>, out: seq<Instruction>) {
    Brackets(out, true) == Brackets(done, false)
  }

  predicate LoopsMatch(done: seq<Instruction>, out: seq<Instruction>) {
    CountOf(out, BeginLoop) + CountOf(out, MovePointerToZeroValue) == CountOf(done, BeginLoop) &&
    CountOf(out, EndLoop) + CountOf(out, MovePointerToZeroValue) == CountOf(done, EndLoop)
  }

  /**
   * The value delta of the slots written equals, as a `uint8_t`, that of the
   * instructions read, and so does the pointer delta, which the slots split
   * between AddPtr and MovePointerToZeroValue.
   */
  predicate KeepsDeltas(ins: seq<Instruction>, c: Cursor)
    requires c.read <= |ins|
  {
    var done, out := ins[..c.read], c.written;
    ByteSum(out, ValueKinds) == ByteSum(done, ValueKinds) &&
    ByteSum(out, OutputPointerKinds) == ByteSum(done, InputPointerKinds)
  }

  predicate Conserved(ins: seq<Instruction>, c: Cursor)
    requires c.read <= |ins|
  {
    KeepsInputOutput(ins, c) && KeepsLoops(ins, c) && KeepsBrackets(ins, c) && KeepsDeltas(ins, c)
  }

  /** The aggregates of a sequence extended by one instruction. */
  lemma Snoc(s: seq<Instruction>, x: Instruction, kind: InstructionType)
    ensures CountOf(s + [x], kind) == CountOf(s, kind) + (if x.kind == kind then 1 else 0)
    ensures IoKinds(s + [x]) == IoKinds(s) + (if IsInputOutput(x.kind) then [x.kind] else [])
  {
    assert Front(s + [x]) == s && Last(s + [x]) == x;
  }

  lemma SnocSum(s: seq<Instruction>, x: Instruction, kinds: set<InstructionType>)
    ensures ByteSum(s + [x], kinds) == if x.kind in kinds then WrapAdd(ByteSum(s, kinds), x.data) else ByteSum(s, kinds)
  {
    assert Front(s + [x]) == s && Last(s + [x]) == x;
  }

  /** The aggregates of a non-empty sequence, split at its last instruction. */
  lemma SnocLast(s: seq<Instruction>, kind: InstructionType)
    requires s != []
    ensures s == Front(s) + [Last(s)]
    ensures CountOf(s, kind) == CountOf(Front(s), kind) + (if Last(s).kind == kind then 1 else 0)
  {
  }

  /** The slots after one step, in terms of the slots before it. */
  lemma StepSlots(ins: seq<Instruction>, c: Cursor)
    requires ValidCursor(ins, c) && c.read < |ins|
    ensures var next, out, i := Step(ins, c), c.written, ins[c.read];
      if IsArithmetic(i.kind) && Last(out).kind == i.kind then
        next.read == c.read + 1 &&
        next.written == Front(out) + [Instruction(WrapAdd(Last(out).data, i.data), i.kind)]
      else if IsDropped(i.kind) then
        next.read == c.read + 1 && next.written == out
      else if next.read == c.read + 3 then
        i.kind == BeginLoop && ins[c.read + 1].kind == AddPtr && ins[c.read + 2].kind == EndLoop &&
        next.written == out + [Instruction(ins[c.read + 1].data, MovePointerToZeroValue)]
      else
        next.read == c.read + 1 &&
        next.written == out + [Instruction(if IsArithmetic(i.kind) then i.data else 0, i.kind)]
  {
  }

  lemma StepKeepsShape(ins: seq<Instruction>, c: Cursor)
    requires ValidCursor(ins, c) && c.read < |ins| && Coalesced(c.written)
    ensures Coalesced(Step(ins, c).written)
  {
    StepSlots(ins, c);
  }

  lemma StepKeepsInputOutput(ins: seq<Instruction>, c: Cursor)
    requires ValidCursor(ins, c) && c.read < |ins| && KeepsInputOutput(ins, c)
    ensures KeepsInputOutput(ins, Step(ins, c))
  {
    StepSlots(ins, c);
    var next, r, out, i := Step(ins, c), c.read, c.written, ins[c.read];
    assert ins[..r + 1] == ins[..r] + [i];
    Snoc(ins[..r], i, Print);
    if IsArithmetic(i.kind) && Last(out).kind == i.kind {
      SnocLast(out, Print);
      Snoc(Front(out), Last(out), Print);
      Snoc(Front(out), Last(next.written), Print);
    } else if next.read == r + 3 {
      assert ins[..r + 2] == ins[..r + 1] + [ins[r + 1]];
      assert ins[..r + 3] == ins[..r + 2] + [ins[r + 2]];
      Snoc(ins[..r + 1], ins[r + 1], Print);
      Snoc(ins[..r + 2], ins[r + 2], Print);
      Snoc(out, Last(next.written), Print);
    } else if !IsDropped(i.kind) {
      Snoc(out, Last(next.written), Print);
    }
  }

  lemma StepKeepsLoops(ins: seq<Instruction>, c: Cursor)
    requires ValidCursor(ins, c) && c.read < |ins| && KeepsLoops(ins, c)
    ensures KeepsLoops(ins, Step(ins, c))
  {
    StepSlots(ins, c);
    var next, r, out, i := Step(ins, c), c.read, c.written, ins[c.read];
    var done := ins[..r];
    assert ins[..r + 1] == done + [i];
    if IsArithmetic(i.kind) && Last(out).kind == i.kind {
      MergeKeepsLoops(done, out, i, Last(next.written));
    } else if next.read == r + 3 {
      assert ins[..r + 3] == done + [i] + [ins[r + 1]] + [ins[r + 2]];
      ZeroingKeepsLoops(done, out, i, ins[r + 1], ins[r + 2], Last(next.written));
    } else if IsDropped(i.kind) {
      SnocLoops(done, i);
    } else {
      SnocLoops(done, i);
      SnocLoops(out, Last(next.written));
    }
  }

  /** Adding an arithmetic instruction to an arithmetic slot changes no loop count. */
  lemma MergeKeepsLoops(done: seq<Instruction>, out: seq<Instruction>, i: Instruction, x: Instruction)
    requires out != [] && IsArithmetic(Last(out).kind) && IsArithmetic(i.kind) && IsArithmetic(x.kind)
    requires LoopsMatch(done, out)
    ensures LoopsMatch(done + [i], Front(out) + [x])
  {
    assert out == Front(out) + [Last(out)];
    SnocLoops(done, i);
    SnocLoops(Front(out), Last(out));
    SnocLoops(Front(out), x);
  }

  /** `[`, AddPtr, `]` read and one MovePointerToZeroValue written keep both loop counts matched. */
  lemma ZeroingKeepsLoops(done: seq<Instruction>, out: seq<Instruction>, a: Instruction, b: Instruction, e: Instruction, x: Instruction)
    requires a.kind == BeginLoop && b.kind == AddPtr && e.kind == EndLoop && x.kind == MovePointerToZeroValue
    requires LoopsMatch(done, out)
    ensures LoopsMatch(done + [a] + [b] + [e], out + [x])
  {
    SnocLoops(done, a);
    SnocLoops(done + [a], b);
    SnocLoops(done + [a] + [b], e);
    SnocLoops(out, x);
  }

  /** The loop counts of a sequence extended by one instruction. */
  lemma SnocLoops(s: seq<Instruction>, x: Instruction)
    ensures CountOf(s + [x], BeginLoop) == CountOf(s, BeginLoop) + (if x.kind == BeginLoop then 1 else 0)
    ensures CountOf(s + [x], EndLoop) == CountOf(s, EndLoop) + (if x.kind == EndLoop then 1 else 0)
    ensures CountOf(s + [x], MovePointerToZeroValue) == CountOf(s, MovePointerToZeroValue) + (if x.kind == MovePointerToZeroValue then 1 else 0)
  {
    assert Front(s + [x]) == s && Last(s + [x]) == x;
  }

  lemma StepKeepsBrackets(ins: seq<Instruction>, c: Cursor)
    requires ValidCursor(ins, c) && c.read < |ins| && KeepsBrackets(ins, c)
    ensures KeepsBrackets(ins, Step(ins, c))
  {
    StepSlots(ins, c);
    var next, r, out, i := Step(ins, c), c.read, c.written, ins[c.read];
    var done := ins[..r];
    assert ins[..r + 1] == done + [i];
    if IsArithmetic(i.kind) && Last(out).kind == i.kind {
      MergeKeepsBrackets(done, out, i, Last(next.written));
    } else if next.read == r + 3 {
      assert ins[..r + 3] == done + [i] + [ins[r + 1]] + [ins[r + 2]];
      ZeroingKeepsBrackets(done, out, i, ins[r + 1], ins[r + 2], Last(next.written));
    } else if IsDropped(i.kind) {
      SnocBrackets(done, i, false);
    } else {
      AppendKeepsBrackets(done, out, i, Last(next.written));
    }
  }

  /** Adding an arithmetic instruction to an arithmetic slot changes no bracket sequence. */
  lemma MergeKeepsBrackets(done: seq<Instruction>, out: seq<Instruction>, i: Instruction, x: Instruction)
    requires out != [] && IsArithmetic(Last(out).kind) && IsArithmetic(i.kind) && IsArithmetic(x.kind)
    requires BracketsMatch(done, out)
    ensures BracketsMatch(done + [i], Front(out) + [x])
  {
    assert out == Front(out) + [Last(out)];
    SnocBrackets(done, i, false);
    SnocBrackets(Front(out), Last(out), true);
    SnocBrackets(Front(out), x, true);
  }

  /** `[`, AddPtr, `]` read and one MovePointerToZeroValue written add the same `[` `]`. */
  lemma ZeroingKeepsBrackets(done: seq<Instruction>, out: seq<Instruction>, a: Instruction, b: Instruction, e: Instruction, x: Instruction)
    requires a.kind == BeginLoop && b.kind == AddPtr && e.kind == EndLoop && x.kind == MovePointerToZeroValue
    requires BracketsMatch(done, out)
    ensures BracketsMatch(done + [a] + [b] + [e], out + [x])
  {
    SnocBrackets(done, a, false);
    SnocBrackets(done + [a], b, false);
    SnocBrackets(done + [a] + [b], e, false);
    SnocBrackets(out, x, true);
  }

  /** A slot of the kind read, other than MovePointerToZeroValue, adds the brackets the instruction read adds. */
  lemma AppendKeepsBrackets(done: seq<Instruction>, out: seq<Instruction>, i: Instruction, x: Instruction)
    requires x.kind == i.kind && i.kind != MovePointerToZeroValue
    requires BracketsMatch(done, out)
    ensures BracketsMatch(done + [i], out + [x])
  {
    SnocBrackets(done, i, false);
    SnocBrackets(out, x, true);
  }

  /** The bracket sequence of a sequence extended by one instruction. */
  lemma SnocBrackets(s: seq<Instruction>, x: Instruction, zeroing: bool)
    ensures Brackets(s + [x], zeroing) == Brackets(s, zeroing) + BracketsOf(x.kind, zeroing)
  {
    assert Front(s + [x]) == s && Last(s + [x]) == x;
  }

  lemma StepKeepsDeltas(ins: seq<Instruction>, c: Cursor)
    requires ValidCursor(ins, c) && c.read < |ins| && KeepsDeltas(ins, c)
    ensures KeepsDeltas(ins, Step(ins, c))
  {
    StepSlots(ins, c);
    var next, r, out, i := Step(ins, c), c.read, c.written, ins[c.read];
    assert ins[..r + 1] == ins[..r] + [i];
    if IsArithmetic(i.kind) && Last(out).kind == i.kind {
      MergeKeepsSums(out, ins[..r], i, ValueKinds, ValueKinds);
      MergeKeepsSums(out, ins[..r], i, OutputPointerKinds, InputPointerKinds);
    } else if next.read == r + 3 {
      assert ins[..r + 2] == ins[..r + 1] + [ins[r + 1]];
      assert ins[..r + 3] == ins[..r + 2] + [ins[r + 2]];
      var x := Last(next.written);
      forall kinds | kinds in {ValueKinds, InputPointerKinds}
        ensures ByteSum(ins[..r + 3], kinds) == if AddPtr in kinds then WrapAdd(ByteSum(ins[..r], kinds), x.data) else ByteSum(ins[..r], kinds)
      {
        SnocSum(ins[..r], ins[r], kinds);
        SnocSum(ins[..r + 1], ins[r + 1], kinds);
        SnocSum(ins[..r + 2], ins[r + 2], kinds);
      }
      SnocSum(out, x, ValueKinds);
      SnocSum(out, x, OutputPointerKinds);
    } else if IsDropped(i.kind) {
      SnocSum(ins[..r], i, ValueKinds);
      SnocSum(ins[..r], i, InputPointerKinds);
    } else {
      AppendKeepsSums(out, ins[..r], i, Last(next.written), ValueKinds, ValueKinds);
      AppendKeepsSums(out, ins[..r], i, Last(next.written), OutputPointerKinds, InputPointerKinds);
    }
  }

  /** Adding an instruction's data to the last slot keeps the two sums equal. */
  lemma MergeKeepsSums(out: seq<Instruction>, done: seq<Instruction>, i: Instruction, outKinds: set<InstructionType>, inKinds: set<InstructionType>)
    requires out != [] && Last(out).kind == i.kind
    requires i.kind in outKinds <==> i.kind in inKinds
    requires ByteSum(out, outKinds) == ByteSum(done, inKinds)
    ensures ByteSum(Front(out) + [Instruction(WrapAdd(Last(out).data, i.data), i.kind)], outKinds) == ByteSum(done + [i], inKinds)
  {
    var x := Instruction(WrapAdd(Last(out).data, i.data), i.kind);
    SnocSum(done, i, inKinds);
    SnocSum(Front(out), x, outKinds);
    SnocSum(Front(out), Last(out), outKinds);
    assert Front(out) + [Last(out)] == out;
    if i.kind in outKinds {
      WrapAddAssociative(ByteSum(Front(out), outKinds), Last(out).data, i.data);
    }
  }

  /** Appending a slot that carries what the instruction read contributes keeps the two sums equal. */
  lemma AppendKeepsSums(out: seq<Instruction>, done: seq<Instruction>, i: Instruction, x: Instruction,
                        outKinds: set<InstructionType>, inKinds: set<InstructionType>)
    requires ByteSum(out, outKinds) == ByteSum(done, inKinds)
    requires (x.kind in outKinds || i.kind in inKinds) ==> x.kind in outKinds && i.kind in inKinds && x.data == i.data
    ensures ByteSum(out + [x], outKinds) == ByteSum(done + [i], inKinds)
  {
    SnocSum(done, i, inKinds);
    SnocSum(out, x, outKinds);
  }

  /** One step of the pass keeps the shape and the conserved quantities. */
  lemma StepKeepsInvariant(ins: seq<Instruction>, c: Cursor)
    requires ValidCursor(ins, c) && c.read < |ins|
    requires Coalesced(c.written) && Conserved(ins, c)
    ensures Coalesced(Step(ins, c).written) && Conserved(ins, Step(ins, c))
  {
    StepKeepsShape(ins, c);
    StepKeepsInputOutput(ins, c);
    StepKeepsLoops(ins, c);
    StepKeepsBrackets(ins, c);
    StepKeepsDeltas(ins, c);
  }

  /** The rest of the pass keeps the shape and the conserved quantities. */
  lemma {:induction false} PassKeepsInvariant(ins: seq<Instruction>, c: Cursor)
    requires ValidCursor(ins, c)
    requires Coalesced(c.written) && Conserved(ins, c)
    ensures Coalesced(Pass(ins, c)) && Conserved(ins, Cursor(|ins|, Pass(ins, c)))
    decreases |ins| - c.read
  {
    if c.read < |ins| {
      StepKeepsInvariant(ins, c);
      PassKeepsInvariant(ins, Step(ins, c));
    }
  }

  lemma EmittedInvariant(ins: seq<Instruction>)
    requires LookaheadDefined(ins)
    ensures Coalesced(Emitted(ins)) && Conserved(ins, Cursor(|ins|, Emitted(ins)))
    ensures ins[..|ins|] == ins
  {
    assert ins[..0] == [];
    PassKeepsInvariant(ins, Cursor(0, [Blank]));
  }

  // ----- The whole output -----

  /**
   * The emitted slots are coalesced: slot 0 is an AddPtr, SubPtr and SubVal
   * never appear, Print, Read, EndLoop and BeginLoop carry data 0, and no two
   * neighbouring slots are arithmetic instructions of the same kind.
   */
  lemma EmittedIsCoalesced(ins: seq<Instruction>)
    requires LookaheadDefined(ins)
    ensures Coalesced(Emitted(ins))
  {
    EmittedInvariant(ins);
  }

  /** Print and Read are neither dropped, duplicated nor reordered. */
  lemma EmittedKeepsInputOutputOrder(ins: seq<Instruction>)
    requires LookaheadDefined(ins)
    ensures IoKinds(Emitted(ins)) == IoKinds(ins)
  {
    EmittedInvariant(ins);
  }

  /**
   * Each BeginLoop of the input becomes a BeginLoop or a
   * MovePointerToZeroValue, and each EndLoop an EndLoop or the end of a
   * MovePointerToZeroValue; so the net bracket count is unchanged. More:
   * the bracket sequence is unchanged, each MovePointerToZeroValue standing
   * for the `[` `]` it replaced, so the loop nesting is kept.
   */
  lemma EmittedKeepsLoops(ins: seq<Instruction>)
    requires LookaheadDefined(ins)
    ensures CountOf(Emitted(ins), BeginLoop) + CountOf(Emitted(ins), MovePointerToZeroValue) == CountOf(ins, BeginLoop)
    ensures CountOf(Emitted(ins), EndLoop) + CountOf(Emitted(ins), MovePointerToZeroValue) == CountOf(ins, EndLoop)
    ensures CountOf(Emitted(ins), BeginLoop) - CountOf(Emitted(ins), EndLoop) == CountOf(ins, BeginLoop) - CountOf(ins, EndLoop)
    ensures Brackets(Emitted(ins), true) == Brackets(ins, false)
  {
    EmittedInvariant(ins);
  }

  /**
   * Coalescing adds with `uint8_t` wrap-around: the AddVal data of the output
   * add up, modulo 256, to those of the input, and the AddPtr data of the
   * input reappear, modulo 256, in the output's AddPtr and
   * MovePointerToZeroValue slots. SubPtr and SubVal contribute nothing.
   */
  lemma EmittedKeepsDeltas(ins: seq<Instruction>)
    requires LookaheadDefined(ins)
    ensures ByteSum(Emitted(ins), ValueKinds) == ByteSum(ins, ValueKinds)
    ensures ByteSum(Emitted(ins), OutputPointerKinds) == ByteSum(ins, InputPointerKinds)
  {
    EmittedInvariant(ins);
    var out := Emitted(ins);
    assert KeepsDeltas(ins, Cursor(|ins|, out));
  }

  // ----- Runs -----

  /** The instructions a run of kind `kind` absorbs: its own kind, and the dropped kinds, which do not end it. */
  predicate InRun(i: Instruction, kind: InstructionType) {
    i.kind == kind || IsDropped(i.kind)
  }

  /**
   * While the slot under the write iterator has arithmetic kind `kind` and
   * holds `data`, reading instructions of that kind or of a dropped kind only
   * adds their data to it, as a `uint8_t`.
   */
  lemma {:induction false} RunMerges(ins: seq<Instruction>, read: nat, front: seq<Instruction>, data: Byte, j: nat, kind: InstructionType)
    requires LookaheadDefined(ins) && IsArithmetic(kind)
    requires read <= j <= |ins|
    requires forall k :: read <= k < j ==> InRun(ins[k], kind)
    ensures Pass(ins, Cursor(read, front + [Instruction(data, kind)])) ==
      Pass(ins, Cursor(j, front + [Instruction(WrapAdd(data, ByteSum(ins[read..j], {kind})), kind)]))
    decreases j
  {
    if j == read {
      EmptyRunSum(ins, read, data, kind);
    } else {
      RunMerges(ins, read, front, data, j - 1, kind);
      RunExtends(ins, read, front, data, j, kind);
    }
  }

  /** An empty run adds nothing to the slot. */
  lemma EmptyRunSum(ins: seq<Instruction>, read: nat, data: Byte, kind: InstructionType)
    requires read <= |ins|
    ensures WrapAdd(data, ByteSum(ins[read..read], {kind})) == data
  {
    assert ins[read..read] == [];
    WrapAddZero(data);
  }

  /** The inductive step of RunMerges: the run read so far grows by one instruction. */
  lemma RunExtends(ins: seq<Instruction>, read: nat, front: seq<Instruction>, data: Byte, j: nat, kind: InstructionType)
    requires LookaheadDefined(ins) && IsArithmetic(kind)
    requires read < j <= |ins| && InRun(ins[j - 1], kind)
    ensures Pass(ins, Cursor(j - 1, front + [Instruction(WrapAdd(data, ByteSum(ins[read..j - 1], {kind})), kind)])) ==
      Pass(ins, Cursor(j, front + [Instruction(WrapAdd(data, ByteSum(ins[read..j], {kind})), kind)]))
  {
    RunStep(ins, front, WrapAdd(data, ByteSum(ins[read..j - 1], {kind})), j, kind);
    RunSumSnoc(ins, read, j, data, kind);
  }

  /** Extending a run by one instruction adds its data when it has the run's kind. */
  lemma RunSumSnoc(ins: seq<Instruction>, read: nat, j: nat, data: Byte, kind: InstructionType)
    requires read < j <= |ins|
    ensures var m := WrapAdd(data, ByteSum(ins[read..j - 1], {kind}));
      WrapAdd(data, ByteSum(ins[read..j], {kind})) == if ins[j - 1].kind == kind then WrapAdd(m, ins[j - 1].data) else m
  {
    assert ins[read..j] == ins[read..j - 1] + [ins[j - 1]];
    SnocSum(ins[read..j - 1], ins[j - 1], {kind});
    if ins[j - 1].kind == kind {
      WrapAddAssociative(data, ByteSum(ins[read..j - 1], {kind}), ins[j - 1].data);
    }
  }

  /** One step inside a run: the instruction read is added to the last slot, or dropped. */
  lemma RunStep(ins: seq<Instruction>, front: seq<Instruction>, data: Byte, j: nat, kind: InstructionType)
    requires LookaheadDefined(ins) && 0 < j <= |ins| && IsArithmetic(kind) && InRun(ins[j - 1], kind)
    ensures Pass(ins, Cursor(j - 1, front + [Instruction(data, kind)])) ==
      Pass(ins, Cursor(j, front + [Instruction(if ins[j - 1].kind == kind then WrapAdd(data, ins[j - 1].data) else data, kind)]))
  {
    RunStepSlots(ins, front, data, j, kind);
  }

  lemma RunStepSlots(ins: seq<Instruction>, front: seq<Instruction>, data: Byte, j: nat, kind: InstructionType)
    requires LookaheadDefined(ins) && 0 < j <= |ins| && IsArithmetic(kind) && InRun(ins[j - 1], kind)
    ensures Step(ins, Cursor(j - 1, front + [Instruction(data, kind)])) ==
      Cursor(j, front + [Instruction(if ins[j - 1].kind == kind then WrapAdd(data, ins[j - 1].data) else data, kind)])
  {
    var out := front + [Instruction(data, kind)];
    assert Front(out) == front && Last(out) == Instruction(data, kind);
  }

  // ----- Slots left behind -----

  /**
   * One iteration never touches a slot the write iterator has left: it
   * either keeps every slot and changes only the last one, and then only an
   * AddPtr or AddVal slot, or keeps every slot and appends one.
   */
  lemma StepKeepsEarlierSlots(ins: seq<Instruction>, c: Cursor)
    requires ValidCursor(ins, c) && c.read < |ins|
    ensures var next := Step(ins, c);
      next.written[..|c.written| - 1] == Front(c.written) &&
      (|next.written| > |c.written| ==> next.written[..|c.written|] == c.written) &&
      (|next.written| == |c.written| && !IsArithmetic(Last(c.written).kind) ==> next.written == c.written)
  {
    StepSlots(ins, c);
    var next, out := Step(ins, c), c.written;
    if |next.written| > |out| {
      assert next.written[..|out|] == out;
      assert next.written[..|out| - 1] == out[..|out| - 1];
    } else if next.written != out {
      assert next.written == Front(out) + [Last(next.written)];
      assert next.written[..|out| - 1] == Front(out);
    }
  }

  /** The rest of the pass never touches a slot the write iterator has already left. */
  lemma {:induction false} PassKeepsEarlierSlots(ins: seq<Instruction>, c: Cursor)
    requires ValidCursor(ins, c)
    ensures Pass(ins, c)[..|c.written| - 1] == Front(c.written)
    decreases |ins| - c.read
  {
    if c.read < |ins| {
      var next := Step(ins, c);
      StepKeepsEarlierSlots(ins, c);
      PassKeepsEarlierSlots(ins, next);
      var n := |c.written| - 1;
      assert Pass(ins, c)[..n] == Pass(ins, next)[..|next.written| - 1][..n];
    }
  }

  /**
   * Once the slot under the write iterator is not arithmetic, it and every
   * slot before it are final.
   */
  lemma {:induction false} NonArithmeticSlotIsFinal(ins: seq<Instruction>, c: Cursor)
    requires ValidCursor(ins, c) && !IsArithmetic(Last(c.written).kind)
    ensures |Pass(ins, c)| >= |c.written| && Pass(ins, c)[..|c.written|] == c.written
    decreases |ins| - c.read
  {
    if c.read < |ins| {
      var next := Step(ins, c);
      StepKeepsEarlierSlots(ins, c);
      if |next.written| == |c.written| {
        NonArithmeticSlotIsFinal(ins, next);
      } else {
        NextSlotOpened(ins, c);
      }
    }
  }

  /** When one iteration appends a slot, every slot written before it is final. */
  lemma NextSlotOpened(ins: seq<Instruction>, c: Cursor)
    requires ValidCursor(ins, c) && c.read < |ins|
    requires |Step(ins, c).written| > |c.written|
    ensures |Pass(ins, c)| > |c.written| && Pass(ins, c)[..|c.written|] == c.written
  {
    var next := Step(ins, c);
    StepKeepsEarlierSlots(ins, c);
    PassKeepsEarlierSlots(ins, next);
    assert |next.written| - 1 == |c.written|;
    assert Pass(ins, c)[..|c.written|] == Front(next.written) == next.written[..|c.written|];
  }

  /**
   * If the instruction under the read iterator opens a new slot, every slot
   * written so far is final.
   */
  lemma SlotsFinalWhenNextOpens(ins: seq<Instruction>, c: Cursor)
    requires ValidCursor(ins, c) && c.read < |ins|
    requires !IsDropped(ins[c.read].kind)
    requires IsArithmetic(ins[c.read].kind) ==> Last(c.written).kind != ins[c.read].kind
    ensures |Pass(ins, c)| > |c.written| && Pass(ins, c)[..|c.written|] == c.written
  {
    StepSlots(ins, c);
    NextSlotOpened(ins, c);
  }

  /**
   * A maximal run of one arithmetic kind, interleaved with dropped
   * instructions, that starts where the write iterator holds another kind
   * becomes exactly one new slot of that kind holding the run's `uint8_t`
   * sum; the slots before it are untouched.
   */
  lemma RunBecomesOneSlot(ins: seq<Instruction>, c: Cursor, j: nat, kind: InstructionType)
    requires ValidCursor(ins, c) && IsArithmetic(kind)
    requires c.read < j <= |ins| && ins[c.read].kind == kind && Last(c.written).kind != kind
    requires forall k :: c.read <= k < j ==> InRun(ins[k], kind)
    requires j == |ins| || !InRun(ins[j], kind)
    ensures |Pass(ins, c)| > |c.written|
    ensures Pass(ins, c)[..|c.written| + 1] == c.written + [Instruction(ByteSum(ins[c.read..j], {kind}), kind)]
  {
    var r, out := c.read, c.written;
    assert Step(ins, c) == Cursor(r + 1, out + [Instruction(ins[r].data, kind)]);
    RunMerges(ins, r + 1, out, ins[r].data, j, kind);
    RunSumCons(ins, r, j, kind);
    var closed := Cursor(j, out + [Instruction(ByteSum(ins[r..j], {kind}), kind)]);
    assert Pass(ins, c) == Pass(ins, closed);
    if j < |ins| {
      SlotsFinalWhenNextOpens(ins, closed);
    }
  }

  /** A run's sum, split after its first instruction. */
  lemma RunSumCons(ins: seq<Instruction>, r: nat, j: nat, kind: InstructionType)
    requires r < j <= |ins| && ins[r].kind == kind
    ensures ByteSum(ins[r..j], {kind}) == WrapAdd(ins[r].data, ByteSum(ins[r + 1..j], {kind}))
  {
    assert ins[r..j] == [ins[r]] + ins[r + 1..j];
    ByteSumAppend([ins[r]], ins[r + 1..j], {kind});
    SnocSum([], ins[r], {kind});
    assert [] + [ins[r]] == [ins[r]];
  }

  /**
   * Slot 0 of the output is an AddPtr holding the `uint8_t` sum of the
   * input's leading run of AddPtr (SubPtr, SubVal and MovePointerToZeroValue
   * do not end it); with no such run it stays `{0, AddPtr}`.
   */
  lemma LeadingPointerRunInSlotZero(ins: seq<Instruction>, j: nat)
    requires LookaheadDefined(ins) && j <= |ins|
    requires forall k :: 0 <= k < j ==> InRun(ins[k], AddPtr)
    requires j == |ins| || !InRun(ins[j], AddPtr)
    ensures Emitted(ins)[0] == Instruction(ByteSum(ins[..j], {AddPtr}), AddPtr)
  {
    var closed := Cursor(j, [Instruction(ByteSum(ins[..j], {AddPtr}), AddPtr)]);
    LeadingPointerRunMerged(ins, j);
    if j < |ins| {
      SlotsFinalWhenNextOpens(ins, closed);
    }
  }

  /** The leading pointer run is merged into slot 0 before anything is written after it. */
  lemma LeadingPointerRunMerged(ins: seq<Instruction>, j: nat)
    requires LookaheadDefined(ins) && j <= |ins|
    requires forall k :: 0 <= k < j ==> InRun(ins[k], AddPtr)
    ensures Emitted(ins) == Pass(ins, Cursor(j, [Instruction(ByteSum(ins[..j], {AddPtr}), AddPtr)]))
  {
    RunMerges(ins, 0, [], 0, j, AddPtr);
    var sum := ByteSum(ins[..j], {AddPtr});
    assert ins[0..j] == ins[..j];
    WrapAddZero(sum);
    assert Cursor(0, [] + [Instruction(0, AddPtr)]) == Cursor(0, [Blank]);
    assert Cursor(j, [] + [Instruction(WrapAdd(0, sum), AddPtr)]) == Cursor(j, [Instruction(sum, AddPtr)]);
  }

  // ----- The other cases of the switch -----

  /**
   * Print, Read and EndLoop each take a fresh slot of their own kind with
   * data 0, which is final: they end any run.
   */
  lemma PassthroughTakesOwnSlot(ins: seq<Instruction>, c: Cursor)
    requires ValidCursor(ins, c) && c.read < |ins| && IsPassthrough(ins[c.read].kind)
    ensures |Pass(ins, c)| > |c.written|
    ensures Pass(ins, c)[..|c.written| + 1] == c.written + [Instruction(0, ins[c.read].kind)]
    ensures Pass(ins, c) == Pass(ins, Cursor(c.read + 1, c.written + [Instruction(0, ins[c.read].kind)]))
  {
    var next := Cursor(c.read + 1, c.written + [Instruction(0, ins[c.read].kind)]);
    AppendedSlotIsFinal(ins, c, next);
  }

  /**
   * `[`, AddPtr(d), `]` consumes all three instructions and becomes one final
   * MovePointerToZeroValue(d) slot.
   */
  lemma ZeroingLoopRewritten(ins: seq<Instruction>, c: Cursor)
    requires ValidCursor(ins, c) && c.read + 2 < |ins|
    requires ins[c.read].kind == BeginLoop && ins[c.read + 1].kind == AddPtr && ins[c.read + 2].kind == EndLoop
    ensures |Pass(ins, c)| > |c.written|
    ensures Pass(ins, c)[..|c.written| + 1] == c.written + [Instruction(ins[c.read + 1].data, MovePointerToZeroValue)]
    ensures Pass(ins, c) == Pass(ins, Cursor(c.read + 3, c.written + [Instruction(ins[c.read + 1].data, MovePointerToZeroValue)]))
  {
    var next := Cursor(c.read + 3, c.written + [Instruction(ins[c.read + 1].data, MovePointerToZeroValue)]);
    AppendedSlotIsFinal(ins, c, next);
  }

  /**
   * Any other BeginLoop (`[]`, `[<`, `[>>`, ...) becomes a final BeginLoop
   * slot with data 0, and the scan resumes at the very next instruction.
   */
  lemma OtherLoopKept(ins: seq<Instruction>, c: Cursor)
    requires ValidCursor(ins, c) && c.read < |ins| && ins[c.read].kind == BeginLoop
    requires !(c.read + 2 < |ins| && ins[c.read + 1].kind == AddPtr && ins[c.read + 2].kind == EndLoop)
    ensures |Pass(ins, c)| > |c.written|
    ensures Pass(ins, c)[..|c.written| + 1] == c.written + [Instruction(0, BeginLoop)]
    ensures Pass(ins, c) == Pass(ins, Cursor(c.read + 1, c.written + [Instruction(0, BeginLoop)]))
  {
    var next := Cursor(c.read + 1, c.written + [Instruction(0, BeginLoop)]);
    AppendedSlotIsFinal(ins, c, next);
  }

  /** A slot of a kind other than AddPtr and AddVal, once appended, is final along with every slot before it. */
  lemma AppendedSlotIsFinal(ins: seq<Instruction>, c: Cursor, next: Cursor)
    requires ValidCursor(ins, c) && c.read < |ins| && Step(ins, c) == next
    requires |next.written| == |c.written| + 1 && !IsArithmetic(Last(next.written).kind)
    ensures |Pass(ins, c)| > |c.written|
    ensures Pass(ins, c)[..|c.written| + 1] == next.written
    ensures Pass(ins, c) == Pass(ins, next)
  {
    NonArithmeticSlotIsFinal(ins, next);
  }

  /** SubPtr, SubVal and MovePointerToZeroValue are dropped without touching the output. */
  lemma DroppedEmitsNothing(ins: seq<Instruction>, c: Cursor)
    requires ValidCursor(ins, c) && c.read < |ins| && IsDropped(ins[c.read].kind)
    ensures Pass(ins, c) == Pass(ins, Cursor(c.read + 1, c.written))
  {
  }
}
