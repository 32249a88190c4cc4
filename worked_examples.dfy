/**
 * Worked inputs for the optimiser: each lemma pins down the slots the pass
 * emits for one short program, written with the characters the parser reads.
 */
module OptimizerExamples {
  import opened Instructions
  import opened Optimizer

  /** `+-+`: the SubVal is dropped and does not end the run, so the two AddVal merge. */
  lemma SubtractionDoesNotEndRun(ins: seq<Instruction>)
    requires ins == [ParseToken('+'), ParseToken('-'), ParseToken('+')]
    ensures Emitted(ins) == [Blank, Instruction(2, AddVal)]
  {
    var c1 := Cursor(1, [Blank, Instruction(1, AddVal)]);
    assert Step(ins, Cursor(0, [Blank])) == c1;
    var c2 := Cursor(2, [Blank, Instruction(1, AddVal)]);
    assert Step(ins, c1) == c2;
    var c3 := Cursor(3, [Blank, Instruction(2, AddVal)]);
    assert Step(ins, c2) == c3;
    assert Pass(ins, c2) == Pass(ins, c3) == c3.written;
    assert Pass(ins, c1) == Pass(ins, c2);
    assert Emitted(ins) == Pass(ins, c1);
  }

  /** `[>]` becomes one MovePointerToZeroValue carrying the AddPtr's 1. */
  lemma RightScanLoopRewritten(ins: seq<Instruction>)
    requires ins == [ParseToken('['), ParseToken('>'), ParseToken(']')]
    ensures Emitted(ins) == [Blank, Instruction(1, MovePointerToZeroValue)]
  {
    assert ins == [Instruction(0, BeginLoop), Instruction(1, AddPtr), Instruction(0, EndLoop)];
    var c1 := Cursor(3, [Blank, Instruction(1, MovePointerToZeroValue)]);
    assert Step(ins, Cursor(0, [Blank])) == c1;
    assert Emitted(ins) == Pass(ins, c1) == c1.written;
  }

  /** `[<]` is not rewritten: the BeginLoop and the EndLoop are kept and the SubPtr between them is dropped. */
  lemma LeftScanLoopKept(ins: seq<Instruction>)
    requires ins == [ParseToken('['), ParseToken('<'), ParseToken(']')]
    ensures Emitted(ins) == [Blank, Instruction(0, BeginLoop), Instruction(0, EndLoop)]
  {
    var c1 := Cursor(1, [Blank, Instruction(0, BeginLoop)]);
    assert Step(ins, Cursor(0, [Blank])) == c1;
    var c2 := c1.(read := 2);
    assert Step(ins, c1) == c2;
    var c3 := Cursor(3, [Blank, Instruction(0, BeginLoop), Instruction(0, EndLoop)]);
    assert Step(ins, c2) == c3;
    assert Pass(ins, c2) == Pass(ins, c3) == c3.written;
    assert Pass(ins, c1) == Pass(ins, c2);
    assert Emitted(ins) == Pass(ins, c1);
  }

  /** `>>.` accumulates into slot 0 before the Print takes slot 1. */
  lemma LeadingPointerRunInPlaceholder(ins: seq<Instruction>)
    requires ins == [ParseToken('>'), ParseToken('>'), ParseToken('.')]
    ensures Emitted(ins) == [Instruction(2, AddPtr), Instruction(0, Print)]
  {
    var c1 := Cursor(1, [Instruction(1, AddPtr)]);
    assert Step(ins, Cursor(0, [Blank])) == c1;
    var c2 := Cursor(2, [Instruction(2, AddPtr)]);
    assert Step(ins, c1) == c2;
    var c3 := Cursor(3, [Instruction(2, AddPtr), Instruction(0, Print)]);
    assert Step(ins, c2) == c3;
    assert Pass(ins, c2) == Pass(ins, c3) == c3.written;
    assert Pass(ins, c1) == Pass(ins, c2);
    assert Emitted(ins) == Pass(ins, c1);
  }

  /** Merged data wraps around as a `uint8_t`: 200 + 100 is 44. */
  lemma MergeWrapsAround(ins: seq<Instruction>)
    requires ins == [Instruction(200, AddVal), Instruction(100, AddVal)]
    ensures Emitted(ins) == [Blank, Instruction(44, AddVal)]
  {
    var c1 := Cursor(1, [Blank, Instruction(200, AddVal)]);
    assert Step(ins, Cursor(0, [Blank])) == c1;
    var c2 := Cursor(2, [Blank, Instruction(44, AddVal)]);
    assert Step(ins, c1) == c2;
    assert Pass(ins, c1) == Pass(ins, c2) == c2.written;
    assert Emitted(ins) == Pass(ins, c1);
  }

  /**
   * `+.` needs slots 0, 1 and 2, but optimize_instructions sizes its output
   * vector to the two input instructions: the Print is written past the end,
   * and the erase after it has no element to remove.
   */
  lemma WritesPastOutputVector(ins: seq<Instruction>)
    requires ins == [ParseToken('+'), ParseToken('.')]
    ensures LookaheadDefined(ins) && |Emitted(ins)| == 3 && |Emitted(ins)| > |ins|
  {
    var c1 := Cursor(1, [Blank, Instruction(1, AddVal)]);
    assert Step(ins, Cursor(0, [Blank])) == c1;
    var c2 := Cursor(2, [Blank, Instruction(1, AddVal), Instruction(0, Print)]);
    assert Step(ins, c1) == c2;
    assert Pass(ins, c1) == Pass(ins, c2) == c2.written;
    assert Emitted(ins) == Pass(ins, c1);
  }

  /**
   * `>>>+` stays inside the output vector: the result keeps one
   * `{0, AddPtr}` slot after the two emitted ones, because only the slot
   * right after the final write position is erased.
   */
  method TrailingPlaceholderKept(ins: seq<Instruction>) returns (optimized: seq<Instruction>)
    requires ins == [ParseToken('>'), ParseToken('>'), ParseToken('>'), ParseToken('+')]
    ensures optimized == [Instruction(3, AddPtr), Instruction(1, AddVal), Blank]
  {
    PointerThenValue(ins);
    optimized := OptimizeInstructions(ins);
    assert Blanks(1) == [Blank];
  }

  /** `>>>+` emits AddPtr(3) into slot 0 and AddVal(1) into slot 1. */
  lemma PointerThenValue(ins: seq<Instruction>)
    requires ins == [ParseToken('>'), ParseToken('>'), ParseToken('>'), ParseToken('+')]
    ensures Emitted(ins) == [Instruction(3, AddPtr), Instruction(1, AddVal)]
  {
    var c1 := Cursor(1, [Instruction(1, AddPtr)]);
    assert Step(ins, Cursor(0, [Blank])) == c1;
    var c2 := Cursor(2, [Instruction(2, AddPtr)]);
    assert Step(ins, c1) == c2;
    var c3 := Cursor(3, [Instruction(3, AddPtr)]);
    assert Step(ins, c2) == c3;
    var c4 := Cursor(4, [Instruction(3, AddPtr), Instruction(1, AddVal)]);
    assert Step(ins, c3) == c4;
    assert Pass(ins, c3) == Pass(ins, c4) == c4.written;
    assert Pass(ins, c2) == Pass(ins, c3);
    assert Pass(ins, c1) == Pass(ins, c2);
    assert Emitted(ins) == Pass(ins, c1);
  }
}
