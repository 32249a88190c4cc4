/**
 * The peephole optimiser `optimize_instructions` (libs/bf/src/bf.cpp).
 *
 * The C++ code makes one left-to-right pass with a read iterator over the
 * input and a write iterator over a pre-sized output vector whose slots all
 * start as `{0, AddPtr}`. The pass is specified here by a step function on a
 * Cursor (the read position and the slots written so far, the last of which
 * is the one the write iterator points at) and the method WritePass performs
 * it in place on an array; its loop invariant ties the array to the
 * specification.
 */
module Optimizer {
  import opened Instructions

  /** The kinds the ARITHMETIC_CASE macro coalesces. */
  predicate IsArithmetic(kind: InstructionType) {
    kind == AddPtr || kind == AddVal
  }

  /** The kinds the PASSTHROUGH_CASE macro copies. */
  predicate IsPassthrough(kind: InstructionType) {
    kind == Print || kind == Read || kind == EndLoop
  }

  /** The kinds that reach `default:` and are dropped. */
  predicate IsDropped(kind: InstructionType) {
    kind == SubPtr || kind == SubVal || kind == MovePointerToZeroValue
  }

  /**
   * The lookahead after a BeginLoop stays inside the input: the input does
   * not end in BeginLoop, nor in BeginLoop followed by AddPtr. That this
   * excludes only inputs whose scan reads past the end is argued here, not
   * proved: a BeginLoop at those positions is never skipped, because the
   * instructions a `[>]` rewrite skips are an AddPtr and an EndLoop.
   */
  predicate LookaheadDefined(ins: seq<Instruction>) {
    (|ins| >= 1 ==> ins[|ins| - 1].kind != BeginLoop) &&
    (|ins| >= 2 ==> !(ins[|ins| - 2].kind == BeginLoop && ins[|ins| - 1].kind == AddPtr))
  }

  /** The state of the pass: the read position and the output slots up to and including the write position. */
  datatype Cursor = Cursor(read: nat, written: seq<Instruction>)

  predicate ValidCursor(ins: seq<Instruction>, c: Cursor) {
    LookaheadDefined(ins) && c.read <= |ins| && c.written != []
  }

  function Last(s: seq<Instruction>): Instruction
    requires s != []
  {
    s[|s| - 1]
  }

  /** All slots but the last: the ones the write iterator has left behind. */
  function Front(s: seq<Instruction>): seq<Instruction>
    requires s != []
  {
    s[..|s| - 1]
  }

  /**
   * One iteration of the `while` loop of optimize_instructions. It consumes
   * one instruction, or three for `[`, AddPtr, `]`, and either updates the
   * slot under the write iterator or opens one new slot; slots left behind
   * are never touched again.
   */
  function Step(ins: seq<Instruction>, c: Cursor): (next: Cursor)
    requires ValidCursor(ins, c) && c.read < |ins|
    ensures ValidCursor(ins, next)
    ensures c.read < next.read
    ensures |c.written| <= |next.written| <= |c.written| + 1
  {
    var r, out := c.read, c.written;
    var i := ins[r];
    if IsArithmetic(i.kind) then
      if Last(out).kind == i.kind then
        Cursor(r + 1, Front(out) + [Instruction(WrapAdd(Last(out).data, i.data), i.kind)])
      else
        Cursor(r + 1, out + [Instruction(i.data, i.kind)])
    else if IsPassthrough(i.kind) then
      Cursor(r + 1, out + [Instruction(0, i.kind)])
    else if i.kind == BeginLoop then
      if ins[r + 1].kind == AddPtr && ins[r + 2].kind == EndLoop then
        Cursor(r + 3, out + [Instruction(ins[r + 1].data, MovePointerToZeroValue)])
      else
        Cursor(r + 1, out + [Instruction(0, BeginLoop)])
    else
      Cursor(r + 1, out)
  }

  /**
   * The slots written by the rest of the pass. At most one slot is opened per
   * input instruction, and slots already left behind are kept.
   */
  function Pass(ins: seq<Instruction>, c: Cursor): (out: seq<Instruction>)
    requires ValidCursor(ins, c)
    ensures |c.written| <= |out| <= |c.written| + (|ins| - c.read)
    decreases |ins| - c.read
  {
    if c.read == |ins| then c.written else Pass(ins, Step(ins, c))
  }

  /**
   * The slots the whole pass writes: slot 0 (initially `{0, AddPtr}`) up to
   * and including the final write position.
   */
  function Emitted(ins: seq<Instruction>): (out: seq<Instruction>)
    requires LookaheadDefined(ins)
    ensures 1 <= |out| <= |ins| + 1
  {
    Pass(ins, Cursor(0, [Blank]))
  }

  /** `n` value-initialised instructions. */
  function Blanks(n: nat): (r: seq<Instruction>)
    ensures |r| == n && forall k :: 0 <= k < n ==> r[k] == Blank
  {
    seq(n, _ => Blank)
  }

  /**
   * The `while` loop of optimize_instructions, run in place on `out`, whose
   * slots all hold `{0, AddPtr}`. Returns the final write position; the slots
   * up to it hold the emitted instructions and the rest are untouched.
   */
  method WritePass(ins: seq<Instruction>, out: array<Instruction>) returns (w: nat)
    requires LookaheadDefined(ins)
    requires |Emitted(ins)| <= out.Length
    requires forall k :: 0 <= k < out.Length ==> out[k] == Blank
    modifies out
    ensures w + 1 == |Emitted(ins)|
    ensures out[..w + 1] == Emitted(ins)
    ensures forall k :: w < k < out.Length ==> out[k] == Blank
  {
    var r := 0;
    w := 0;
    assert out[..w + 1] == [Blank];
    while r != |ins|
      invariant r <= |ins|
      invariant w < out.Length
      invariant Pass(ins, Cursor(r, out[..w + 1])) == Emitted(ins)
      invariant forall k :: w < k < out.Length ==> out[k] == Blank
      decreases |ins| - r
    {
      ghost var after := Step(ins, Cursor(r, out[..w + 1]));
      assert Pass(ins, after) == Emitted(ins);
      r, w := Advance(ins, out, r, w);
    }
  }

  /**
   * The body of the `while` loop: the `switch` on the kind under the read
   * iterator, followed by `++read_itr`.
   */
  method Advance(ins: seq<Instruction>, out: array<Instruction>, r: nat, w: nat) returns (r': nat, w': nat)
    requires LookaheadDefined(ins) && r < |ins| && w < out.Length
    requires |Step(ins, Cursor(r, out[..w + 1])).written| <= out.Length
    requires forall k :: w < k < out.Length ==> out[k] == Blank
    modifies out
    ensures w' < out.Length
    ensures Cursor(r', out[..w' + 1]) == Step(ins, Cursor(r, old(out[..w + 1])))
    ensures forall k :: w' < k < out.Length ==> out[k] == Blank
  {
    ghost var written := out[..w + 1];
    assert Last(written) == out[w] && Front(written) == out[..w];
    var kind := ins[r].kind;
    r', w' := r, w;
    if IsArithmetic(kind) {
      w' := ArithmeticCase(ins[r], out, w);
    } else if IsPassthrough(kind) {
      w' := PassthroughCase(kind, out, w);
    } else if kind == BeginLoop {
      r', w' := BeginLoopCase(ins, out, r, w);
    }
    r' := r' + 1;
  }

  /** ARITHMETIC_CASE: add to the slot under the write iterator if it has the same kind, else open a new slot. */
  method ArithmeticCase(i: Instruction, out: array<Instruction>, w: nat) returns (w': nat)
    requires IsArithmetic(i.kind) && w < out.Length
    requires out[w].kind != i.kind ==> w + 1 < out.Length
    requires forall k :: w < k < out.Length ==> out[k] == Blank
    modifies out
    ensures w' < out.Length
    ensures old(out[w].kind) == i.kind ==>
      w' == w && out[..w' + 1] == old(out[..w]) + [Instruction(WrapAdd(old(out[w].data), i.data), i.kind)]
    ensures old(out[w].kind) != i.kind ==>
      w' == w + 1 && out[..w' + 1] == old(out[..w + 1]) + [i]
    ensures forall k :: w' < k < out.Length ==> out[k] == Blank
  {
    w' := w;
    if out[w'].kind == i.kind {
      out[w'] := out[w'].(data := WrapAdd(out[w'].data, i.data));
      assert out[..w' + 1] == old(out[..w]) + [out[w']];
    } else {
      w' := w' + 1;
      out[w'] := out[w'].(kind := i.kind);
      out[w'] := out[w'].(data := i.data);
      assert out[..w' + 1] == old(out[..w + 1]) + [out[w']];
    }
  }

  /** PASSTHROUGH_CASE: open a new slot and set only its kind; its data is the fresh slot's 0. */
  method PassthroughCase(kind: InstructionType, out: array<Instruction>, w: nat) returns (w': nat)
    requires w + 1 < out.Length
    requires forall k :: w < k < out.Length ==> out[k] == Blank
    modifies out
    ensures w' == w + 1
    ensures out[..w' + 1] == old(out[..w + 1]) + [Instruction(0, kind)]
    ensures forall k :: w' < k < out.Length ==> out[k] == Blank
  {
    w' := w + 1;
    out[w'] := out[w'].(kind := kind);
    assert out[..w' + 1] == old(out[..w + 1]) + [out[w']];
  }

  /**
   * The BeginLoop case: look ahead for AddPtr then EndLoop; on a match write
   * MovePointerToZeroValue with the AddPtr's data, otherwise step the read
   * iterator back and write BeginLoop. Returns the read position of the last
   * instruction consumed.
   */
  method BeginLoopCase(ins: seq<Instruction>, out: array<Instruction>, r: nat, w: nat) returns (r': nat, w': nat)
    requires LookaheadDefined(ins) && r < |ins| && ins[r].kind == BeginLoop
    requires w + 1 < out.Length
    requires forall k :: w < k < out.Length ==> out[k] == Blank
    modifies out
    ensures w' == w + 1
    ensures r + 2 < |ins| && ins[r + 1].kind == AddPtr && ins[r + 2].kind == EndLoop ==>
      r' == r + 2 && out[..w' + 1] == old(out[..w + 1]) + [Instruction(ins[r + 1].data, MovePointerToZeroValue)]
    ensures !(r + 2 < |ins| && ins[r + 1].kind == AddPtr && ins[r + 2].kind == EndLoop) ==>
      r' == r && out[..w' + 1] == old(out[..w + 1]) + [Instruction(0, BeginLoop)]
    ensures forall k :: w' < k < out.Length ==> out[k] == Blank
  {
    var read := r + 1;
    w' := w + 1;
    if ins[read].kind == AddPtr {
      read := read + 1;
      if ins[read].kind == EndLoop {
        out[w'] := out[w'].(kind := MovePointerToZeroValue);
        out[w'] := out[w'].(data := ins[read - 1].data);
      } else {
        read := read - 2;
        out[w'] := out[w'].(kind := BeginLoop);
      }
    } else {
      read := read - 1;
      out[w'] := out[w'].(kind := BeginLoop);
    }
    r' := read;
    assert out[..w' + 1] == old(out[..w + 1]) + [out[w']];
  }

  /**
   * optimize_instructions as written: the output vector has as many slots as
   * the input, and `erase(++write_itr)` removes the single slot after the
   * final write position. Defined only when every write stays in range and
   * the erased slot exists.
   */
  method OptimizeInstructions(instructions: seq<Instruction>) returns (optimized: seq<Instruction>)
    requires LookaheadDefined(instructions)
    requires |Emitted(instructions)| <= |instructions| - 1
    ensures |optimized| == |instructions| - 1
    ensures optimized == Emitted(instructions) + Blanks(|instructions| - 1 - |Emitted(instructions)|)
  {
    var out := new Instruction[|instructions|](_ => Blank);
    var w := WritePass(instructions, out);
    optimized := out[..w + 1] + out[w + 2..];
  }

  /**
   * optimize_instructions with the output vector sized one slot larger than
   * the input (slot 0 is a placeholder) and the whole tail erased: defined
   * for every input whose lookahead stays in range, and the result is
   * exactly the emitted instructions.
   */
  method OptimizeInstructionsSized(instructions: seq<Instruction>) returns (optimized: seq<Instruction>)
    requires LookaheadDefined(instructions)
    ensures optimized == Emitted(instructions)
  {
    var out := new Instruction[|instructions| + 1](_ => Blank);
    var w := WritePass(instructions, out);
    optimized := out[..w + 1];
  }
}
