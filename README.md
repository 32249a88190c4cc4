# Brainfuck instruction parser and peephole optimiser, in Dafny

This project models the two pieces of logic in the `bf` library:

- `bf::opt::parse_token` (libs/bf/include/bf/bf.hpp). It maps one source
  character to an `Instruction`, which is a one-byte `data` and an
  `InstructionType`.
- `bf::opt::optimize_instructions` (libs/bf/src/bf.cpp). It makes one pass
  over an instruction vector with a read iterator and a write iterator,
  writing into a pre-sized output vector in place. The pass does three things:
  - it merges runs of `AddPtr` and of `AddVal`, adding their data as
    `uint8_t`;
  - it copies `Print`, `Read` and `EndLoop` through;
  - it rewrites `[`, `AddPtr(d)`, `]` into `MovePointerToZeroValue(d)`.

  Every other kind reaches `default:` and is dropped.

The files:

- `instructions.dfy` (module `Instructions`): the instruction set and
  `ParseToken`, with its inverse `OperatorOf` on the operator alphabet.
  - `InstructionType` has a ninth constructor, `MovePointerToZeroValue`. The
    optimiser writes it (bf.cpp:46), but the C++ enumeration does not declare
    it.
  - The C++ field `type` is called `kind`, because `type` is a Dafny keyword.
- `optimizer.dfy` (module `Optimizer`): the optimiser.
  - The pass is specified by the function `Step`. It performs one iteration
    of the `while` loop on a `Cursor`: the read position, plus the output
    slots up to and including the one under the write iterator.
  - `Pass` and `Emitted` run `Step` to the end of the input.
  - `WritePass` is the loop itself. It works in place on an `array`, with one
    method per `switch` case (the two macros and the `BeginLoop` case). Its
    loop invariant ties the array to `Pass`.
  - `OptimizeInstructions` adds the output vector's sizing and the final
    `erase`.
- `optimizer_properties.dfy` (module `OptimizerProperties`): what the pass
  guarantees about its output. This covers:
  - the shape of the output;
  - the order of `Print`/`Read`;
  - bracket counts and the bracket sequence (loop nesting);
  - the `uint8_t` sums of the pointer and value deltas;
  - how one run becomes one slot;
  - what slot 0 holds;
  - what each case of the `switch` emits.
- `worked_examples.dfy` (module `OptimizerExamples`): short programs with their
  exact output.

Behaviours of the code that the model follows as written:

- Payloads are unsigned bytes: `data` is a `uint8_t` (bf.hpp:19). The
  direction of a step is carried by the kind (`SubPtr`/`SubVal`), not by a
  signed payload.
- `SubPtr` and `SubVal` reach `default:` (bf.cpp:65) and are dropped, not
  merged.
- Only `[>]` is rewritten (bf.cpp:41-48). `[<]` is kept as a loop, although
  the comment at bf.cpp:40 names both `[>]` and `[<]`; the model follows the
  code.
- Loop bodies are not optimised recursively: the pass is a single scan
  (bf.cpp:28-69).
- An unknown character gives `{0, AddPtr}` (bf.hpp:75-77), not an error.
- Merged runs wrap modulo 256, as `+=` on a `uint8_t` does (bf.cpp:6).

## Model

| member | source | states |
|---|---|---|
| Instructions.ParseToken | libs/bf/include/bf/bf.hpp:25-79 | every character gives an instruction (the parser is total), and never the optimiser-only MovePointerToZeroValue |
| Instructions.OperatorOf | libs/bf/include/bf/bf.hpp:7-16 | exactly the eight enumerators of the C++ enumeration have an operator character |
| Instructions.ParseRoundTrip | libs/bf/include/bf/bf.hpp:26-73 | parsing an operator character and mapping its kind back gives the character |
| Instructions.OperatorRoundTrip | libs/bf/include/bf/bf.hpp:26-73 | every enumerator is produced by its own operator character, so the eight cases cover the enumeration |
| Instructions.ParseInjective | libs/bf/include/bf/bf.hpp:26-73 | distinct operator characters give distinct kinds |
| Instructions.ParsePayload | libs/bf/include/bf/bf.hpp:27-77 | data is at most 1, and is 1 exactly for `>`, `<`, `+` and `-` |
| Instructions.ParseOtherCharacter | libs/bf/include/bf/bf.hpp:75-77 | a character outside the eight operators gives the value-initialised `{0, AddPtr}` |
| Optimizer.Step | libs/bf/src/bf.cpp:29-68 | one loop iteration always advances the read iterator and moves the write iterator by at most one slot |
| Optimizer.Pass | libs/bf/src/bf.cpp:28-69 | the rest of the pass opens at most one slot per instruction read |
| Optimizer.Emitted | libs/bf/src/bf.cpp:23-69 | for n input instructions, the whole pass writes between 1 and n + 1 slots, counting the placeholder slot 0 |
| Optimizer.WritePass | libs/bf/src/bf.cpp:25-69 | the in-place loop leaves exactly the emitted instructions in slots 0..W, returns the final write position W, and leaves every later slot `{0, AddPtr}` |
| Optimizer.Advance | libs/bf/src/bf.cpp:29-68 | one iteration of the loop body on the array performs exactly one `Step` of the specification |
| Optimizer.ArithmeticCase | libs/bf/src/bf.cpp:3-13 | an instruction of the kind under the write iterator is added to it modulo 256; otherwise it goes to a new slot with its own kind and data |
| Optimizer.PassthroughCase | libs/bf/src/bf.cpp:15-19 | the kind goes to a new slot whose data stays the fresh slot's 0 |
| Optimizer.BeginLoopCase | libs/bf/src/bf.cpp:37-63 | `[`, AddPtr(d), `]` gives MovePointerToZeroValue(d) with the read iterator on the `]`; anything else gives BeginLoop(0) with the read iterator stepped back onto the `[` |
| Optimizer.OptimizeInstructions | libs/bf/src/bf.cpp:22-74 | where defined, for n input instructions the result has n - 1 elements: the emitted slots, then `{0, AddPtr}` for every slot after the erased one |
| Instructions.WrapAddIsModulo | libs/bf/src/bf.cpp:6 | the `+=` on the `uint8_t` data field is addition modulo 256 |
| Optimizer.OptimizeInstructionsSized | libs/bf/src/bf.cpp:22-74 | with one more output slot and the whole tail erased, the result is exactly the emitted slots, for every input whose lookahead stays inside it |
| OptimizerProperties.StepKeepsShape | libs/bf/src/bf.cpp:29-66 | one iteration keeps the output coalesced: slot 0 AddPtr, no SubPtr/SubVal, zero data on non-arithmetic slots, no two adjacent arithmetic slots of one kind |
| OptimizerProperties.StepKeepsInputOutput | libs/bf/src/bf.cpp:33-34 | one iteration keeps the Print/Read sequence written equal to the one read |
| OptimizerProperties.StepKeepsLoops | libs/bf/src/bf.cpp:35-63 | one iteration keeps every BeginLoop/EndLoop read accounted for by a BeginLoop/EndLoop or MovePointerToZeroValue slot |
| OptimizerProperties.StepKeepsBrackets | libs/bf/src/bf.cpp:35-65 | one iteration keeps the bracket sequence of the slots written equal to that of the instructions read, a MovePointerToZeroValue slot counting as `[` `]` and a dropped one read counting as nothing |
| OptimizerProperties.StepKeepsDeltas | libs/bf/src/bf.cpp:3-13 | one iteration keeps the written AddVal data summing, modulo 256, to the AddVal data read, and the same for AddPtr data against AddPtr plus MovePointerToZeroValue slots |
| OptimizerProperties.StepKeepsInvariant | libs/bf/src/bf.cpp:28-68 | one iteration keeps the shape and all conserved quantities together |
| OptimizerProperties.PassKeepsInvariant | libs/bf/src/bf.cpp:28-69 | the rest of the pass keeps the shape and all conserved quantities, by induction on the instructions left |
| OptimizerProperties.EmittedIsCoalesced | libs/bf/src/bf.cpp:3-66 | the output is coalesced: slot 0 is an AddPtr, no SubPtr/SubVal, Print/Read/loop slots carry 0, and no arithmetic slot follows one of its own kind |
| OptimizerProperties.EmittedKeepsInputOutputOrder | libs/bf/src/bf.cpp:15-34 | Print and Read are neither dropped, duplicated nor reordered |
| OptimizerProperties.EmittedKeepsLoops | libs/bf/src/bf.cpp:37-63 | BeginLoop and EndLoop counts are kept, each MovePointerToZeroValue standing for one of each, so the net bracket count is unchanged; and the bracket sequence itself is unchanged, each MovePointerToZeroValue standing for the `[` `]` it replaced, so loop nesting is kept |
| OptimizerProperties.EmittedKeepsDeltas | libs/bf/src/bf.cpp:3-31 | the AddVal data sum, and the AddPtr data sum (output AddPtr plus MovePointerToZeroValue), are the input's modulo 256 |
| OptimizerProperties.RunMerges | libs/bf/src/bf.cpp:3-13 | while the slot under the write iterator has arithmetic kind K, reading K or dropped instructions only adds their K data to it, modulo 256 |
| OptimizerProperties.RunExtends | libs/bf/src/bf.cpp:3-13 | a run read so far extends by one instruction, whose data is added when it has the run's kind |
| OptimizerProperties.RunStep | libs/bf/src/bf.cpp:3-13 | inside a run, the rest of the pass is the same as after adding an instruction of the run's kind to the last slot, or after skipping a dropped one |
| OptimizerProperties.RunStepSlots | libs/bf/src/bf.cpp:3-13 | inside a run, one iteration adds an instruction of the run's kind to the last slot modulo 256 and leaves it alone for a dropped one |
| OptimizerProperties.StepKeepsEarlierSlots | libs/bf/src/bf.cpp:5-19 | one iteration never changes a slot the write iterator has left; it either appends a slot or changes only the current one, and only when that is an AddPtr or AddVal |
| OptimizerProperties.PassKeepsEarlierSlots | libs/bf/src/bf.cpp:28-69 | the rest of the pass never changes a slot the write iterator has left |
| OptimizerProperties.NextSlotOpened | libs/bf/src/bf.cpp:9-17 | once an iteration moves the write iterator forward, every slot before the new one is final |
| OptimizerProperties.AppendedSlotIsFinal | libs/bf/src/bf.cpp:15-62 | a newly opened slot of a kind other than AddPtr/AddVal is final along with everything before it |
| OptimizerProperties.NonArithmeticSlotIsFinal | libs/bf/src/bf.cpp:5-6 | once the slot under the write iterator is not AddPtr/AddVal, it and all slots before it are in the final output |
| OptimizerProperties.SlotsFinalWhenNextOpens | libs/bf/src/bf.cpp:8-19 | when the next instruction opens a slot, every slot written so far is final |
| OptimizerProperties.RunBecomesOneSlot | libs/bf/src/bf.cpp:3-31 | a maximal run of one arithmetic kind, with SubPtr/SubVal mixed in, after a slot of another kind becomes exactly one slot holding the run's sum modulo 256 |
| OptimizerProperties.LeadingPointerRunInSlotZero | libs/bf/src/bf.cpp:23-31 | slot 0 is an AddPtr holding the sum modulo 256 of the input's leading AddPtr run, and `{0, AddPtr}` without one |
| OptimizerProperties.LeadingPointerRunMerged | libs/bf/src/bf.cpp:23-31 | the leading AddPtr run is merged into the placeholder slot 0 before any other slot is written |
| OptimizerProperties.PassthroughTakesOwnSlot | libs/bf/src/bf.cpp:15-35 | Print, Read and EndLoop each take a new, final slot of their kind with data 0 |
| OptimizerProperties.ZeroingLoopRewritten | libs/bf/src/bf.cpp:41-48 | `[`, AddPtr(d), `]` consumes three instructions and gives one final MovePointerToZeroValue(d) slot |
| OptimizerProperties.OtherLoopKept | libs/bf/src/bf.cpp:49-62 | any other BeginLoop gives a final BeginLoop(0) slot, and scanning resumes at the next instruction |
| OptimizerProperties.DroppedEmitsNothing | libs/bf/src/bf.cpp:65-68 | SubPtr, SubVal and MovePointerToZeroValue are skipped without touching the output |
| OptimizerExamples.SubtractionDoesNotEndRun | libs/bf/src/bf.cpp:30-65 | `+-+` gives AddVal(2): the SubVal is dropped and the run continues |
| OptimizerExamples.RightScanLoopRewritten | libs/bf/src/bf.cpp:41-48 | `[>]` gives MovePointerToZeroValue(1) |
| OptimizerExamples.LeftScanLoopKept | libs/bf/src/bf.cpp:57-62 | `[<]` gives BeginLoop, EndLoop; the SubPtr is dropped |
| OptimizerExamples.LeadingPointerRunInPlaceholder | libs/bf/src/bf.cpp:26-33 | `>>.` gives AddPtr(2) in slot 0, then Print |
| OptimizerExamples.MergeWrapsAround | libs/bf/src/bf.cpp:5-6 | AddVal(200), AddVal(100) merge to AddVal(44) |
| OptimizerExamples.WritesPastOutputVector | libs/bf/src/bf.cpp:23-71 | `+.` needs three output slots while the output vector has two |
| OptimizerExamples.PointerThenValue | libs/bf/src/bf.cpp:26-31 | `>>>+` emits AddPtr(3) into slot 0 and AddVal(1) into slot 1 |
| OptimizerExamples.TrailingPlaceholderKept | libs/bf/src/bf.cpp:71 | `>>>+` gives AddPtr(3), AddVal(1) and one leftover `{0, AddPtr}` |

## Left out

- apps/bf/bf.main.cpp and apps/bf/error_codes.hpp are not part of this model. The first only prints a greeting; the second only holds constants.
- The diagnostic that `parse_token` writes to `std::cerr` for an unknown character is console output. Only the returned value is modelled.
- The `static_assert` on `sizeof(Instruction)` is about memory layout, not behaviour.
- No interpreter exists in the library, so the model makes no claims about execution semantics or program equivalence.
- Instructions.ParseToken: a C++ `char` is one byte. Here it is a Dafny `char`, and every character outside the eight operators behaves as the `default:` branch does.
- Optimizer.OptimizeInstructions: undefined behaviour is excluded by preconditions rather than modelled. There are two such paths:
  - The lookahead past a trailing `[` or a trailing `[>` dereferences `end()`. The precondition is `LookaheadDefined`.
  - The write iterator can move past the last slot, or `erase(++write_itr)` can receive `end()`. The precondition requires at most `|input| - 1` emitted slots.
- Out-of-range kinds: `enum class InstructionType : uint8_t` (bf.hpp:7) can hold any byte value through a cast. The datatype has only the named enumerators, so values without an enumerator, which `default:` at bf.cpp:65 would drop, are not represented. `parse_token` never produces them.
- Optimizer.WritePass: iterators are modelled as integer positions as integer positions. The output vector is an `array` sized once; the `erase` is modelled as building the result sequence from the array.

## Findings

| source | as written | input that shows it | evidently intended | confidence | as-written member | corrected member |
|---|---|---|---|---|---|---|
| libs/bf/src/bf.cpp:23 | the output vector has one slot per input instruction, n in all, but slot 0 is a placeholder that the first instruction of a non-AddPtr kind does not reuse, so up to n + 1 slots are written | `+.` writes AddVal to slot 1 and Print to slot 2 of a 2-slot vector | size the output for n + 1 slots | high; not executed | OptimizerExamples.WritesPastOutputVector | Optimizer.OptimizeInstructionsSized |
| libs/bf/src/bf.cpp:71 | `erase(++write_itr)` removes the single slot after the final write position and keeps the rest of the unused `{0, AddPtr}` slots | `>>>+` returns AddPtr(3), AddVal(1), `{0, AddPtr}` | erase from after the final write position to the end | medium; not executed | OptimizerExamples.TrailingPlaceholderKept | Optimizer.OptimizeInstructionsSized |
