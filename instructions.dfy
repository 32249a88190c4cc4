/**
 * The instruction set of the interpreter and the character-to-instruction
 * mapping (libs/bf/include/bf/bf.hpp).
 */
module Instructions {

  /** An unsigned 8-bit quantity (`uint8_t`). */
  type Byte = x: int | 0 <= x < 256

  /** `uint8_t` addition: a sum past 255 wraps around. */
  function WrapAdd(a: Byte, b: Byte): Byte {
    if a + b < 256 then a + b else a + b - 256
  }

  /** WrapAdd is addition modulo 256, as the `+=` on a `uint8_t` field. */
  lemma WrapAddIsModulo(a: Byte, b: Byte)
    ensures WrapAdd(a, b) == (a + b) % 256
  {
  }

  /**
   * The operator kinds, in the order of the C++ enumeration. The last one,
   * MovePointerToZeroValue, is written by the optimiser but is missing from
   * the C++ enumeration; it is added here so that the optimiser can be modelled.
   */
  datatype InstructionType =
    | AddPtr
    | SubPtr
    | AddVal
    | SubVal
    | Print
    | Read
    | BeginLoop
    | EndLoop
    | MovePointerToZeroValue

  /**
   * An instruction: a one-byte payload and its kind. The C++ field `type`
   * is called `kind` here because `type` is a Dafny keyword.
   */
  datatype Instruction = Instruction(data: Byte, kind: InstructionType)

  /** The value-initialised instruction `{}`: data 0, the first enumerator. */
  const Blank: Instruction := Instruction(0, AddPtr)

  /** The eight characters the language gives a meaning to. */
  const Operators: seq<char> := "><+-.,[]"

  predicate IsOperator(token: char) {
    token in Operators
  }

  /** The characters whose instruction carries a payload of one. */
  predicate IsArithmeticToken(token: char) {
    token == '>' || token == '<' || token == '+' || token == '-'
  }

  /**
   * parse_token: every character gives an instruction; a character outside
   * the eight operators gives the value-initialised instruction.
   */
  function ParseToken(token: char): (r: Instruction)
    ensures r.kind != MovePointerToZeroValue
  {
    match token
    case '>' => Instruction(1, AddPtr)
    case '<' => Instruction(1, SubPtr)
    case '+' => Instruction(1, AddVal)
    case '-' => Instruction(1, SubVal)
    case '.' => Instruction(0, Print)
    case ',' => Instruction(0, Read)
    case '[' => Instruction(0, BeginLoop)
    case ']' => Instruction(0, EndLoop)
    case _ => Blank
  }

  /**
   * The operator character that stands for each kind, if any. This is the
   * inverse of ParseToken on the operator alphabet.
   */
  function OperatorOf(kind: InstructionType): (r: Option<char>)
    ensures r.Some? <==> kind != MovePointerToZeroValue
  {
    match kind
    case AddPtr => Some('>')
    case SubPtr => Some('<')
    case AddVal => Some('+')
    case SubVal => Some('-')
    case Print => Some('.')
    case Read => Some(',')
    case BeginLoop => Some('[')
    case EndLoop => Some(']')
    case MovePointerToZeroValue => None
  }

  datatype Option<T> = None | Some(value: T)

  /** Parsing an operator and reading its kind back gives the operator. */
  lemma ParseRoundTrip(token: char)
    requires IsOperator(token)
    ensures OperatorOf(ParseToken(token).kind) == Some(token)
  {
  }

  /** Every kind the language has a character for is produced by that character. */
  lemma OperatorRoundTrip(kind: InstructionType)
    requires kind != MovePointerToZeroValue
    ensures IsOperator(OperatorOf(kind).value)
    ensures ParseToken(OperatorOf(kind).value).kind == kind
  {
  }

  /** Distinct operators give distinct kinds: parsing is injective on the operator alphabet. */
  lemma ParseInjective(a: char, b: char)
    requires IsOperator(a) && IsOperator(b) && a != b
    ensures ParseToken(a).kind != ParseToken(b).kind
  {
    ParseRoundTrip(a);
    ParseRoundTrip(b);
  }

  /** Direction is carried by the kind; the payload is 1 exactly for the four arithmetic characters and 0 otherwise. */
  lemma ParsePayload(token: char)
    ensures ParseToken(token).data <= 1
    ensures ParseToken(token).data == 1 <==> IsArithmeticToken(token)
  {
  }

  /** A character outside the operator alphabet gives `{0, AddPtr}`. */
  lemma ParseOtherCharacter(token: char)
    requires !IsOperator(token)
    ensures ParseToken(token) == Blank
  {
  }
}
