/** The bytecode encoding (src/bytecode/opcodes.zig): opcode ordinals, instruction sizes and the
    operand layout, as a decoder from bytes to `Instr`. */
module Bytecode {

  type Byte = b: int | 0 <= b < 256
  type Code = seq<Byte>

  const LOAD_K := 0
  const LOAD_TRUE := 1
  const LOAD_FALSE := 2
  const LOAD_NULL := 3
  const LOAD_UNDEF := 4
  const MOVE := 5
  const GET_GLOBAL := 6
  const SET_GLOBAL := 7
  const ADD := 10
  const SUB := 11
  const MUL := 12
  const DIV := 13
  const MOD := 14
  const BIT_AND := 16
  const BIT_OR := 17
  const BIT_XOR := 18
  const SHL := 19
  const SHR := 20
  const USHR := 21
  const NEG := 22
  const BIT_NOT := 23
  const INC := 24
  const DEC := 25
  const EQ := 26
  const NEQ := 27
  const SEQ := 28
  const SNEQ := 29
  const LT := 30
  const LE := 31
  const GT := 32
  const GE := 33
  const NOT := 34
  const TYPEOF := 35
  const JMP := 36
  const JMP_IF_TRUE := 37
  const JMP_IF_FALSE := 38
  const JMP_IF_NULLISH := 39
  const JMP_IF_NOT_NULLISH := 40
  const NEW_CLOSURE := 43
  const CALL := 44
  const RETURN := 45
  const RETURN_UNDEF := 46
  const HALT := 47
  const SET_PROP := 50
  const GET_PROP := 51
  const SET_PROP_DYN := 52
  const GET_PROP_DYN := 53
  const INSTANCEOF := 61
  const DEFINE_GLOBAL := 63
  const IN := 72
  const GET_GLOBAL_OPT := 75
  const HOIST_VAR := 76
  const HOIST_LEX := 77
  const INIT_LEX := 78
  const TO_NUMBER := 88
  const TO_NUMERIC := 89

  const OP_COUNT := 112

  /** `instrSize`: the encoded length of every opcode; 0 for a byte that is no opcode. */
  function InstrSize(op: int): nat
  {
    if op < 0 || op >= OP_COUNT then 0
    else if op in {46, 47, 58, 65, 79, 80, 82, 87, 93, 102, 108, 110} then 1
    else if op in {1, 2, 3, 4, 45, 48, 54, 56, 66, 81, 83, 86, 103, 106} then 2
    else if op in {5, 8, 9, 22, 23, 24, 25, 34, 35, 36, 49, 62, 70, 71, 76, 77, 84, 88, 89, 91, 95, 104, 107, 109}
        then 3
    else if op in {41, 42, 50, 51, 69, 74, 78, 96, 100, 101} then 5
    else if op in {68, 92} then 6
    else 4
  }

  predicate IsBitBinary(op: int) { BIT_AND <= op <= USHR }
  predicate IsCompare(op: int) { EQ <= op <= GE }
  predicate IsArith(op: int) { op == ADD || op == SUB || op == MUL }

  function ReadU16(code: Code, at: nat): nat
    requires at + 2 <= |code|
  {
    (code[at] as int) + 256 * (code[at + 1] as int)
  }

  function ReadI16(code: Code, at: nat): int
    requires at + 2 <= |code|
  {
    var u := ReadU16(code, at);
    if u >= 0x8000 then u - 0x1_0000 else u
  }

  datatype Instr =
    | LoadK(dst: nat, k: nat)
    | LoadLit(op: int, dst: nat)
    | Unary(op: int, dst: nat, src: nat)
    | Binary(op: int, dst: nat, l: nat, r: nat)
    | GetName(op: int, dst: nat, k: nat)
    | SetName(op: int, k: nat, src: nat)
    | Hoist(k: nat)
    | Jump(rel: int)
    | Branch(op: int, cond: nat, rel: int)
    | GetProp(dst: nat, obj: nat, k: nat)
    | SetProp(obj: nat, k: nat, val: nat)
    | SetElem(obj: nat, key: nat, val: nat)
    | Call(base: nat, nargs: nat, dst: nat)
    | NewClosure(dst: nat, idx: nat)
    | Return(src: nat)
    | Stop(op: int)
    | Other(op: int)

  /** The instruction encoded at `pc`, when all its bytes are there. */
  function Fetch(code: Code, pc: nat): Instr
    requires pc < |code| && pc + InstrSize(code[pc]) <= |code|
  {
    var op := code[pc];
    if op == LOAD_K then LoadK(code[pc + 1], ReadU16(code, pc + 2))
    else if LOAD_TRUE <= op <= LOAD_UNDEF then LoadLit(op, code[pc + 1])
    else if op in {MOVE, NEG, BIT_NOT, INC, DEC, NOT, TYPEOF, TO_NUMBER, TO_NUMERIC} then
      Unary(op, code[pc + 1], code[pc + 2])
    else if ADD <= op <= USHR || IsCompare(op) || op in {GET_PROP_DYN, INSTANCEOF, IN} then
      Binary(op, code[pc + 1], code[pc + 2], code[pc + 3])
    else if op == GET_GLOBAL || op == GET_GLOBAL_OPT then GetName(op, code[pc + 1], ReadU16(code, pc + 2))
    else if op == SET_GLOBAL || op == DEFINE_GLOBAL then SetName(op, ReadU16(code, pc + 1), code[pc + 3])
    else if op == HOIST_VAR then Hoist(ReadU16(code, pc + 1))
    else if op == JMP then Jump(ReadI16(code, pc + 1))
    else if JMP_IF_TRUE <= op <= JMP_IF_NOT_NULLISH then Branch(op, code[pc + 1], ReadI16(code, pc + 2))
    else if op == GET_PROP then GetProp(code[pc + 1], code[pc + 2], ReadU16(code, pc + 3))
    else if op == SET_PROP then SetProp(code[pc + 1], ReadU16(code, pc + 2), code[pc + 4])
    else if op == SET_PROP_DYN then SetElem(code[pc + 1], code[pc + 2], code[pc + 3])
    else if op == CALL then Call(code[pc + 1], code[pc + 2], code[pc + 3])
    else if op == NEW_CLOSURE then NewClosure(code[pc + 1], ReadU16(code, pc + 2))
    else if op == RETURN then Return(code[pc + 1])
    else if op == RETURN_UNDEF || op == HALT then Stop(op)
    else Other(op)
  }

  /** `pc` holds a whole instruction. */
  predicate Whole(code: Code, pc: nat)
  {
    pc < |code| && InstrSize(code[pc]) > 0 && pc + InstrSize(code[pc]) <= |code|
  }

  function Next(code: Code, pc: nat): nat
    requires pc < |code|
  {
    pc + InstrSize(code[pc])
  }

  /** `pc` is reached from `from` by stepping over whole instructions. */
  predicate Boundary(code: Code, from: nat, pc: nat)
    decreases |code| - from
  {
    from == pc || (from < pc && Whole(code, from) && Boundary(code, Next(code, from), pc))
  }

  lemma {:induction false} BoundaryStep(code: Code, from: nat, pc: nat)
    requires Boundary(code, from, pc) && Whole(code, pc)
    ensures Boundary(code, from, Next(code, pc))
    decreases |code| - from
  {
    if from != pc {
      BoundaryStep(code, Next(code, from), pc);
    }
  }

  /** Where a jump or branch at `pc` lands when taken. */
  function Target(code: Code, pc: nat): int
    requires Whole(code, pc)
  {
    match Fetch(code, pc)
    case Jump(rel) => Next(code, pc) + rel
    case Branch(_, _, rel) => Next(code, pc) + rel
    case _ => Next(code, pc)
  }
}
