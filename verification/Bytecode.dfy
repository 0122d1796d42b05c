/**
 Instruction sets (compiler/bytecode/instruction.go): flat integer code, a pool
 of interned constants, and the operand-count table that says where one
 instruction ends and the next begins.
 */
module Bytecode {
  import opened Wrappers
  import opened Ast

  datatype ArgKind = NormalArg | OptionedArg | SplatArg | RequiredKeywordArg | OptionalKeywordArg

  datatype ArgSet = ArgSet(names: seq<Name>, types: seq<ArgKind>)

  /** The pool compares entries with Go's `==`: strings by content, instruction
      sets and argument sets by pointer, which an id stands for. */
  datatype Const =
    | StrConst(s: string)
    | NameConst(x: Name)
    | SetConst(id: nat)
    | ArgsConst(id: nat, args: ArgSet)
    | NilConst       // an untyped nil
    | NilSetConst    // a nil *InstructionSet

  datatype InstructionSet = InstructionSet(code: seq<int>, consts: seq<Const>, params: ArgSet)

  const NO_OP := 0
  const GET_LOCAL := 1
  const GET_CONSTANT := 2
  const SET_LOCAL := 5
  const SET_OPTIONAL := 6
  const SET_INSTANCE_VARIABLE := 8
  const PUT_TRUE := 9
  const PUT_FALSE := 10
  const PUT_STRING := 11
  const PUT_FLOAT := 12
  const PUT_SELF := 13
  const PUT_INT := 15
  const PUT_OBJECT := 16
  const PUT_NULL := 17
  const NEW_ARRAY := 18
  const EXPAND_ARRAY := 19
  const NEW_HASH := 22
  const BRANCH_UNLESS := 25
  const BRANCH_IF := 26
  const JUMP := 27
  const BREAK := 28
  const DEF_METHOD := 29
  const DEF_META_METHOD := 30
  const DEF_CLASS := 31
  const SEND := 32
  const BINARY_OPERATOR := 33
  const ADD := 34
  const SUBTRACT := 35
  const GREATER := 36
  const LESS := 37
  const GREATER_EQUAL := 38
  const LESS_EQUAL := 39
  const INVOKE_BLOCK := 40
  const HAS_BLOCK := 42
  const POP := 43
  const DUP := 44
  const DEFER := 45
  const LEAVE := 46
  const INSTRUCTION_COUNT := 47

  predicate IsOpcode(op: int) {
    NO_OP <= op <= INSTRUCTION_COUNT
  }

  /** The paramCount column of the Instructions table, for every opcode. */
  function ParamCount(op: int): nat {
    if op == SEND || op == DEF_CLASS then 4
    else if op == DEF_METHOD || op == DEF_META_METHOD then 3
    else if op == GET_LOCAL || op == SET_LOCAL || op == SET_OPTIONAL || op == DEFER then 2
    else if GET_CONSTANT <= op <= SET_INSTANCE_VARIABLE
         || PUT_STRING <= op <= PUT_FLOAT
         || PUT_INT <= op <= PUT_OBJECT
         || op == NEW_ARRAY || op == EXPAND_ARRAY || op == NEW_HASH
         || BRANCH_UNLESS <= op <= JUMP
         || BINARY_OPERATOR <= op <= INVOKE_BLOCK
    then 1
    else 0
  }

  /** One decoded instruction of the modelled fragment. */
  datatype Instr =
    | INoOp
    | IGetLocal(depth: int, index: int)
    | ISetLocal(depth: int, index: int)
    | ISetOptional(depth: int, index: int)
    | IPutBool(b: bool)
    | IPutString(s: string)
    | IPutSelf
    | IPutInt(n: int)
    | IPutNull
    | INewArray(n: int)
    | IExpandArray(n: int)
    | IBranchUnless(target: int)
    | IBranchIf(target: int)
    | IJump(target: int)
    | IBreak
    | IDefMethod(argc: int, name: Name, unit: Option<nat>)
    | ISend(name: Name, argc: int, block: Option<nat>, args: Option<ArgSet>)
    | IBinary(name: Name)
    | IArith(op: int, name: Name)
    | IInvokeBlock(argc: int)
    | IHasBlock
    | IDefer(argc: int, unit: Option<nat>)
    | IPop
    | IDup
    | ILeave
    | IOther        // an opcode outside the modelled fragment
    | IMalformed    // reading it runs off the code or the pool: a Go panic

  function Len(i: Instr): nat {
    match i
    case IGetLocal(_, _) => 3
    case ISetLocal(_, _) => 3
    case ISetOptional(_, _) => 3
    case IPutString(_) => 2
    case IPutInt(_) => 2
    case INewArray(_) => 2
    case IExpandArray(_) => 2
    case IBranchUnless(_) => 2
    case IBranchIf(_) => 2
    case IJump(_) => 2
    case IDefMethod(_, _, _) => 4
    case ISend(_, _, _, _) => 5
    case IBinary(_) => 2
    case IArith(_, _) => 2
    case IInvokeBlock(_) => 2
    case IDefer(_, _) => 3
    case _ => 1
  }

  predicate InPool(ins: InstructionSet, at: nat)
    requires at < |ins.code|
  {
    0 <= ins.code[at] < |ins.consts|
  }

  /** GetString: a constant of another type reads as the empty string. */
  function StringAt(ins: InstructionSet, at: nat): string
    requires at < |ins.code| && InPool(ins, at)
  {
    var c := ins.consts[ins.code[at]];
    if c.StrConst? then c.s else ""
  }

  function NameAt(ins: InstructionSet, at: nat): Name
    requires at < |ins.code| && InPool(ins, at)
  {
    var c := ins.consts[ins.code[at]];
    if c.NameConst? then c.x else BLANK
  }

  function SetAt(ins: InstructionSet, at: nat): Option<nat>
    requires at < |ins.code| && InPool(ins, at)
  {
    var c := ins.consts[ins.code[at]];
    if c.SetConst? then Some(c.id) else None
  }

  function ArgsAt(ins: InstructionSet, at: nat): Option<ArgSet>
    requires at < |ins.code| && InPool(ins, at)
  {
    var c := ins.consts[ins.code[at]];
    if c.ArgsConst? then Some(c.args) else None
  }

  predicate IsArithmetic(op: int) {
    ADD <= op <= LESS_EQUAL
  }

  /** The instruction that starts at pc. */
  function Decode(ins: InstructionSet, pc: nat): Instr
    requires pc < |ins.code|
  {
    var c := ins.code;
    var op := c[pc];
    if !IsOpcode(op) || pc + ParamCount(op) >= |c| then IMalformed
    else if op == NO_OP then INoOp
    else if op == GET_LOCAL then IGetLocal(c[pc + 1], c[pc + 2])
    else if op == SET_LOCAL then ISetLocal(c[pc + 1], c[pc + 2])
    else if op == SET_OPTIONAL then ISetOptional(c[pc + 1], c[pc + 2])
    else if op == PUT_TRUE then IPutBool(true)
    else if op == PUT_FALSE then IPutBool(false)
    else if op == PUT_STRING then
      if InPool(ins, pc + 1) then IPutString(StringAt(ins, pc + 1)) else IMalformed
    else if op == PUT_SELF then IPutSelf
    else if op == PUT_INT then IPutInt(c[pc + 1])
    else if op == PUT_NULL then IPutNull
    else if op == NEW_ARRAY then INewArray(c[pc + 1])
    else if op == EXPAND_ARRAY then IExpandArray(c[pc + 1])
    else if op == BRANCH_UNLESS then IBranchUnless(c[pc + 1])
    else if op == BRANCH_IF then IBranchIf(c[pc + 1])
    else if op == JUMP then IJump(c[pc + 1])
    else if op == BREAK then IBreak
    else if op == DEF_METHOD then
      if InPool(ins, pc + 2) && InPool(ins, pc + 3)
      then IDefMethod(c[pc + 1], NameAt(ins, pc + 2), SetAt(ins, pc + 3)) else IMalformed
    else if op == SEND then
      if InPool(ins, pc + 1) && InPool(ins, pc + 3) && InPool(ins, pc + 4)
      then ISend(NameAt(ins, pc + 1), c[pc + 2], SetAt(ins, pc + 3), ArgsAt(ins, pc + 4)) else IMalformed
    else if op == BINARY_OPERATOR then
      if InPool(ins, pc + 1) then IBinary(NameAt(ins, pc + 1)) else IMalformed
    else if IsArithmetic(op) then
      if InPool(ins, pc + 1) then IArith(op, NameAt(ins, pc + 1)) else IMalformed
    else if op == INVOKE_BLOCK then IInvokeBlock(c[pc + 1])
    else if op == HAS_BLOCK then IHasBlock
    else if op == DEFER then
      if InPool(ins, pc + 2) then IDefer(c[pc + 1], SetAt(ins, pc + 2)) else IMalformed
    else if op == POP then IPop
    else if op == DUP then IDup
    else if op == LEAVE then ILeave
    else IOther
  }
}
