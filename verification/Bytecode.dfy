/** The instruction set and its control-flow queries. */
module Bytecodes {

  /** An instruction. Indices into the tables of a module, local indices and code offsets are naturals. */
  datatype Bytecode =
    | Pop
    | Ret
    | BrTrue(offset: nat)
    | BrFalse(offset: nat)
    | Branch(offset: nat)
    | LdU8(value: nat)
    | LdU64(value: nat)
    | LdU128(value: nat)
    | CastU8
    | CastU64
    | CastU128
    | LdConst(constant: nat)
    | LdTrue
    | LdFalse
    | CopyLoc(local: nat)
    | MoveLoc(local: nat)
    | StLoc(local: nat)
    | Call(func: nat)
    | CallGeneric(funcInst: nat)
    | Pack(def: nat)
    | PackGeneric(defInst: nat)
    | Unpack(def: nat)
    | UnpackGeneric(defInst: nat)
    | ReadRef
    | WriteRef
    | FreezeRef
    | MutBorrowLoc(local: nat)
    | ImmBorrowLoc(local: nat)
    | MutBorrowField(field: nat)
    | MutBorrowFieldGeneric(fieldInst: nat)
    | ImmBorrowField(field: nat)
    | ImmBorrowFieldGeneric(fieldInst: nat)
    | MutBorrowGlobal(def: nat)
    | MutBorrowGlobalGeneric(defInst: nat)
    | ImmBorrowGlobal(def: nat)
    | ImmBorrowGlobalGeneric(defInst: nat)
    | Add
    | Sub
    | Mul
    | Mod
    | Div
    | BitOr
    | BitAnd
    | Xor
    | Or
    | And
    | Not
    | Eq
    | Neq
    | Lt
    | Gt
    | Le
    | Ge
    | Abort
    | Nop
    | Exists(def: nat)
    | ExistsGeneric(defInst: nat)
    | MoveFrom(def: nat)
    | MoveFromGeneric(defInst: nat)
    | MoveTo(def: nat)
    | MoveToGeneric(defInst: nat)
    | Shl
    | Shr
    | VecPack(sig: nat, count: nat)
    | VecLen(sig: nat)
    | VecImmBorrow(sig: nat)
    | VecMutBorrow(sig: nat)
    | VecPushBack(sig: nat)
    | VecPopBack(sig: nat)
    | VecUnpack(sig: nat, count: nat)
    | VecSwap(sig: nat)

  /** The length a code unit may have: program counters are 16-bit and are incremented up to twice. */
  const MAX_CODE_LENGTH := 65534

  /** Whether the instruction always leaves the straight line. */
  predicate IsUnconditionalBranch(b: Bytecode) {
    b.Ret? || b.Abort? || b.Branch?
  }

  predicate IsConditionalBranch(b: Bytecode) {
    b.BrFalse? || b.BrTrue?
  }

  predicate IsBranch(b: Bytecode) {
    IsConditionalBranch(b) || IsUnconditionalBranch(b)
  }

  /** Whether the instruction names a code offset; `Ret` and `Abort` are branches without one. */
  predicate HasOffset(b: Bytecode) {
    b.BrFalse? || b.BrTrue? || b.Branch?
  }

  /** Every branch offset is inside the code, as the bounds checker guarantees. */
  predicate OffsetsInRange(code: seq<Bytecode>) {
    forall i | 0 <= i < |code| :: HasOffset(code[i]) ==> code[i].offset < |code|
  }

  /** Control may pass from instruction `i` to instruction `j`. */
  predicate Edge(code: seq<Bytecode>, i: nat, j: nat)
    requires i < |code|
  {
    || (HasOffset(code[i]) && j == code[i].offset)
    || (!IsUnconditionalBranch(code[i]) && j == i + 1 && j < |code|)
  }

  /** Where control goes from every instruction, spelled out. */
  predicate GoesTo(code: seq<Bytecode>, i: nat, j: nat)
    requires i < |code|
  {
    match code[i]
    case Ret | Abort => false
    case Branch(offset) => j == offset
    case BrTrue(offset) => j == offset || (j == i + 1 && j < |code|)
    case BrFalse(offset) => j == offset || (j == i + 1 && j < |code|)
    case _ => j == i + 1 && j < |code|
  }

  lemma EdgeIff(code: seq<Bytecode>, i: nat, j: nat)
    requires i < |code|
    ensures Edge(code, i, j) <==> GoesTo(code, i, j)
  {
  }

  /** The successor list of one instruction: the offsets control may pass to, in ascending order. */
  ghost predicate Successors(code: seq<Bytecode>, pc: nat, succs: seq<nat>)
    requires pc < |code|
  {
    && (forall s: nat :: s in succs <==> Edge(code, pc, s))
    && |succs| <= 2
    && (|succs| == 2 ==> succs[0] < succs[1])
  }

  /** Builds the successor list of the instruction at `pc`. */
  method GetSuccessors(pc: nat, code: seq<Bytecode>) returns (v: seq<nat>)
    requires pc < |code| <= MAX_CODE_LENGTH
    ensures Successors(code, pc, v)
    ensures forall s: nat :: s in v <==> GoesTo(code, pc, s)
  {
    forall s: nat ensures Edge(code, pc, s) <==> GoesTo(code, pc, s) {
      EdgeIff(code, pc, s);
    }
    var bytecode := code[pc];
    v := [];
    if HasOffset(bytecode) {
      v := v + [bytecode.offset];
    }
    var nextPc := pc + 1;
    if nextPc >= |code| {
      return;
    }
    if !IsUnconditionalBranch(bytecode) && nextPc !in v {
      v := v + [pc + 1];
    }
    if |v| > 1 && v[0] > v[1] {
      v := [v[1], v[0]];
    }
  }
}
