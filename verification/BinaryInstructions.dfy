/** The binary form of instructions: an opcode, then the operands. */
module BinaryInstructions {
  import opened Wrappers
  import opened Bytecodes
  import opened Uleb128
  import opened SignatureTokens
  import opened BinaryItems

  const LOCAL_INDEX_MAX := 255

  /** The operands of an instruction: an index, a word, or both. */
  datatype Operands =
    | Nothing
    | Index(index: nat, max: U64)
    | Value(value: nat, size: nat)
    | IndexAndCount(index: nat, count: nat)

  predicate IsBasic(i: Bytecode) {
    i.Pop? || i.Ret? || i.BrTrue? || i.BrFalse? || i.Branch? || i.LdU64? || i.LdConst? || i.LdTrue?
    || i.LdFalse? || i.CopyLoc? || i.MoveLoc? || i.StLoc? || i.MutBorrowLoc? || i.ImmBorrowLoc?
    || i.MutBorrowField? || i.ImmBorrowField? || i.Call? || i.Pack? || i.Unpack? || i.ReadRef? || i.WriteRef?
  }

  function BasicCode(i: Bytecode): Byte
    requires IsBasic(i)
  {
    match i
    case Pop => 0x01
    case Ret => 0x02
    case BrTrue(_) => 0x03
    case BrFalse(_) => 0x04
    case Branch(_) => 0x05
    case LdU64(_) => 0x06
    case LdConst(_) => 0x07
    case LdTrue => 0x08
    case LdFalse => 0x09
    case CopyLoc(_) => 0x0A
    case MoveLoc(_) => 0x0B
    case StLoc(_) => 0x0C
    case MutBorrowLoc(_) => 0x0D
    case ImmBorrowLoc(_) => 0x0E
    case MutBorrowField(_) => 0x0F
    case ImmBorrowField(_) => 0x10
    case Call(_) => 0x11
    case Pack(_) => 0x12
    case Unpack(_) => 0x13
    case ReadRef => 0x14
    case WriteRef => 0x15
  }

  function BasicOperands(i: Bytecode): Operands
    requires IsBasic(i)
  {
    match i
    case Pop | Ret | LdTrue | LdFalse | ReadRef | WriteRef => Nothing
    case BrTrue(_) | BrFalse(_) | Branch(_) => Index(i.offset, TABLE_INDEX_MAX)
    case LdU64(_) => Value(i.value, 8)
    case LdConst(_) => Index(i.constant, TABLE_INDEX_MAX)
    case CopyLoc(_) | MoveLoc(_) | StLoc(_) | MutBorrowLoc(_) | ImmBorrowLoc(_) => Index(i.local, LOCAL_INDEX_MAX)
    case MutBorrowField(_) | ImmBorrowField(_) => Index(i.field, TABLE_INDEX_MAX)
    case Call(_) => Index(i.func, TABLE_INDEX_MAX)
    case Pack(_) | Unpack(_) => Index(i.def, TABLE_INDEX_MAX)
  }

  predicate IsArithmetic(i: Bytecode) {
    i.Add? || i.Sub? || i.Mul? || i.Mod? || i.Div? || i.BitOr? || i.BitAnd? || i.Xor? || i.Or? || i.And?
    || i.Not? || i.Eq? || i.Neq? || i.Lt? || i.Gt? || i.Le? || i.Ge? || i.Abort? || i.Nop?
  }

  function ArithmeticCode(i: Bytecode): Byte
    requires IsArithmetic(i)
  {
    match i
    case Add => 0x16
    case Sub => 0x17
    case Mul => 0x18
    case Mod => 0x19
    case Div => 0x1A
    case BitOr => 0x1B
    case BitAnd => 0x1C
    case Xor => 0x1D
    case Or => 0x1E
    case And => 0x1F
    case Not => 0x20
    case Eq => 0x21
    case Neq => 0x22
    case Lt => 0x23
    case Gt => 0x24
    case Le => 0x25
    case Ge => 0x26
    case Abort => 0x27
    case Nop => 0x28
  }

  predicate IsGlobal(i: Bytecode) {
    i.Exists? || i.MutBorrowGlobal? || i.ImmBorrowGlobal? || i.MoveFrom? || i.MoveTo? || i.FreezeRef? || i.Shl?
    || i.Shr? || i.LdU8? || i.LdU128? || i.CastU8? || i.CastU64? || i.CastU128?
  }

  function GlobalCode(i: Bytecode): Byte
    requires IsGlobal(i)
  {
    match i
    case Exists(_) => 0x29
    case MutBorrowGlobal(_) => 0x2A
    case ImmBorrowGlobal(_) => 0x2B
    case MoveFrom(_) => 0x2C
    case MoveTo(_) => 0x2D
    case FreezeRef => 0x2E
    case Shl => 0x2F
    case Shr => 0x30
    case LdU8(_) => 0x31
    case LdU128(_) => 0x32
    case CastU8 => 0x33
    case CastU64 => 0x34
    case CastU128 => 0x35
  }

  function GlobalOperands(i: Bytecode): Operands
    requires IsGlobal(i)
  {
    match i
    case Exists(_) | MutBorrowGlobal(_) | ImmBorrowGlobal(_) | MoveFrom(_) | MoveTo(_) => Index(i.def, TABLE_INDEX_MAX)
    case FreezeRef | Shl | Shr | CastU8 | CastU64 | CastU128 => Nothing
    case LdU8(_) => Value(i.value, 1)
    case LdU128(_) => Value(i.value, 16)
  }

  predicate IsGeneric(i: Bytecode) {
    i.MutBorrowFieldGeneric? || i.ImmBorrowFieldGeneric? || i.CallGeneric? || i.PackGeneric? || i.UnpackGeneric?
    || i.ExistsGeneric? || i.MutBorrowGlobalGeneric? || i.ImmBorrowGlobalGeneric? || i.MoveFromGeneric?
    || i.MoveToGeneric?
  }

  function GenericCode(i: Bytecode): Byte
    requires IsGeneric(i)
  {
    match i
    case MutBorrowFieldGeneric(_) => 0x36
    case ImmBorrowFieldGeneric(_) => 0x37
    case CallGeneric(_) => 0x38
    case PackGeneric(_) => 0x39
    case UnpackGeneric(_) => 0x3A
    case ExistsGeneric(_) => 0x3B
    case MutBorrowGlobalGeneric(_) => 0x3C
    case ImmBorrowGlobalGeneric(_) => 0x3D
    case MoveFromGeneric(_) => 0x3E
    case MoveToGeneric(_) => 0x3F
  }

  function GenericOperands(i: Bytecode): Operands
    requires IsGeneric(i)
  {
    match i
    case MutBorrowFieldGeneric(_) | ImmBorrowFieldGeneric(_) => Index(i.fieldInst, TABLE_INDEX_MAX)
    case CallGeneric(_) => Index(i.funcInst, TABLE_INDEX_MAX)
    case PackGeneric(_) | UnpackGeneric(_) | ExistsGeneric(_) | MutBorrowGlobalGeneric(_)
      | ImmBorrowGlobalGeneric(_) | MoveFromGeneric(_) | MoveToGeneric(_) => Index(i.defInst, TABLE_INDEX_MAX)
  }

  predicate IsVector(i: Bytecode) {
    i.VecPack? || i.VecLen? || i.VecImmBorrow? || i.VecMutBorrow? || i.VecPushBack? || i.VecPopBack?
    || i.VecUnpack? || i.VecSwap?
  }

  function VectorCode(i: Bytecode): Byte
    requires IsVector(i)
  {
    match i
    case VecPack(_, _) => 0x40
    case VecLen(_) => 0x41
    case VecImmBorrow(_) => 0x42
    case VecMutBorrow(_) => 0x43
    case VecPushBack(_) => 0x44
    case VecPopBack(_) => 0x45
    case VecUnpack(_, _) => 0x46
    case VecSwap(_) => 0x47
  }

  function VectorOperands(i: Bytecode): Operands
    requires IsVector(i)
  {
    match i
    case VecPack(_, _) | VecUnpack(_, _) => IndexAndCount(i.sig, i.count)
    case VecLen(_) | VecImmBorrow(_) | VecMutBorrow(_) | VecPushBack(_) | VecPopBack(_) | VecSwap(_) =>
      Index(i.sig, TABLE_INDEX_MAX)
  }

  function Opcode(i: Bytecode): Byte {
    if IsBasic(i) then BasicCode(i)
    else if IsArithmetic(i) then ArithmeticCode(i)
    else if IsGlobal(i) then GlobalCode(i)
    else if IsGeneric(i) then GenericCode(i)
    else VectorCode(i)
  }

  function OperandsOf(i: Bytecode): Operands {
    if IsBasic(i) then BasicOperands(i)
    else if IsArithmetic(i) then Nothing
    else if IsGlobal(i) then GlobalOperands(i)
    else if IsGeneric(i) then GenericOperands(i)
    else VectorOperands(i)
  }

  function MakeBasic(op: nat, a: nat): Option<Bytecode> {
    match op
    case 0x01 => Some(Pop)
    case 0x02 => Some(Ret)
    case 0x03 => Some(BrTrue(a))
    case 0x04 => Some(BrFalse(a))
    case 0x05 => Some(Branch(a))
    case 0x06 => Some(LdU64(a))
    case 0x07 => Some(LdConst(a))
    case 0x08 => Some(LdTrue)
    case 0x09 => Some(LdFalse)
    case 0x0A => Some(CopyLoc(a))
    case 0x0B => Some(MoveLoc(a))
    case 0x0C => Some(StLoc(a))
    case 0x0D => Some(MutBorrowLoc(a))
    case 0x0E => Some(ImmBorrowLoc(a))
    case 0x0F => Some(MutBorrowField(a))
    case 0x10 => Some(ImmBorrowField(a))
    case 0x11 => Some(Call(a))
    case 0x12 => Some(Pack(a))
    case 0x13 => Some(Unpack(a))
    case 0x14 => Some(ReadRef)
    case 0x15 => Some(WriteRef)
    case _ => None
  }

  function MakeArithmetic(op: nat): Option<Bytecode> {
    match op
    case 0x16 => Some(Add)
    case 0x17 => Some(Sub)
    case 0x18 => Some(Mul)
    case 0x19 => Some(Mod)
    case 0x1A => Some(Div)
    case 0x1B => Some(BitOr)
    case 0x1C => Some(BitAnd)
    case 0x1D => Some(Xor)
    case 0x1E => Some(Or)
    case 0x1F => Some(And)
    case 0x20 => Some(Not)
    case 0x21 => Some(Eq)
    case 0x22 => Some(Neq)
    case 0x23 => Some(Lt)
    case 0x24 => Some(Gt)
    case 0x25 => Some(Le)
    case 0x26 => Some(Ge)
    case 0x27 => Some(Abort)
    case 0x28 => Some(Nop)
    case _ => None
  }

  function MakeGlobal(op: nat, a: nat): Option<Bytecode> {
    match op
    case 0x29 => Some(Exists(a))
    case 0x2A => Some(MutBorrowGlobal(a))
    case 0x2B => Some(ImmBorrowGlobal(a))
    case 0x2C => Some(MoveFrom(a))
    case 0x2D => Some(MoveTo(a))
    case 0x2E => Some(FreezeRef)
    case 0x2F => Some(Shl)
    case 0x30 => Some(Shr)
    case 0x31 => Some(LdU8(a))
    case 0x32 => Some(LdU128(a))
    case 0x33 => Some(CastU8)
    case 0x34 => Some(CastU64)
    case 0x35 => Some(CastU128)
    case _ => None
  }

  function MakeGeneric(op: nat, a: nat): Option<Bytecode> {
    match op
    case 0x36 => Some(MutBorrowFieldGeneric(a))
    case 0x37 => Some(ImmBorrowFieldGeneric(a))
    case 0x38 => Some(CallGeneric(a))
    case 0x39 => Some(PackGeneric(a))
    case 0x3A => Some(UnpackGeneric(a))
    case 0x3B => Some(ExistsGeneric(a))
    case 0x3C => Some(MutBorrowGlobalGeneric(a))
    case 0x3D => Some(ImmBorrowGlobalGeneric(a))
    case 0x3E => Some(MoveFromGeneric(a))
    case 0x3F => Some(MoveToGeneric(a))
    case _ => None
  }

  function MakeVector(op: nat, a: nat, b: nat): Option<Bytecode> {
    match op
    case 0x40 => Some(VecPack(a, b))
    case 0x41 => Some(VecLen(a))
    case 0x42 => Some(VecImmBorrow(a))
    case 0x43 => Some(VecMutBorrow(a))
    case 0x44 => Some(VecPushBack(a))
    case 0x45 => Some(VecPopBack(a))
    case 0x46 => Some(VecUnpack(a, b))
    case 0x47 => Some(VecSwap(a))
    case _ => None
  }

  /** The instruction with the given opcode and operands, if there is one. */
  function Make(op: nat, a: nat, b: nat): Option<Bytecode> {
    if op < 0x16 then MakeBasic(op, a)
    else if op < 0x29 then MakeArithmetic(op)
    else if op < 0x36 then MakeGlobal(op, a)
    else if op < 0x40 then MakeGeneric(op, a)
    else MakeVector(op, a, b)
  }

  /** What kind of operands follows an opcode. */
  function Shape(op: nat): Operands {
    if op < 0x03 || 0x14 <= op < 0x29 then Nothing
    else if op < 0x16 then ShapeBasic(op)
    else if op < 0x36 then ShapeGlobal(op)
    else if op == 0x40 || op == 0x46 then IndexAndCount(0, 0)
    else Index(0, TABLE_INDEX_MAX)
  }

  function ShapeBasic(op: nat): Operands {
    if op == 0x06 then Value(0, 8)
    else if op == 0x08 || op == 0x09 then Nothing
    else if 0x0A <= op <= 0x0E then Index(0, LOCAL_INDEX_MAX)
    else Index(0, TABLE_INDEX_MAX)
  }

  function ShapeGlobal(op: nat): Operands {
    if op <= 0x2D then Index(0, TABLE_INDEX_MAX)
    else if op == 0x31 then Value(0, 1)
    else if op == 0x32 then Value(0, 16)
    else Nothing
  }

  /** The operands as two numbers. */
  function First(operands: Operands): nat {
    match operands
    case Nothing => 0
    case Index(index, _) => index
    case Value(value, _) => value
    case IndexAndCount(index, _) => index
  }

  function Second(operands: Operands): nat {
    if operands.IndexAndCount? then operands.count else 0
  }

  /** The operands without their numbers. */
  function Blank(operands: Operands): Operands {
    match operands
    case Nothing => Nothing
    case Index(_, max) => Index(0, max)
    case Value(_, size) => Value(0, size)
    case IndexAndCount(_, _) => IndexAndCount(0, 0)
  }

  /** The opcode tells which operands follow, and with them gives back the instruction. */
  ghost predicate Decodes(i: Bytecode, opcode: Byte, operands: Operands) {
    Shape(opcode) == Blank(operands) && Make(opcode, First(operands), Second(operands)) == Some(i)
  }

  lemma DecodeBasic(i: Bytecode)
    requires IsBasic(i)
    ensures Decodes(i, BasicCode(i), BasicOperands(i))
  {
  }

  lemma DecodeArithmetic(i: Bytecode)
    requires IsArithmetic(i)
    ensures Decodes(i, ArithmeticCode(i), Nothing)
  {
  }

  lemma DecodeGlobal(i: Bytecode)
    requires IsGlobal(i)
    ensures Decodes(i, GlobalCode(i), GlobalOperands(i))
  {
  }

  lemma DecodeGeneric(i: Bytecode)
    requires IsGeneric(i)
    ensures Decodes(i, GenericCode(i), GenericOperands(i))
  {
  }

  lemma DecodeVector(i: Bytecode)
    requires IsVector(i)
    ensures Decodes(i, VectorCode(i), VectorOperands(i))
  {
  }

  lemma MadeAgain(i: Bytecode)
    ensures Decodes(i, Opcode(i), OperandsOf(i))
  {
    if IsBasic(i) {
      DecodeBasic(i);
    } else if IsArithmetic(i) {
      DecodeArithmetic(i);
    } else if IsGlobal(i) {
      DecodeGlobal(i);
    } else if IsGeneric(i) {
      DecodeGeneric(i);
    } else {
      DecodeVector(i);
    }
  }

  function OperandItems(operands: Operands, rest: Items): Items {
    match operands
    case Nothing => rest
    case Index(index, max) => Num(index, max, rest)
    case Value(value, size) => Word(value, size, rest)
    case IndexAndCount(index, count) => Num(index, TABLE_INDEX_MAX, Word(count, 8, rest))
  }

  function InstructionItems(i: Bytecode, rest: Items): Items {
    Word(Opcode(i), 1, OperandItems(OperandsOf(i), rest))
  }

  method WriteMade(binary: seq<Byte>, opcode: Byte, operands: Operands, ghost rest: Items)
    returns (r: Result<seq<Byte>, Error>)
    ensures Wrote(binary, Word(opcode, 1, OperandItems(operands, rest)), rest, r)
  {
    var written := WriteWord(binary, opcode, 1, OperandItems(operands, rest));
    match operands {
      case Nothing => r := Ok(written);
      case Index(index, max) => r := WriteNum(written, index, max, rest);
      case Value(value, size) => {
        written := WriteWord(written, value, size, rest);
        r := Ok(written);
      }
      case IndexAndCount(index, count) => {
        written :- WriteNum(written, index, TABLE_INDEX_MAX, Word(count, 8, rest));
        written := WriteWord(written, count, 8, rest);
        r := Ok(written);
      }
    }
  }

  method WriteInstruction(binary: seq<Byte>, i: Bytecode, ghost rest: Items) returns (r: Result<seq<Byte>, Error>)
    ensures Wrote(binary, InstructionItems(i, rest), rest, r)
  {
    r := WriteMade(binary, Opcode(i), OperandsOf(i), rest);
  }

  // ---------------------------------------------------------------------------------------------
  // Reading
  // ---------------------------------------------------------------------------------------------

  /** The operands with their numbers filled in. */
  function WithNumbers(shape: Operands, a: nat, b: nat): Operands {
    match shape
    case Nothing => Nothing
    case Index(_, max) => Index(a, max)
    case Value(_, size) => Value(a, size)
    case IndexAndCount(_, _) => IndexAndCount(a, b)
  }

  lemma MadeBasic(op: nat, a: nat, b: nat)
    requires MakeBasic(op, a).Some?
    ensures var i := MakeBasic(op, a).value;
            IsBasic(i) && BasicCode(i) == op && BasicOperands(i) == WithNumbers(Shape(op), a, b)
  {
  }

  lemma MadeArithmetic(op: nat, a: nat, b: nat)
    requires MakeArithmetic(op).Some?
    ensures var i := MakeArithmetic(op).value;
            IsArithmetic(i) && ArithmeticCode(i) == op && Nothing == WithNumbers(Shape(op), a, b)
  {
  }

  lemma MadeGlobal(op: nat, a: nat, b: nat)
    requires MakeGlobal(op, a).Some?
    ensures var i := MakeGlobal(op, a).value;
            IsGlobal(i) && GlobalCode(i) == op && GlobalOperands(i) == WithNumbers(Shape(op), a, b)
  {
  }

  lemma MadeGeneric(op: nat, a: nat, b: nat)
    requires MakeGeneric(op, a).Some?
    ensures var i := MakeGeneric(op, a).value;
            IsGeneric(i) && GenericCode(i) == op && GenericOperands(i) == WithNumbers(Shape(op), a, b)
  {
  }

  lemma MadeVector(op: nat, a: nat, b: nat)
    requires MakeVector(op, a, b).Some?
    ensures var i := MakeVector(op, a, b).value;
            IsVector(i) && VectorCode(i) == op && VectorOperands(i) == WithNumbers(Shape(op), a, b)
  {
  }

  /** An instruction that was made has the opcode and the operands that it was made from. */
  ghost predicate Remade(i: Bytecode, op: nat, a: nat, b: nat) {
    Opcode(i) == op && OperandsOf(i) == WithNumbers(Shape(op), a, b)
  }

  lemma RemadeGlobal(i: Bytecode, op: nat, a: nat, b: nat)
    requires 0x29 <= op && MakeGlobal(op, a) == Some(i)
    ensures Remade(i, op, a, b)
  {
    MadeGlobal(op, a, b);
  }

  lemma RemadeGeneric(i: Bytecode, op: nat, a: nat, b: nat)
    requires MakeGeneric(op, a) == Some(i)
    ensures Remade(i, op, a, b)
  {
    MadeGeneric(op, a, b);
  }

  lemma RemadeVector(i: Bytecode, op: nat, a: nat, b: nat)
    requires MakeVector(op, a, b) == Some(i)
    ensures Remade(i, op, a, b)
  {
    MadeVector(op, a, b);
  }

  lemma MadeFrom(i: Bytecode, op: nat, a: nat, b: nat)
    requires Make(op, a, b) == Some(i)
    ensures Remade(i, op, a, b)
  {
    if op < 0x16 {
      MadeBasic(op, a, b);
    } else if op < 0x29 {
      MadeArithmetic(op, a, b);
    } else if op < 0x36 {
      RemadeGlobal(i, op, a, b);
    } else if op < 0x40 {
      RemadeGeneric(i, op, a, b);
    } else {
      RemadeVector(i, op, a, b);
    }
  }

  lemma InstructionTakes(i: Bytecode, op: Byte, operands: Operands, n: int)
    requires Opcode(i) == op && OperandsOf(i) == operands
    requires Takes(Word(op, 1, End), 1) && Takes(OperandItems(operands, End), n)
    ensures Takes(InstructionItems(i, End), 1 + n)
  {
    Then(Word(op, 1, End), OperandItems(operands, End), InstructionItems(i, End), 1, n);
  }

  /** Reads the operands that follow an opcode, as two numbers. */
  method LoadOperands(binary: seq<Byte>, position: nat, shape: Operands, ghost operands: Operands, ghost rest: Items)
    returns (r: Result<(nat, nat, nat), Error>)
    requires position <= |binary| && (shape.Value? ==> shape.size > 0)
    ensures r.Ok? ==> position <= r.value.2 <= |binary|
    ensures r.Ok? ==> Takes(OperandItems(WithNumbers(shape, r.value.0, r.value.1), End), r.value.2 - position)
    ensures shape == Blank(operands) && Here(binary, position, OperandItems(operands, rest)) ==>
              r.Ok? && r.value.0 == First(operands) && r.value.1 == Second(operands) && Here(binary, r.value.2, rest)
  {
    match shape {
      case Nothing => r := Ok((0, 0, position));
      case Index(_, max) => {
        var n :- LoadNum(binary, position, max, First(operands), rest);
        r := Ok((n.0, 0, n.1));
      }
      case Value(_, size) => {
        var n :- LoadWord(binary, position, size, First(operands), rest);
        r := Ok((n.0, 0, n.1));
      }
      case IndexAndCount(_, _) => {
        var n :- LoadNum(binary, position, TABLE_INDEX_MAX, First(operands), Word(Second(operands), 8, rest));
        var count :- LoadWord(binary, n.1, 8, Second(operands), rest);
        Then(Num(n.0, TABLE_INDEX_MAX, End), Word(count.0, 8, End), OperandItems(IndexAndCount(n.0, count.0), End),
             n.1 - position, 8);
        r := Ok((n.0, count.0, count.1));
      }
    }
  }

  /** Reads an instruction that is given by its opcode and operands. */
  method LoadMade(
    binary: seq<Byte>, position: nat, ghost i: Bytecode, ghost opcode: Byte, ghost operands: Operands,
    ghost rest: Items)
    returns (r: Result<(Bytecode, nat), Error>)
    requires position <= |binary|
    requires Decodes(i, opcode, operands)
    ensures Loaded(binary, position, Word(opcode, 1, OperandItems(operands, rest)), i, rest, r)
    ensures r.Ok? ==> Takes(InstructionItems(r.value.0, End), r.value.1 - position)
  {
    var op :- LoadWord(binary, position, 1, opcode, OperandItems(operands, rest));
    var shape := Shape(op.0);
    var numbers :- LoadOperands(binary, op.1, shape, operands, rest);
    var made := Make(op.0, numbers.0, numbers.1);
    if made.None? {
      return Err(Malformed);
    }
    MadeFrom(made.value, op.0, numbers.0, numbers.1);
    InstructionTakes(made.value, op.0, WithNumbers(shape, numbers.0, numbers.1), numbers.2 - op.1);
    r := Ok((made.value, numbers.2));
  }

  method LoadInstruction(binary: seq<Byte>, position: nat, ghost i: Bytecode, ghost rest: Items)
    returns (r: Result<(Bytecode, nat), Error>)
    requires position <= |binary|
    ensures Loaded(binary, position, InstructionItems(i, rest), i, rest, r)
    ensures r.Ok? ==> Takes(InstructionItems(r.value.0, End), r.value.1 - position)
  {
    MadeAgain(i);
    r := LoadMade(binary, position, i, Opcode(i), OperandsOf(i), rest);
  }
}
