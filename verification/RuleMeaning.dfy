/**
 What the type rules mean: an instruction is accepted exactly if all values of the operand types are what the machine
 demands, and the types have the abilities that the instruction uses.
 */
module RuleMeaning {
  import opened Abilities
  import opened Bytecodes
  import opened FileFormat
  import opened InstructionMachine
  import opened StackUsage
  import opened TypeRules
  import opened TypeSafety
  import opened TypedMachine
  import opened VectorSafety
  import opened Wrappers
  import TypeAbilities

  // ---------------------------------------------------------------------------------------------
  // Values that tell their type
  // ---------------------------------------------------------------------------------------------

  /** The value has this type, and no other. */
  ghost predicate Tells(env: Env, v: Value, t: SignatureToken) {
    HasType(env, v, t) && forall u | HasType(env, v, u) :: u == t
  }

  ghost predicate AllTell(env: Env, vs: seq<Value>, ts: seq<SignatureToken>) {
    |vs| == |ts| && forall i | 0 <= i < |vs| :: Tells(env, vs[i], ts[i])
  }

  lemma {:induction false} TellingValue(env: Env, t: SignatureToken) returns (v: Value)
    requires Populated(env, t)
    ensures Tells(env, v, t)
    decreases t
  {
    if t.Vector? {
      var w := TellingValue(env, t.elem);
      v := VectorValue([w]);
      forall u | HasType(env, v, u) ensures u == t {
        assert HasType(env, v.items[0], u.elem);
      }
    } else {
      v := SomeValue(env, t);
      forall u | HasType(env, v, u) ensures u == t {
        OneType(env, v, t, u);
      }
    }
  }

  lemma {:induction false} TellingValues(env: Env, ts: seq<SignatureToken>) returns (vs: seq<Value>)
    requires forall i | 0 <= i < |ts| :: Populated(env, ts[i])
    ensures AllTell(env, vs, ts)
    decreases |ts|
  {
    if ts == [] {
      vs := [];
    } else {
      var v := TellingValue(env, ts[0]);
      var rest := TellingValues(env, ts[1..]);
      vs := [v] + rest;
    }
  }

  lemma TellingIsTyped(env: Env, vs: seq<Value>, ts: seq<SignatureToken>)
    requires AllTell(env, vs, ts)
    ensures AllHaveType(env, vs, ts)
    ensures forall us | AllHaveType(env, vs, us) :: us == ts
  {
    assert forall i | 0 <= i < |vs| :: Tells(env, vs[i], ts[i]);
  }

  lemma TellingReference(env: Env, v: Value, t: SignatureToken)
    requires Tells(env, v, t) && v.RefValue?
    ensures t == ReferenceTo(v.isMutable, v.target)
  {
    assert HasType(env, v, ReferenceTo(v.isMutable, v.target));
  }

  /** A type whose values have no parts. */
  predicate IsBasic(t: SignatureToken) {
    t.Bool? || t.U8? || t.U64? || t.U128? || t.Address? || t.Signer?
  }

  lemma TellingScalar(env: Env, v: Value, t: SignatureToken)
    requires Tells(env, v, t) && v.Scalar? && IsBasic(v.type_)
    ensures t == v.type_
  {
    assert HasType(env, v, v.type_);
  }

  // ---------------------------------------------------------------------------------------------
  // Abilities that are used
  // ---------------------------------------------------------------------------------------------

  /** The type has the ability, as spelled out for each kind of type. */
  predicate Can(env: Env, t: SignatureToken, a: Ability) {
    && TypeAbilities.WellFormed(env.m.structHandles, t, |env.typeParameters|)
    && TypeAbilities.MayDo(env.m.structHandles, t, env.typeParameters, a)
  }

  lemma CanIff(env: Env, t: SignatureToken, a: Ability)
    ensures TypeHas(env, t, a) <==> Can(env, t, a)
  {
    if TypeAbilities.WellFormed(env.m.structHandles, t, |env.typeParameters|) {
      TypeAbilities.HasIff(env.m.structHandles, t, env.typeParameters, a);
    }
  }

  /** Instructions that put into, take from, borrow from or look into the storage. */
  predicate UsesStorage(instr: Bytecode) {
    UsesStruct(instr) && !IsMaking(instr)
  }

  /** What the instruction uses, whatever its operands: stored structs have Key, no local reference is borrowed. */
  predicate PlaceAllowed(env: Env, instr: Bytecode) {
    if UsesStorage(instr) then Can(env, UsedType(env.m, instr), Key)
    else
      match instr
      case CopyLoc(i) => Can(env, Local(env, i), Copy)
      case MutBorrowLoc(i) => !Local(env, i).Reference? && !Local(env, i).MutableReference?
      case ImmBorrowLoc(i) => !Local(env, i).Reference? && !Local(env, i).MutableReference?
      case _ => true
  }

  /** What is discarded, compared or overwritten has Drop, what is read has Copy. */
  predicate OperandsAllowed(env: Env, instr: Bytecode, ts: seq<SignatureToken>) {
    match instr
    case Pop => |ts| > 0 ==> Can(env, ts[0], Drop)
    case Eq | Neq => |ts| > 0 ==> Can(env, ts[0], Drop)
    case ReadRef => |ts| > 0 && IsReference(ts[0]) ==> Can(env, ts[0].inner, Copy)
    case WriteRef => |ts| > 1 && IsReference(ts[1]) ==> Can(env, ts[1].inner, Drop)
    case _ => true
  }

  /** The same for operations. */
  predicate PlaceHas(env: Env, op: Operation) {
    match op
    case CopyLocal(i) => TypeHas(env, LocalAt(env, i), Copy)
    case BorrowLocal(_, i) => !IsReference(LocalAt(env, i))
    case BorrowGlobal(_, d, typeArgs) => TypeHas(env, StructType(env, d, typeArgs), Key)
    case CheckExists(d, typeArgs) => TypeHas(env, StructType(env, d, typeArgs), Key)
    case TakeGlobal(d, typeArgs) => TypeHas(env, StructType(env, d, typeArgs), Key)
    case PutGlobal(d, typeArgs) => TypeHas(env, StructType(env, d, typeArgs), Key)
    case _ => true
  }

  predicate OperandsHave(env: Env, op: Operation, ts: seq<SignatureToken>) {
    match op
    case Discard => |ts| > 0 ==> TypeHas(env, ts[0], Drop)
    case Equality => |ts| > 0 ==> TypeHas(env, ts[0], Drop)
    case Read => |ts| > 0 && IsReference(ts[0]) ==> TypeHas(env, ts[0].inner, Copy)
    case Write => |ts| > 1 && IsReference(ts[1]) ==> TypeHas(env, ts[1].inner, Drop)
    case _ => true
  }

  // ---------------------------------------------------------------------------------------------
  // Operations
  // ---------------------------------------------------------------------------------------------

  /** An operation that is accepted uses what it may. */
  lemma AcceptedUses(env: Env, op: Operation, ts: seq<SignatureToken>)
    requires |ts| == OperationEffect(env, op).pops && Results(env, op, ts).Some?
    ensures PlaceHas(env, op) && OperandsHave(env, op, ts)
  {
  }

  predicate TakesReference(op: Operation) {
    op.Freeze? || op.BorrowField? || op.Read? || op.Write?
  }

  predicate TakesVector(op: Operation) {
    || op.Length? || op.BorrowElement? || op.PushBack? || op.PopBack? || op.Swap?
  }

  predicate TakesAll(op: Operation) {
    op.Return? || op.Invoke? || op.Assemble? || op.StoreLocal? || op.Discard? || op.Equality? || op.DismantleVector?
  }

  lemma ReferencesAccepted(env: Env, op: Operation, ts: seq<SignatureToken>, vs: seq<Value>)
    requires TakesReference(op) && AllTell(env, vs, ts) && Fits(env, op, vs) && OperandsHave(env, op, ts)
    ensures |ts| == OperationEffect(env, op).pops && Results(env, op, ts).Some?
  {
    if op.Write? {
      TellingReference(env, vs[1], ts[1]);
      assert Tells(env, vs[0], ts[0]);
    } else {
      TellingReference(env, vs[0], ts[0]);
    }
  }

  lemma VectorsAccepted(env: Env, op: Operation, ts: seq<SignatureToken>, vs: seq<Value>)
    requires TakesVector(op) && AllTell(env, vs, ts) && Fits(env, op, vs)
    ensures |ts| == OperationEffect(env, op).pops && Results(env, op, ts).Some?
  {
    TellingReference(env, vs[0], ts[0]);
    if op.BorrowElement? {
      TellingScalar(env, vs[1], ts[1]);
    } else if op.PushBack? {
      assert Tells(env, vs[1], ts[1]);
    } else if op.Swap? {
      TellingScalar(env, vs[1], ts[1]);
      TellingScalar(env, vs[2], ts[2]);
    }
  }

  lemma AllAccepted(env: Env, op: Operation, ts: seq<SignatureToken>, vs: seq<Value>)
    requires TakesAll(op) && AllTell(env, vs, ts) && Fits(env, op, vs) && OperandsHave(env, op, ts)
    ensures |ts| == OperationEffect(env, op).pops && Results(env, op, ts).Some?
  {
    TellingIsTyped(env, vs, ts);
    if op.Equality? {
      var t :| HasType(env, vs[0], t) && HasType(env, vs[1], t);
      assert Tells(env, vs[0], ts[0]) && Tells(env, vs[1], ts[1]);
    } else if op.StoreLocal? || op.DismantleVector? {
      assert Tells(env, vs[0], ts[0]);
    }
  }

  /** Operations on scalars, and those without operands. */
  predicate TakesScalars(op: Operation) {
    !TakesReference(op) && !TakesVector(op) && !TakesAll(op) && !op.Dismantle? && !op.AssembleVector?
  }

  lemma ScalarsAccepted(env: Env, op: Operation, ts: seq<SignatureToken>, vs: seq<Value>)
    requires TakesScalars(op) && AllTell(env, vs, ts) && Fits(env, op, vs) && PlaceHas(env, op)
    ensures |ts| == OperationEffect(env, op).pops && Results(env, op, ts).Some?
  {
    if op.PutGlobal? {
      TellingReference(env, vs[0], ts[0]);
      assert Tells(env, vs[1], ts[1]);
    } else {
      if |ts| > 0 {
        TellingScalar(env, vs[0], ts[0]);
      }
      if |ts| > 1 {
        TellingScalar(env, vs[1], ts[1]);
      }
    }
  }

  /** Values of a struct without declared fields can have any number of them, and are not taken apart. */
  lemma NativesDoNotFit(env: Env, d: nat, typeArgs: Signature, t: SignatureToken) returns (v: Value)
    requires DefinitionsOk(env) && d < |env.m.structDefs| && FieldTypes(env, d, typeArgs).None?
    requires t == StructType(env, d, typeArgs)
    ensures HasType(env, v, t) && !Fits(env, Dismantle(d, typeArgs), [v])
  {
    v := StructValue(StructDefAt(env, d).structHandle, typeArgs, [Scalar(U8)]);
    StructHasType(env, v, v.handle, typeArgs);
  }

  lemma DismantleAccepted(env: Env, d: nat, typeArgs: Signature, t: SignatureToken, v: Value)
    requires DefinitionsOk(env) && d < |env.m.structDefs| && Tells(env, v, t)
    requires forall w | HasType(env, w, t) :: Fits(env, Dismantle(d, typeArgs), [w])
    ensures t == StructType(env, d, typeArgs) && FieldTypes(env, d, typeArgs).Some?
  {
    assert Fits(env, Dismantle(d, typeArgs), [v]);
    assert v.StructValue? && v.handle == StructDefAt(env, d).structHandle && v.typeArgs == typeArgs;
    StructHasType(env, v, v.handle, typeArgs);
    assert FieldsTyped(env, v);
    if FieldTypes(env, d, typeArgs).None? {
      var w := NativesDoNotFit(env, d, typeArgs, t);
    }
  }

  /** All values of these types are what the machine demands. */
  ghost predicate AllFit(env: Env, op: Operation, ts: seq<SignatureToken>) {
    forall vs | AllHaveType(env, vs, ts) :: Fits(env, op, vs)
  }

  lemma FitIsAccepted(env: Env, op: Operation, ts: seq<SignatureToken>)
    requires !op.AssembleVector? && DefinitionsOk(env) && OperationOk(env, op)
    requires forall i | 0 <= i < |ts| :: Populated(env, ts[i])
    requires AllFit(env, op, ts) && PlaceHas(env, op) && OperandsHave(env, op, ts)
    ensures |ts| == OperationEffect(env, op).pops && Results(env, op, ts).Some?
  {
    var vs := TellingValues(env, ts);
    TellingIsTyped(env, vs, ts);
    if TakesReference(op) {
      ReferencesAccepted(env, op, ts, vs);
    } else if TakesVector(op) {
      VectorsAccepted(env, op, ts, vs);
    } else if TakesAll(op) {
      AllAccepted(env, op, ts, vs);
    } else if op.Dismantle? {
      forall w | HasType(env, w, ts[0]) ensures Fits(env, op, [w]) {
        assert AllHaveType(env, [w], ts);
      }
      DismantleAccepted(env, op.def, op.typeArgs, ts[0], vs[0]);
    } else {
      ScalarsAccepted(env, op, ts, vs);
    }
  }

  /** A rule accepts exactly if all values of the types are what the machine demands, and may be used so. */
  lemma AcceptedIff(env: Env, op: Operation, ts: seq<SignatureToken>)
    requires !op.AssembleVector? && DefinitionsOk(env) && OperationOk(env, op)
    requires forall i | 0 <= i < |ts| :: Populated(env, ts[i])
    ensures RuleOf(env, op).results(ts).Some? <==> AllFit(env, op, ts) && PlaceHas(env, op) && OperandsHave(env, op, ts)
  {
    if RuleOf(env, op).results(ts).Some? {
      AcceptedUses(env, op, ts);
      forall vs | AllHaveType(env, vs, ts) ensures Fits(env, op, vs) {
        RuleFits(env, op, ts, vs);
      }
    }
    if AllFit(env, op, ts) && PlaceHas(env, op) && OperandsHave(env, op, ts) {
      FitIsAccepted(env, op, ts);
    }
  }

  // ---------------------------------------------------------------------------------------------
  // Instructions
  // ---------------------------------------------------------------------------------------------

  /** Most instructions use nothing. */
  predicate UsesNothing(env: Env, instr: Bytecode, ts: seq<SignatureToken>) {
    && PlaceHas(env, Decode(env, instr)) && OperandsHave(env, Decode(env, instr), ts)
    && PlaceAllowed(env, instr) && OperandsAllowed(env, instr, ts)
  }

  lemma NumbersUse(env: Env, instr: Bytecode, ts: seq<SignatureToken>)
    requires IsArithmetic(instr) || IsLoadOrCast(instr)
    ensures UsesNothing(env, instr, ts)
  {
  }

  lemma StructsUse(env: Env, instr: Bytecode, ts: seq<SignatureToken>)
    requires IsMaking(instr) || UsesField(instr) || IsCall(instr)
    ensures UsesNothing(env, instr, ts)
  {
  }

  lemma VectorsUse(env: Env, instr: Bytecode, ts: seq<SignatureToken>)
    requires IsVector(instr)
    ensures UsesNothing(env, instr, ts)
  {
  }

  lemma LogicUses(env: Env, instr: Bytecode, ts: seq<SignatureToken>)
    requires IsLogic(instr)
    ensures PlaceHas(env, Decode(env, instr)) && PlaceAllowed(env, instr)
    ensures OperandsHave(env, Decode(env, instr), ts) <==> OperandsAllowed(env, instr, ts)
  {
    if |ts| > 0 {
      CanIff(env, ts[0], Drop);
    }
  }

  lemma ControlUses(env: Env, instr: Bytecode)
    requires IsLocalOrControl(instr) && !IsLocal(instr)
    ensures PlaceHas(env, Decode(env, instr)) && PlaceAllowed(env, instr)
  {
  }

  lemma CopyUses(env: Env, i: nat)
    ensures PlaceHas(env, Decode(env, CopyLoc(i))) <==> PlaceAllowed(env, CopyLoc(i))
  {
    CanIff(env, Local(env, i), Copy);
  }

  lemma BorrowUses(env: Env, i: nat)
    ensures PlaceHas(env, Decode(env, MutBorrowLoc(i))) <==> PlaceAllowed(env, MutBorrowLoc(i))
    ensures PlaceHas(env, Decode(env, ImmBorrowLoc(i))) <==> PlaceAllowed(env, ImmBorrowLoc(i))
  {
  }

  lemma OtherLocalsUse(env: Env, instr: Bytecode)
    requires IsLocal(instr) && !instr.CopyLoc? && !instr.MutBorrowLoc? && !instr.ImmBorrowLoc?
    ensures PlaceHas(env, Decode(env, instr)) && PlaceAllowed(env, instr)
  {
  }

  lemma LocalsUse(env: Env, instr: Bytecode)
    requires IsLocal(instr)
    ensures PlaceHas(env, Decode(env, instr)) <==> PlaceAllowed(env, instr)
  {
    if instr.CopyLoc? {
      CopyUses(env, instr.local);
    } else if instr.MutBorrowLoc? || instr.ImmBorrowLoc? {
      BorrowUses(env, instr.local);
    } else {
      OtherLocalsUse(env, instr);
    }
  }

  lemma ReadsUse(env: Env, instr: Bytecode, ts: seq<SignatureToken>)
    requires IsLocal(instr)
    ensures OperandsHave(env, Decode(env, instr), ts) <==> OperandsAllowed(env, instr, ts)
  {
    if instr.ReadRef? && |ts| > 0 && IsReference(ts[0]) {
      CanIff(env, ts[0].inner, Copy);
    }
  }

  lemma PopUses(env: Env, ts: seq<SignatureToken>)
    ensures OperandsHave(env, Decode(env, Pop), ts) <==> OperandsAllowed(env, Pop, ts)
  {
    if |ts| > 0 {
      CanIff(env, ts[0], Drop);
    }
  }

  lemma WriteUses(env: Env, ts: seq<SignatureToken>)
    ensures OperandsHave(env, Decode(env, WriteRef), ts) <==> OperandsAllowed(env, WriteRef, ts)
  {
    if |ts| > 1 && IsReference(ts[1]) {
      CanIff(env, ts[1].inner, Drop);
    }
  }

  lemma JumpsUse(env: Env, instr: Bytecode, ts: seq<SignatureToken>)
    requires IsLocalOrControl(instr) && !IsLocal(instr) && !instr.Pop? && !instr.WriteRef?
    ensures OperandsHave(env, Decode(env, instr), ts) && OperandsAllowed(env, instr, ts)
  {
  }

  lemma StorageUses(env: Env, instr: Bytecode, ts: seq<SignatureToken>)
    requires UsesStorage(instr)
    ensures PlaceHas(env, Decode(env, instr)) <==> PlaceAllowed(env, instr)
    ensures OperandsHave(env, Decode(env, instr), ts) && OperandsAllowed(env, instr, ts)
  {
    CanIff(env, UsedType(env.m, instr), Key);
  }

  /** Decoding keeps what an instruction uses. */
  lemma UsesAgree(env: Env, instr: Bytecode, ts: seq<SignatureToken>)
    ensures PlaceHas(env, Decode(env, instr)) <==> PlaceAllowed(env, instr)
    ensures OperandsHave(env, Decode(env, instr), ts) <==> OperandsAllowed(env, instr, ts)
  {
    if UsesStorage(instr) {
      StorageUses(env, instr, ts);
    } else if IsMaking(instr) || UsesField(instr) || IsCall(instr) {
      StructsUse(env, instr, ts);
    } else if IsVector(instr) {
      VectorsUse(env, instr, ts);
    } else if IsLocalOrControl(instr) {
      if IsLocal(instr) {
        LocalsUse(env, instr);
        ReadsUse(env, instr, ts);
      } else {
        ControlUses(env, instr);
        if instr.Pop? {
          PopUses(env, ts);
        } else if instr.WriteRef? {
          WriteUses(env, ts);
        } else {
          JumpsUse(env, instr, ts);
        }
      }
    } else if IsLogic(instr) {
      LogicUses(env, instr, ts);
    } else {
      NumbersUse(env, instr, ts);
    }
  }

  /** All values of these types are what the instruction demands. */
  ghost predicate AllMeet(env: Env, instr: Bytecode, ts: seq<SignatureToken>) {
    forall vs | AllHaveType(env, vs, ts) :: Demands(env, instr, vs)
  }

  /**
   The type checker accepts an instruction on operands of these types exactly if all their values are what the
   instruction demands, and its operands and the places it uses have the abilities for it.
   */
  lemma InstructionAcceptedIff(env: Env, instr: Bytecode, ts: seq<SignatureToken>)
    requires !instr.VecPack? && DefinitionsOk(env) && InBounds(env.m, instr)
    requires forall i | 0 <= i < |ts| :: Populated(env, ts[i])
    ensures RuleFor(env)(instr).results(ts).Some? <==>
            AllMeet(env, instr, ts) && PlaceAllowed(env, instr) && OperandsAllowed(env, instr, ts)
  {
    var op := Decode(env, instr);
    DecodedOk(env, instr);
    OnlyVecPackAssembles(env, instr);
    AcceptedIff(env, op, ts);
    UsesAgree(env, instr, ts);
    forall vs | AllHaveType(env, vs, ts) ensures Fits(env, op, vs) <==> Demands(env, instr, vs) {
      DemandsAgree(env, instr, vs);
    }
    assert RuleFor(env)(instr) == RuleOf(env, op);
  }

  lemma OnlyVecPackAssembles(env: Env, instr: Bytecode)
    requires !instr.VecPack?
    ensures !Decode(env, instr).AssembleVector?
  {
  }
}
