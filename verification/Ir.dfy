/**
  The instructions of the intermediate representation.
 */
module Ir {
  import opened Cfg

  /** The class of the object a `Value *` points to, as far as `dynamic_cast` is asked about it. */
  datatype Kind = AllocaInst(scalar: bool) | GetElementPtrInst | OtherInst

  datatype Value =
    | ConstantInt(n: int)
    | Argument(k: nat)
    | GlobalVariable(name: nat)
    | Result(id: nat, kind: Kind)

  datatype Op =
    | Alloca(scalar: bool)
    | Load
    | Store
    | Phi(lval: Value)
    | Gep
    | Call(callee: nat)
    | Compute(opcode: nat)
    | Br
    | CondBr
    | Ret

  /** An instruction: its identity, operation, value operands and block operands.
      A store has the operands value, address; the k-th operand of a phi belongs to
      the predecessor labels[k]. */
  datatype Instr = Instr(id: nat, op: Op, args: seq<Value>, labels: seq<Block>)

  type Code = map<Block, seq<Instr>>

  function KindOf(op: Op): Kind {
    match op
    case Alloca(scalar) => AllocaInst(scalar)
    case Gep => GetElementPtrInst
    case _ => OtherInst
  }

  function ResultOf(i: Instr): Value {
    Result(i.id, KindOf(i.op))
  }

  predicate HasResult(op: Op) {
    !op.Store? && !op.Br? && !op.CondBr? && !op.Ret?
  }

  predicate IsTerminator(i: Instr) {
    i.op.Br? || i.op.CondBr? || i.op.Ret?
  }

  /** Neither a global variable nor an element address: what Mem2Reg and the code
      generator take for the address of a local variable. */
  predicate IsLocal(addr: Value) {
    !addr.GlobalVariable? && !(addr.Result? && addr.kind.GetElementPtrInst?)
  }

  /** What the code generator loads from and stores to. */
  predicate AddressOk(v: Value) {
    v.GlobalVariable? || (v.Result? && (v.kind.GetElementPtrInst? || v.kind.AllocaInst?))
  }

  predicate LoadsLocal(i: Instr) {
    i.op.Load? && |i.args| == 1 && IsLocal(i.args[0])
  }

  predicate StoresLocal(i: Instr) {
    i.op.Store? && |i.args| == 2 && IsLocal(i.args[1])
  }
}
