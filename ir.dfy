/**
 * A small abstract IR standing in for the LLVM C API: types, values,
 * instructions, functions, globals, modules and an instruction builder.
 * Only what the code generator decides is represented; LLVM's own
 * internals (constant folding, verification, serialisation) are not.
 */
module IR {
  import opened Wrappers

  datatype IRType =
    | Int(width: nat)
    | Float
    | Double
    | FP128
    | Void
    | Ptr(pointee: IRType)
    | Array(element: IRType, length: nat)

  /** An LLVMTypeRef: NULL is None. */
  type TypeRef = Option<IRType>

  datatype Linkage = DefaultLinkage | ExternalLinkage | InternalLinkage

  /** The things an LLVMValueRef can point at in this model. */
  datatype Value =
    | Inst(id: nat)                     // result of the id-th built instruction
    | Param(owner: string, index: nat)     // the index-th argument of function owner
    | ConstInt(ty: IRType, bits: int)
    | ConstFloat(ty: IRType)            // the floating-point value itself is not modelled
    | GlobalAddr(index: nat)            // address of the index-th global of the module
    | Func(name: string)
    | TypeAsValue(ty: IRType)           // an LLVMTypeRef returned where a value is expected

  /**
   * The result of a lowering routine. Null is an explicit NULL/false return;
   * Indeterminate is what a C function returns when it reaches its end
   * without a return statement.
   */
  datatype ValueRef = Null | Ref(value: Value) | Indeterminate

  /** The C tests `if (v)` / `if (!v)`: only a real value counts as present. */
  predicate IsValue(r: ValueRef) { r.Ref? }

  datatype Opcode = Add | Sub | Mul | UDiv | FAdd | FSub | FMul | FDiv

  predicate IsFloatOpcode(op: Opcode) { op.FAdd? || op.FSub? || op.FMul? || op.FDiv? }

  datatype Instr =
    | Binary(op: Opcode, lhs: ValueRef, rhs: ValueRef)
    | Call(callee: string, args: seq<Value>)
    | Alloca(ty: TypeRef, name: string)
    | Store(val: ValueRef, ptr: Value)
    | Ret(val: ValueRef)

  datatype IRFunction = IRFunction(
    paramTypes: seq<TypeRef>,
    paramNames: seq<string>,
    returnType: TypeRef,
    linkage: Linkage,
    blocks: seq<string>)

  datatype Constant = StringConst(chars: string)

  datatype Global = Global(
    name: string,
    ty: TypeRef,
    constant: bool,
    linkage: Linkage,
    initializer: Option<Constant>)

  datatype IRModule = IRModule(
    name: string,
    functions: map<string, IRFunction>,
    globals: seq<Global>)

  /** A position at the end of a basic block, naming its module, function and block index. */
  datatype InsertPoint = InsertPoint(moduleName: string, functionName: string, block: nat)

  /** An instruction as built, with the position the builder held at the time. */
  datatype Placed = Placed(at: Option<InsertPoint>, instr: Instr)

  /** The LLVM builder: where it inserts, and every instruction it has built. */
  datatype Builder = Builder(insertPoint: Option<InsertPoint>, log: seq<Placed>)

  /** The part of the generator's state that lowering an expression can change. */
  datatype Emitter = Emitter(irModule: IRModule, builder: Builder)

  const EmptyBuilder: Builder := Builder(None, [])

  /** LLVMModuleCreateWithName. */
  function NewModule(name: string): (m: IRModule)
    ensures m.name == name && m.functions == map[] && m.globals == []
  {
    IRModule(name, map[], [])
  }

  /** Building one instruction: it is recorded at the current position and named by its log index. */
  function Build(b: Builder, ins: Instr): (r: (Builder, Value))
    ensures r.0.insertPoint == b.insertPoint
    ensures b.log < r.0.log && |r.0.log| == |b.log| + 1
    ensures r.1.Inst? && r.1.id == |b.log| && r.0.log[r.1.id] == Placed(b.insertPoint, ins)
  {
    (Builder(b.insertPoint, b.log + [Placed(b.insertPoint, ins)]), Inst(|b.log|))
  }

  /** LLVMPositionBuilderAtEnd. */
  function PositionAtEnd(b: Builder, at: InsertPoint): (r: Builder)
    ensures r.insertPoint == Some(at) && r.log == b.log
  {
    b.(insertPoint := Some(at))
  }

  /** LLVMAddGlobal: the new global goes last and its address names that position. */
  function AddGlobal(m: IRModule, g: Global): (r: (IRModule, Value))
    ensures r.0.name == m.name && r.0.functions == m.functions
    ensures r.0.globals == m.globals + [g]
    ensures r.1 == GlobalAddr(|m.globals|) && r.0.globals[r.1.index] == g
  {
    (m.(globals := m.globals + [g]), GlobalAddr(|m.globals|))
  }

  /** LLVMAppendBasicBlock on a function of the module; the result is the new block's index. */
  function AppendBlock(m: IRModule, fname: string, block: string): (r: (IRModule, nat))
    requires fname in m.functions
    ensures r.0.name == m.name && r.0.globals == m.globals
    ensures r.0.functions.Keys == m.functions.Keys
    ensures forall f :: f in m.functions && f != fname ==> r.0.functions[f] == m.functions[f]
    ensures r.0.functions[fname].blocks == m.functions[fname].blocks + [block]
    ensures r.1 == |m.functions[fname].blocks|
    ensures r.0.functions[fname] == m.functions[fname].(blocks := r.0.functions[fname].blocks)
  {
    var f := m.functions[fname];
    (m.(functions := m.functions[fname := f.(blocks := f.blocks + [block])]), |f.blocks|)
  }
}
