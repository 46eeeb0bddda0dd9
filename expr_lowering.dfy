/**
 * Expression lowering (genExpression and the routines it dispatches to),
 * stated as functions from the emitter state before to the emitter state
 * after, with the value the C routine returns.
 */
module ExprLowering {
  import opened Wrappers
  import opened IR
  import opened TypeMapper
  import opened Ast

  /** What the host and the unseen helpers contribute: `sizeof(int)` and getTypeFromString. */
  datatype Env = Env(sizeofInt: int, typeFromString: string -> DataType)

  /** The symbol table namedValues: identifier to bound value. */
  type Names = map<string, Value>

  /** The only instructions expression lowering builds: integer arithmetic and calls. */
  predicate BuildsOnlyIntArithAndCalls(log: seq<Placed>, from: nat)
  {
    forall k :: from <= k < |log| ==>
      (log[k].instr.Binary? && !IsFloatOpcode(log[k].instr.op)) || log[k].instr.Call?
  }

  /**
   * What lowering an expression may do to the emitter: add globals at the end and
   * build instructions of the kinds above; functions and the insert point stay as they were.
   */
  predicate ExprFrame(em: Emitter, em': Emitter)
  {
    && em'.irModule.name == em.irModule.name
    && em'.irModule.functions == em.irModule.functions
    && em.irModule.globals <= em'.irModule.globals
    && em'.builder.insertPoint == em.builder.insertPoint
    && em.builder.log <= em'.builder.log
    && BuildsOnlyIntArithAndCalls(em'.builder.log, |em.builder.log|)
  }

  lemma ExprFrameTrans(em1: Emitter, em2: Emitter, em3: Emitter)
    requires ExprFrame(em1, em2) && ExprFrame(em2, em3)
    ensures ExprFrame(em1, em3)
  {
    var l1, l2, l3 := em1.builder.log, em2.builder.log, em3.builder.log;
    forall k | |l1| <= k < |l3|
      ensures (l3[k].instr.Binary? && !IsFloatOpcode(l3[k].instr.op)) || l3[k].instr.Call?
    {
      if k < |l2| { assert l3[k] == l2[k]; }
    }
  }

  /** A value read back as a type: genType's result is handed to LLVM where a type is expected. */
  function AsType(r: ValueRef): (t: TypeRef)
    ensures t.Some? <==> r.Ref? && r.value.TypeAsValue?
    ensures t.Some? ==> r == Ref(TypeAsValue(t.value))
  {
    if r.Ref? && r.value.TypeAsValue? then Some(r.value.ty) else None
  }

  /**
   * genTypeName: a name without a type tag is looked up in the symbol table
   * (falling off the end when absent); a tagged name is mapped to its IR type.
   */
  function LowerTypeName(env: Env, names: Names, tn: TypeName): (r: ValueRef)
    ensures tn.dataType == UnknownType ==> (r.Ref? <==> tn.name in names)
    ensures tn.dataType == UnknownType && tn.name in names ==> r == Ref(names[tn.name])
    ensures tn.dataType == UnknownType && tn.name !in names ==> r == Indeterminate
    ensures tn.dataType != UnknownType ==> !r.Indeterminate? && (r.Ref? ==> r.value.TypeAsValue?)
  {
    if tn.dataType == UnknownType then
      if tn.name in names then Ref(names[tn.name]) else Indeterminate
    else
      match LLVMType(env.typeFromString(tn.name), env.sizeofInt)
      case Some(t) => Ref(TypeAsValue(t))
      case None => Null
  }

  /** genType: a type name goes to genTypeName; a type literal goes to the genTypeLit stub. */
  function LowerType(env: Env, names: Names, ty: Type): (r: ValueRef)
    ensures ty.TypeLitNode? ==> r == Indeterminate
    ensures ty.TypeNameNode? && ty.typeName.dataType == UnknownType ==>
      (r.Ref? <==> ty.typeName.name in names) && (r.Ref? ==> r.value == names[ty.typeName.name])
    ensures ty.TypeNameNode? && ty.typeName.dataType != UnknownType ==>
      (r.Ref? <==> env.typeFromString(ty.typeName.name) != UnknownType) && (r.Ref? ==> r.value.TypeAsValue?)
  {
    match ty
    case TypeNameNode(tn) => LowerTypeName(env, names, tn)
    case TypeLitNode(_) => Indeterminate
  }

  function Pow2(n: nat): (r: nat)
    ensures r >= 1
  {
    if n == 0 then 1 else 2 * Pow2(n - 1)
  }

  /** strlen: the length of the prefix before the first NUL character. */
  function CStringLength(s: string): (n: nat)
    ensures n <= |s|
    ensures forall i :: 0 <= i < n ==> s[i] != '\0'
    ensures n < |s| ==> s[n] == '\0'
  {
    if s == [] || s[0] == '\0' then 0 else 1 + CStringLength(s[1..])
  }

  /** The global a string literal becomes: an internal constant i8 array holding the characters before NUL. */
  function StringGlobal(s: string): (g: Global)
    ensures g.constant && g.linkage == InternalLinkage && g.initializer.Some?
    ensures var chars := g.initializer.value.chars;
      && g.ty == Some(Array(Int(8), |chars|))
      && chars <= s
      && (forall i :: 0 <= i < |chars| ==> chars[i] != '\0')
      && (|chars| < |s| ==> s[|chars|] == '\0')
  {
    var n := CStringLength(s);
    Global("", Some(Array(Int(8), n)), true, InternalLinkage, Some(StringConst(s[..n])))
  }

  /** genLiteral. */
  function LowerLiteral(env: Env, em: Emitter, lit: Literal): (r: (Emitter, ValueRef))
    ensures ExprFrame(em, r.0)
    ensures r.1.Ref? <==> !lit.OtherLiteral?
    ensures !lit.StringLiteral? ==> r.0 == em
    ensures lit.IntLiteral? ==>
      var w := NativeIntType(env.sizeofInt).width;
      && r.1.value == ConstInt(Int(w), lit.value % Pow2(w))
      && 0 <= r.1.value.bits < Pow2(w)
    ensures lit.FloatLiteral? ==> r.1 == Ref(ConstFloat(Float))
    ensures lit.StringLiteral? ==>
      && r.0.builder == em.builder
      && r.0.irModule.globals == em.irModule.globals + [StringGlobal(lit.chars)]
      && r.1 == Ref(GlobalAddr(|em.irModule.globals|))
  {
    match lit
    case IntLiteral(v) =>
      var t := NativeIntType(env.sizeofInt);
      (em, Ref(ConstInt(t, v % Pow2(t.width))))
    case FloatLiteral => (em, Ref(ConstFloat(Float)))
    case StringLiteral(s) =>
      var (m, g) := AddGlobal(em.irModule, StringGlobal(s));
      (em.(irModule := m), Ref(g))
    case OtherLiteral => (em, Null)
  }

  /** The opcode chosen for an operator; the float forms only when `floating` holds. */
  function BinaryOpcode(op: string, floating: bool): (r: Option<Opcode>)
    ensures r.Some? <==> op in {"+", "-", "*", "/"}
    ensures r.Some? ==> (IsFloatOpcode(r.value) <==> floating)
  {
    if op == "+" then Some(if floating then FAdd else Add)
    else if op == "-" then Some(if floating then FSub else Sub)
    else if op == "*" then Some(if floating then FMul else Mul)
    else if op == "/" then Some(if floating then FDiv else UDiv)
    else None
  }

  /**
   * genBinaryExpression as written: both operands are lowered from the left-hand
   * expression, `floating` is the constant false, and an unknown operator falls off the end.
   */
  function LowerBinary(env: Env, names: Names, em: Emitter, b: BinaryExpr): (r: (Emitter, ValueRef))
    ensures ExprFrame(em, r.0)
    decreases b
  {
    var (em1, lhs) := LowerExpr(env, names, em, b.lhand);
    var (em2, rhs) := LowerExpr(env, names, em1, b.lhand);
    ExprFrameTrans(em, em1, em2);
    var floating := false;
    match BinaryOpcode(b.binaryOp, floating)
    case Some(op) =>
      var (builder, v) := Build(em2.builder, Binary(op, lhs, rhs));
      (em2.(builder := builder), Ref(v))
    case None => (em2, Indeterminate)
  }

  /** The outcome of lowering call arguments left to right. */
  datatype ArgsOutcome =
    | ArgsLowered(em: Emitter, values: seq<Value>)
    | ArgsFailed(em: Emitter, index: nat)

  function Prepend(vs: seq<Value>, o: ArgsOutcome): ArgsOutcome
  {
    match o
    case ArgsLowered(em, ws) => ArgsLowered(em, vs + ws)
    case ArgsFailed(em, k) => ArgsFailed(em, |vs| + k)
  }

  /** The argument loop of genFunctionCall: lower each argument in turn, stopping at the first that yields no value. */
  function LowerArgs(env: Env, names: Names, em: Emitter, args: seq<Expression>): (r: ArgsOutcome)
    ensures ExprFrame(em, r.em)
    ensures r.ArgsLowered? ==> |r.values| == |args|
    ensures r.ArgsFailed? ==> r.index < |args|
    decreases args
  {
    if args == [] then ArgsLowered(em, [])
    else
      var (em1, v) := LowerExpr(env, names, em, args[0]);
      if !IsValue(v) then ArgsFailed(em1, 0)
      else
        var rest := LowerArgs(env, names, em1, args[1..]);
        ExprFrameTrans(em, em1, rest.em);
        Prepend([v.value], rest)
  }

  /**
   * genFunctionCall: the callee must be a function of the module with as many
   * parameters as there are arguments, and every argument must lower; then one
   * call is built. The success path falls off the end of the C function.
   */
  function LowerCall(env: Env, names: Names, em: Emitter, c: Call): (r: (Emitter, ValueRef))
    ensures ExprFrame(em, r.0)
    ensures !r.1.Ref?
    decreases c
  {
    if c.callee !in em.irModule.functions then (em, Null)
    else if |em.irModule.functions[c.callee].paramTypes| != |c.arguments| then (em, Null)
    else
      match LowerArgs(env, names, em, c.arguments)
      case ArgsFailed(em1, _) => (em1, Null)
      case ArgsLowered(em1, vals) =>
        var (builder, _) := Build(em1.builder, Instr.Call(c.callee, vals));
        (em1.(builder := builder), Indeterminate)
  }

  /** genExpression: the unary, array, alloc and sizeof cases only print and fall off the end. */
  function LowerExpr(env: Env, names: Names, em: Emitter, e: Expression): (r: (Emitter, ValueRef))
    ensures ExprFrame(em, r.0)
    decreases e
  {
    match e
    case TypeNode(ty) => (em, LowerType(env, names, ty))
    case LiteralNode(lit) => LowerLiteral(env, em, lit)
    case BinaryExprNode(b) => LowerBinary(env, names, em, b)
    case FunctionCallNode(c) => LowerCall(env, names, em, c)
    case _ => (em, Indeterminate)
  }
}
