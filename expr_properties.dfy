/** Properties of expression lowering. */
module ExprProperties {
  import opened Wrappers
  import opened IR
  import opened TypeMapper
  import opened Ast
  import opened ExprLowering

  /** The integer opcode genBinaryExpression builds for each operator. */
  function IntOpcode(op: string): Opcode
    requires op in {"+", "-", "*", "/"}
  {
    if op == "+" then Add else if op == "-" then Sub else if op == "*" then Mul else UDiv
  }

  /** `+ - * /` select add, sub, mul and unsigned div, or their float forms when `floating` holds. */
  lemma OpcodeTable()
    ensures BinaryOpcode("+", false) == Some(Add) && BinaryOpcode("+", true) == Some(FAdd)
    ensures BinaryOpcode("-", false) == Some(Sub) && BinaryOpcode("-", true) == Some(FSub)
    ensures BinaryOpcode("*", false) == Some(Mul) && BinaryOpcode("*", true) == Some(FMul)
    ensures BinaryOpcode("/", false) == Some(UDiv) && BinaryOpcode("/", true) == Some(FDiv)
  {
  }

  /**
   * For a known operator genBinaryExpression builds exactly one integer instruction
   * after lowering the left-hand expression twice, and its two operands are those two results.
   */
  lemma BinaryBuildsOneIntInstr(env: Env, names: Names, em: Emitter, b: BinaryExpr)
    requires b.binaryOp in {"+", "-", "*", "/"}
    ensures
      var (em1, lhs) := LowerExpr(env, names, em, b.lhand);
      var (em2, rhs) := LowerExpr(env, names, em1, b.lhand);
      var r := LowerBinary(env, names, em, b);
      && r.0.irModule == em2.irModule
      && r.0.builder.insertPoint == em2.builder.insertPoint
      && r.0.builder.log == em2.builder.log + [Placed(em2.builder.insertPoint, Binary(IntOpcode(b.binaryOp), lhs, rhs))]
      && r.1 == Ref(Inst(|em2.builder.log|))
  {
  }

  /** An unknown operator builds nothing beyond the two operand lowerings and yields no defined value. */
  lemma BinaryUnknownOperator(env: Env, names: Names, em: Emitter, b: BinaryExpr)
    requires b.binaryOp !in {"+", "-", "*", "/"}
    ensures
      var (em1, _) := LowerExpr(env, names, em, b.lhand);
      var (em2, _) := LowerExpr(env, names, em1, b.lhand);
      LowerBinary(env, names, em, b) == (em2, Indeterminate)
  {
  }

  /** The right-hand expression is never looked at. */
  lemma BinaryIgnoresRightHand(env: Env, names: Names, em: Emitter, b: BinaryExpr, other: Expression)
    ensures LowerBinary(env, names, em, b) == LowerBinary(env, names, em, b.(rhand := other))
  {
  }

  /** No expression lowering ever builds a floating-point instruction, whatever the operand types. */
  lemma NeverFloating(env: Env, names: Names, em: Emitter, e: Expression, k: nat)
    requires |em.builder.log| <= k < |LowerExpr(env, names, em, e).0.builder.log|
    ensures var ins := LowerExpr(env, names, em, e).0.builder.log[k].instr;
      ins.Binary? ==> !IsFloatOpcode(ins.op)
  {
  }

  /** A tagged type name is resolved through the type mapper alone: the symbol table plays no part. */
  lemma TaggedTypeNameIgnoresSymbols(env: Env, n1: Names, n2: Names, tn: TypeName)
    requires tn.dataType != UnknownType
    ensures LowerTypeName(env, n1, tn) == LowerTypeName(env, n2, tn)
    ensures LowerTypeName(env, n1, tn).Ref?
        <==> env.typeFromString(tn.name) != UnknownType
  {
  }

  /** Lowering a list of arguments is lowering a prefix and then, if it succeeded, the rest. */
  lemma {:induction false} ArgsAppend(env: Env, names: Names, em: Emitter, xs: seq<Expression>, ys: seq<Expression>)
    ensures LowerArgs(env, names, em, xs + ys) ==
      match LowerArgs(env, names, em, xs)
      case ArgsFailed(em1, k) => ArgsFailed(em1, k)
      case ArgsLowered(em1, vs) => Prepend(vs, LowerArgs(env, names, em1, ys))
    decreases |xs|
  {
    if xs == [] {
      assert xs + ys == ys;
      match LowerArgs(env, names, em, ys)
      case ArgsLowered(_, _) =>
      case ArgsFailed(_, _) =>
    } else {
      assert (xs + ys)[0] == xs[0];
      assert (xs + ys)[1..] == xs[1..] + ys;
      var (em1, v) := LowerExpr(env, names, em, xs[0]);
      if IsValue(v) {
        ArgsAppend(env, names, em1, xs[1..], ys);
        match LowerArgs(env, names, em1, xs[1..])
        case ArgsFailed(_, _) =>
        case ArgsLowered(em2, vs) =>
          match LowerArgs(env, names, em2, ys)
          case ArgsFailed(_, _) =>
          case ArgsLowered(_, ws) => assert [v.value] + (vs + ws) == ([v.value] + vs) + ws;
      }
    }
  }

  /** Once an argument fails, the loop stops: the arguments after it are never lowered. */
  lemma StopsAtFirstFailure(env: Env, names: Names, em: Emitter, xs: seq<Expression>, x: Expression, ys: seq<Expression>)
    requires LowerArgs(env, names, em, xs).ArgsLowered?
    requires !IsValue(LowerExpr(env, names, LowerArgs(env, names, em, xs).em, x).1)
    ensures LowerArgs(env, names, em, xs + [x] + ys)
         == ArgsFailed(LowerExpr(env, names, LowerArgs(env, names, em, xs).em, x).0, |xs|)
  {
    var em1 := LowerArgs(env, names, em, xs).em;
    ArgsAppend(env, names, em, xs, [x] + ys);
    assert xs + [x] + ys == xs + ([x] + ys);
    assert ([x] + ys)[0] == x && ([x] + ys)[1..] == ys;
    assert LowerArgs(env, names, em1, [x] + ys) == ArgsFailed(LowerExpr(env, names, em1, x).0, 0);
    assert |LowerArgs(env, names, em, xs).values| == |xs|;
  }

  /** Conversely, a failure is reported at the first argument that has no value, all before it having lowered. */
  lemma {:induction false} FailureIsFirst(env: Env, names: Names, em: Emitter, args: seq<Expression>)
    requires LowerArgs(env, names, em, args).ArgsFailed?
    ensures var k := LowerArgs(env, names, em, args).index;
      && k < |args|
      && LowerArgs(env, names, em, args[..k]).ArgsLowered?
      && var em1 := LowerArgs(env, names, em, args[..k]).em;
         && !IsValue(LowerExpr(env, names, em1, args[k]).1)
         && LowerArgs(env, names, em, args).em == LowerExpr(env, names, em1, args[k]).0
    decreases |args|
  {
    var (em1, v) := LowerExpr(env, names, em, args[0]);
    if IsValue(v) {
      var rest := args[1..];
      FailureIsFirst(env, names, em1, rest);
      var j := LowerArgs(env, names, em1, rest).index;
      assert args[..j + 1] == [args[0]] + rest[..j];
      assert args[..j + 1][1..] == rest[..j];
      assert args[j + 1] == rest[j];
    } else {
      assert args[..0] == [];
    }
  }

  /**
   * When every argument lowers, the values are the arguments' own results in
   * source order: the k-th is what the k-th argument yields after the first k.
   */
  lemma {:induction false} LoweredInOrder(env: Env, names: Names, em: Emitter, args: seq<Expression>, k: nat)
    requires LowerArgs(env, names, em, args).ArgsLowered?
    requires k < |args|
    ensures LowerArgs(env, names, em, args[..k]).ArgsLowered?
    ensures var em1 := LowerArgs(env, names, em, args[..k]).em;
      LowerExpr(env, names, em1, args[k]).1 == Ref(LowerArgs(env, names, em, args).values[k])
    decreases |args|
  {
    var (em1, v) := LowerExpr(env, names, em, args[0]);
    if k == 0 {
      assert args[..0] == [];
    } else {
      var rest := args[1..];
      assert IsValue(v);
      LoweredInOrder(env, names, em1, rest, k - 1);
      assert args[..k][0] == args[0] && args[..k][1..] == rest[..k - 1];
      assert LowerArgs(env, names, em, args[..k]) == Prepend([v.value], LowerArgs(env, names, em1, rest[..k - 1]));
      assert LowerArgs(env, names, em, args) == Prepend([v.value], LowerArgs(env, names, em1, rest));
      assert args[k] == rest[k - 1];
    }
  }

  /**
   * genFunctionCall builds a call exactly when the callee is in the module, the
   * argument count matches the parameter count and every argument lowers; the
   * call is then the one instruction built after the arguments, with their values.
   */
  lemma CallOutcome(env: Env, names: Names, em: Emitter, c: Call)
    ensures var r := LowerCall(env, names, em, c);
      var ok := c.callee in em.irModule.functions
        && |em.irModule.functions[c.callee].paramTypes| == |c.arguments|
        && LowerArgs(env, names, em, c.arguments).ArgsLowered?;
      && (r.1.Indeterminate? <==> ok)
      && (r.1.Null? <==> !ok)
      && (ok ==>
           var a := LowerArgs(env, names, em, c.arguments);
           && |a.values| == |c.arguments|
           && r.0.irModule == a.em.irModule
           && r.0.builder.log == a.em.builder.log + [Placed(em.builder.insertPoint, Instr.Call(c.callee, a.values))])
  {
  }

  /** A missing callee or a wrong argument count fails before anything is lowered or built. */
  lemma CallRejectedUpFront(env: Env, names: Names, em: Emitter, c: Call)
    requires c.callee !in em.irModule.functions
          || |em.irModule.functions[c.callee].paramTypes| != |c.arguments|
    ensures LowerCall(env, names, em, c) == (em, Null)
  {
  }

  /** A failing argument fails the call with only the argument lowerings done, and no call built for it. */
  lemma CallArgumentFails(env: Env, names: Names, em: Emitter, c: Call)
    requires c.callee in em.irModule.functions
    requires |em.irModule.functions[c.callee].paramTypes| == |c.arguments|
    requires LowerArgs(env, names, em, c.arguments).ArgsFailed?
    ensures LowerCall(env, names, em, c) == (LowerArgs(env, names, em, c.arguments).em, Null)
  {
  }
}
