/**
 * Declaration and statement lowering (genFunctionSignature, genFunctionDecl,
 * genVariableDecl, genDeclaration, genLeaveStatNode, genStatement,
 * genUnstructuredStatementNode and the statement loops), stated as functions
 * on the whole generator state.
 */
module StmtLowering {
  import opened Wrappers
  import opened IR
  import opened TypeMapper
  import opened Ast
  import opened ExprLowering

  /** The scope counter's value outside every function. */
  const GlobalScope: int := 0

  /**
   * The generator state lowering reads and writes: the current module and the
   * builder, the symbol table, the current file's scope counter and currentNode.
   */
  datatype Gen = Gen(em: Emitter, names: Names, scope: int, currentNode: int)

  /**
   * What lowering a statement may do: functions, globals, built instructions and
   * bound names are only ever added, and neither counter goes down.
   */
  predicate StmtFrame(g: Gen, g': Gen)
  {
    && g'.em.irModule.name == g.em.irModule.name
    && g.em.irModule.functions.Keys <= g'.em.irModule.functions.Keys
    && g.em.irModule.globals <= g'.em.irModule.globals
    && g.em.builder.log <= g'.em.builder.log
    && g.names.Keys <= g'.names.Keys
    && g.scope <= g'.scope
    && g.currentNode <= g'.currentNode
  }

  lemma StmtFrameTrans(g1: Gen, g2: Gen, g3: Gen)
    requires StmtFrame(g1, g2) && StmtFrame(g2, g3)
    ensures StmtFrame(g1, g3)
  {
  }

  /** The name a parameter's type is looked up by, and whether it is a pointer to that type. */
  function ParamType(env: Env, p: Parameter): (r: TypeRef)
    ensures p.ty.TypeLitNode? && p.ty.typeLit.PointerTypeLit? ==>
      (r.Some? <==> env.typeFromString(p.ty.typeLit.base.name) != UnknownType) && (r.Some? ==> r.value.Ptr?)
    ensures p.ty.TypeNameNode? ==>
      (r.Some? <==> env.typeFromString(p.ty.typeName.name) != UnknownType) && (r.Some? ==> !r.value.Ptr?)
    ensures p.ty.TypeLitNode? && p.ty.typeLit.OtherTypeLit? ==> r.None?
  {
    match p.ty
    case TypeLitNode(PointerTypeLit(base)) => PointerTo(LLVMType(env.typeFromString(base.name), env.sizeofInt))
    case TypeLitNode(OtherTypeLit) => None
    case TypeNameNode(tn) => LLVMType(env.typeFromString(tn.name), env.sizeofInt)
  }

  /** LLVMPointerType on a possibly missing type. */
  function PointerTo(t: TypeRef): (r: TypeRef)
    ensures r.Some? <==> t.Some?
    ensures r.Some? ==> r.value == Ptr(t.value)
  {
    match t
    case Some(base) => Some(Ptr(base))
    case None => None
  }

  function ParamTypes(env: Env, ps: seq<Parameter>): (r: seq<TypeRef>)
    ensures |r| == |ps| && forall i :: 0 <= i < |ps| ==> r[i] == ParamType(env, ps[i])
  {
    seq(|ps|, i requires 0 <= i < |ps| => ParamType(env, ps[i]))
  }

  function ParamNames(ps: seq<Parameter>): (r: seq<string>)
    ensures |r| == |ps| && forall i :: 0 <= i < |ps| ==> r[i] == ps[i].name
  {
    seq(|ps|, i requires 0 <= i < |ps| => ps[i].name)
  }

  /**
   * The binding loop of genFunctionSignature from parameter i on: each name is
   * bound to its argument in turn, so no binding is lost and the last parameter's
   * name ends up bound to the last argument.
   */
  function BindParams(names: Names, fname: string, ps: seq<Parameter>, i: nat): (r: Names)
    ensures names.Keys <= r.Keys
    ensures i < |ps| ==> ps[|ps| - 1].name in r && r[ps[|ps| - 1].name] == Param(fname, |ps| - 1)
    decreases |ps| - i
  {
    if i >= |ps| then names
    else BindParams(names[ps[i].name := Param(fname, i)], fname, ps, i + 1)
  }

  lemma {:induction false} BindParamsKeys(names: Names, fname: string, ps: seq<Parameter>, i: nat)
    ensures BindParams(names, fname, ps, i).Keys == names.Keys + (set j | i <= j < |ps| :: ps[j].name)
    decreases |ps| - i
  {
    if i < |ps| {
      BindParamsKeys(names[ps[i].name := Param(fname, i)], fname, ps, i + 1);
      assert (set j | i <= j < |ps| :: ps[j].name)
          == {ps[i].name} + (set j | i + 1 <= j < |ps| :: ps[j].name);
    }
  }

  /** The function genFunctionSignature declares for a new name. */
  function DeclaredFunction(env: Env, sig: FunctionSignature): (f: IRFunction)
    ensures |f.paramTypes| == |sig.parameters| && |f.paramNames| == |sig.parameters|
    ensures f.returnType.None? <==> env.typeFromString(sig.returnType) == UnknownType
    ensures f.linkage == ExternalLinkage <==> sig.isExtern
    ensures f.linkage != InternalLinkage
    ensures f.blocks == []
  {
    IRFunction(
      ParamTypes(env, sig.parameters),
      ParamNames(sig.parameters),
      LLVMType(env.typeFromString(sig.returnType), env.sizeofInt),
      if sig.isExtern then ExternalLinkage else DefaultLinkage,
      [])
  }

  /**
   * genFunctionSignature: an existing function of that name is returned when its
   * parameter count matches and rejected otherwise, either way without binding
   * anything; a new name is declared and its parameters bound.
   */
  function LowerSignature(env: Env, g: Gen, sig: FunctionSignature): (r: (Gen, ValueRef))
    ensures StmtFrame(g, r.0)
    ensures r.0.scope == g.scope && r.0.currentNode == g.currentNode && r.0.em.builder == g.em.builder
    ensures r.0.em.irModule.globals == g.em.irModule.globals
    ensures r.0.em.irModule.functions.Keys == g.em.irModule.functions.Keys + {sig.name} || r.0 == g
    ensures r.1.Ref? ==> r.1 == Ref(Func(sig.name)) && sig.name in r.0.em.irModule.functions
    ensures !r.1.Ref? ==> r == (g, Null)
  {
    var m := g.em.irModule;
    var argCount := |sig.parameters|;
    if sig.name in m.functions then
      if |m.functions[sig.name].paramTypes| != argCount then (g, Null)
      else (g, Ref(Func(sig.name)))
    else
      var m' := m.(functions := m.functions[sig.name := DeclaredFunction(env, sig)]);
      var names' := BindParams(g.names, sig.name, sig.parameters, 0);
      BindParamsKeys(g.names, sig.name, sig.parameters, 0);
      (g.(em := g.em.(irModule := m'), names := names'), Ref(Func(sig.name)))
  }

  /**
   * genVariableDecl. At global scope a global is added only when the initializer
   * lowers, with no initializer of its own and constant exactly when not mutable.
   * Elsewhere an alloca is built and bound under the variable's name, and the
   * initializer, when present, is lowered and stored into it.
   */
  function LowerVariableDecl(env: Env, g: Gen, d: VariableDecl): (r: (Gen, ValueRef))
    ensures StmtFrame(g, r.0)
    ensures r.0.scope == g.scope && r.0.currentNode == g.currentNode
    ensures r.0.em.irModule.functions == g.em.irModule.functions
    ensures r.0.em.builder.insertPoint == g.em.builder.insertPoint
    ensures r.1 == Indeterminate
  {
    if g.scope == GlobalScope then
      var (em1, init) := if d.expr.Some? then LowerExpr(env, g.names, g.em, d.expr.value) else (g.em, Null);
      if IsValue(init) then
        var ty := AsType(LowerType(env, g.names, d.ty));
        var (m, _) := AddGlobal(em1.irModule, Global(d.name, ty, !d.mutable, DefaultLinkage, None));
        (g.(em := em1.(irModule := m)), Indeterminate)
      else
        (g.(em := em1), Indeterminate)
    else
      var ty := AsType(LowerType(env, g.names, d.ty));
      var (b1, alloc) := Build(g.em.builder, Alloca(ty, d.name));
      var names := g.names[d.name := alloc];
      if d.expr.Some? then
        var (em2, v) := LowerExpr(env, names, g.em.(builder := b1), d.expr.value);
        var (b3, _) := Build(em2.builder, Store(v, alloc));
        (Gen(em2.(builder := b3), names, g.scope, g.currentNode), Indeterminate)
      else
        (g.(em := g.em.(builder := b1), names := names), Indeterminate)
  }

  /** genLeaveStatNode: a return builds one ret of its lowered expression (NULL when it has none). */
  function LowerLeave(env: Env, g: Gen, l: LeaveStat): (r: (Gen, ValueRef))
    ensures StmtFrame(g, r.0)
    ensures r.0.names == g.names && r.0.scope == g.scope && r.0.currentNode == g.currentNode
    ensures r.0.em.irModule.functions == g.em.irModule.functions
    ensures r.0.em.builder.insertPoint == g.em.builder.insertPoint
    ensures r.1 == Indeterminate
    ensures l.ReturnStat? ==>
      var (em1, v) := if l.expr.Some? then LowerExpr(env, g.names, g.em, l.expr.value) else (g.em, Null);
      && r.0.em.irModule == em1.irModule
      && r.0.em.builder.log == em1.builder.log + [Placed(g.em.builder.insertPoint, Ret(v))]
    ensures l.OtherLeaveStat? ==> r.0 == g
  {
    match l
    case ReturnStat(e) =>
      var (em1, v) := if e.Some? then LowerExpr(env, g.names, g.em, e.value) else (g.em, Null);
      var (b, _) := Build(em1.builder, Ret(v));
      (g.(em := em1.(builder := b)), Indeterminate)
    case OtherLeaveStat => (g, Indeterminate)
  }

  /**
   * genFunctionDecl: raise the scope, lower the signature (returning at once,
   * scope still raised, when it fails), and unless the declaration is a
   * prototype append an `entry` block, move the builder there and lower the body.
   */
  function LowerFunctionDecl(env: Env, g: Gen, fd: FunctionDecl): (r: (Gen, ValueRef))
    ensures StmtFrame(g, r.0)
    ensures r.1 == Null || r.1 == Ref(Func(fd.signature.name))
    decreases fd
  {
    var g1 := g.(scope := g.scope + 1);
    var (g2, proto) := LowerSignature(env, g1, fd.signature);
    if !IsValue(proto) then (g2, Null)
    else if fd.prototype then (g2.(scope := g2.scope - 1), proto)
    else
      var name := fd.signature.name;
      var (m, block) := AppendBlock(g2.em.irModule, name, "entry");
      var builder := PositionAtEnd(g2.em.builder, InsertPoint(m.name, name, block));
      var g3 := LowerStatements(env, g2.(em := Emitter(m, builder)), fd.body);
      (g3.(scope := g3.scope - 1), proto)
  }

  /** genDeclaration. */
  function LowerDeclaration(env: Env, g: Gen, d: Declaration): (r: (Gen, ValueRef))
    ensures StmtFrame(g, r.0)
    decreases d
  {
    match d
    case FunctionDeclNode(fd) => LowerFunctionDecl(env, g, fd)
    case VariableDeclNode(vd) => LowerVariableDecl(env, g, vd)
  }

  /** genUnstructuredStatementNode. */
  function LowerUnstructured(env: Env, g: Gen, u: UnstructuredStatement): (r: (Gen, ValueRef))
    ensures StmtFrame(g, r.0)
    decreases u
  {
    match u
    case DeclarationNode(d) => LowerDeclaration(env, g, d)
    case ExprStatNode(e) =>
      var (em, v) := LowerExpr(env, g.names, g.em, e);
      (g.(em := em), v)
    case LeaveStatNode(l) => LowerLeave(env, g, l)
    case CallStatNode(c) =>
      var (em, v) := LowerCall(env, g.names, g.em, c);
      (g.(em := em), v)
    case OtherUnstructuredNode => (g, Null)
  }

  /** genStatement: a macro only advances currentNode by one; a structured statement is a stub. */
  function LowerStatement(env: Env, g: Gen, s: Statement): (r: (Gen, ValueRef))
    ensures StmtFrame(g, r.0)
    decreases s
  {
    match s
    case UnstructuredNode(u) => LowerUnstructured(env, g, u)
    case StructuredNode => (g, Null)
    case MacroNode => (g.(currentNode := g.currentNode + 1), Null)
  }

  /** The statement loops of genFunctionDecl and traverseAST: each statement in order, results discarded. */
  function LowerStatements(env: Env, g: Gen, ss: seq<Statement>): (r: Gen)
    ensures StmtFrame(g, r)
    decreases ss
  {
    if ss == [] then g
    else
      var (g1, _) := LowerStatement(env, g, ss[0]);
      var g2 := LowerStatements(env, g1, ss[1..]);
      StmtFrameTrans(g, g1, g2);
      g2
  }
}
