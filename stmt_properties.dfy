/** Properties of declaration and statement lowering. */
module StmtProperties {
  import opened Wrappers
  import opened IR
  import opened TypeMapper
  import opened Ast
  import opened ExprLowering
  import opened StmtLowering

  // ---------------------------------------------------------------- parameters

  /** A pointer-typed parameter gets a pointer to its base type's IR type. */
  lemma PointerParameterType(env: Env, p: Parameter, base: TypeName)
    requires p.ty == TypeLitNode(PointerTypeLit(base))
    requires env.typeFromString(base.name) != UnknownType
    ensures ParamType(env, p) == Some(Ptr(LLVMType(env.typeFromString(base.name), env.sizeofInt).value))
  {
  }

  /** Any other named parameter gets its name's IR type directly. */
  lemma NamedParameterType(env: Env, p: Parameter, tn: TypeName)
    requires p.ty == TypeNameNode(tn)
    ensures ParamType(env, p) == LLVMType(env.typeFromString(tn.name), env.sizeofInt)
  {
  }

  /** Names that no parameter from index i on carries keep their old binding (or stay unbound). */
  lemma {:induction false} BindParamsKeepsOthers(names: Names, fname: string, ps: seq<Parameter>, i: nat, x: string)
    requires forall k :: i <= k < |ps| ==> ps[k].name != x
    ensures var r := BindParams(names, fname, ps, i);
      (x in r <==> x in names) && (x in names ==> r[x] == names[x])
    decreases |ps| - i
  {
    if i < |ps| {
      BindParamsKeepsOthers(names[ps[i].name := Param(fname, i)], fname, ps, i + 1, x);
    }
  }

  /** A parameter's name ends up bound to its own argument when no later parameter shares the name. */
  lemma {:induction false} BindParamsBindsLast(names: Names, fname: string, ps: seq<Parameter>, i: nat, j: nat)
    requires i <= j < |ps|
    requires forall k :: j < k < |ps| ==> ps[k].name != ps[j].name
    ensures var r := BindParams(names, fname, ps, i);
      ps[j].name in r && r[ps[j].name] == Param(fname, j)
    decreases |ps| - i
  {
    if i == j {
      BindParamsKeepsOthers(names[ps[i].name := Param(fname, i)], fname, ps, i + 1, ps[j].name);
    } else {
      BindParamsBindsLast(names[ps[i].name := Param(fname, i)], fname, ps, i + 1, j);
    }
  }

  // ---------------------------------------------------------------- signatures

  /**
   * A name the module already has: nothing is declared, bound or changed; the
   * existing function comes back when the parameter count matches, NULL otherwise.
   */
  lemma ExistingSignature(env: Env, g: Gen, sig: FunctionSignature)
    requires sig.name in g.em.irModule.functions
    ensures var r := LowerSignature(env, g, sig);
      && r.0 == g
      && r.1 == (if |g.em.irModule.functions[sig.name].paramTypes| == |sig.parameters|
                 then Ref(Func(sig.name)) else Null)
  {
  }

  /**
   * A new name: exactly one function is added, with the parameters' types and
   * names, the return type, no blocks, and external linkage exactly when the
   * declaration is extern; the builder and the globals are untouched.
   */
  lemma NewSignatureDeclares(env: Env, g: Gen, sig: FunctionSignature)
    requires sig.name !in g.em.irModule.functions
    ensures var r := LowerSignature(env, g, sig);
      var ps := sig.parameters;
      var f := DeclaredFunction(env, sig);
      && r.1 == Ref(Func(sig.name))
      && r.0.em.irModule.functions == g.em.irModule.functions[sig.name := f]
      && r.0.em.irModule.globals == g.em.irModule.globals
      && r.0.em.builder == g.em.builder
      && |f.paramTypes| == |ps| && |f.paramNames| == |ps|
      && (forall j :: 0 <= j < |ps| ==> f.paramTypes[j] == ParamType(env, ps[j]) && f.paramNames[j] == ps[j].name)
      && f.returnType == LLVMType(env.typeFromString(sig.returnType), env.sizeofInt)
      && (f.linkage == ExternalLinkage <==> sig.isExtern)
      && f.blocks == []
  {
  }

  /**
   * A new name: each parameter name is bound to its argument, a later parameter
   * of the same name winning, and every other binding is left as it was.
   */
  lemma NewSignatureBinds(env: Env, g: Gen, sig: FunctionSignature)
    requires sig.name !in g.em.irModule.functions
    ensures var nv := LowerSignature(env, g, sig).0.names;
      var ps := sig.parameters;
      && (forall j :: 0 <= j < |ps| && (forall k :: j < k < |ps| ==> ps[k].name != ps[j].name) ==>
            ps[j].name in nv && nv[ps[j].name] == Param(sig.name, j))
      && (forall x :: (forall k :: 0 <= k < |ps| ==> ps[k].name != x) ==>
            (x in nv <==> x in g.names) && (x in g.names ==> nv[x] == g.names[x]))
  {
    var ps := sig.parameters;
    var nv := BindParams(g.names, sig.name, ps, 0);
    assert LowerSignature(env, g, sig).0.names == nv;
    forall j | 0 <= j < |ps| && (forall k :: j < k < |ps| ==> ps[k].name != ps[j].name)
      ensures ps[j].name in nv && nv[ps[j].name] == Param(sig.name, j)
    {
      BindParamsBindsLast(g.names, sig.name, ps, 0, j);
    }
    forall x | (forall k :: 0 <= k < |ps| ==> ps[k].name != x)
      ensures (x in nv <==> x in g.names) && (x in g.names ==> nv[x] == g.names[x])
    {
      BindParamsKeepsOthers(g.names, sig.name, ps, 0, x);
    }
  }

  // ---------------------------------------------------------------- function declarations

  /** The blocks a function of that name has before the declaration is lowered. */
  function BlocksBefore(g: Gen, name: string): seq<string>
  {
    if name in g.em.irModule.functions then g.em.irModule.functions[name].blocks else []
  }

  /** A failed signature returns NULL at once: the scope stays one higher and nothing else changes. */
  lemma SignatureFailureLeavesScopeRaised(env: Env, g: Gen, fd: FunctionDecl)
    requires !IsValue(LowerSignature(env, g.(scope := g.scope + 1), fd.signature).1)
    ensures LowerFunctionDecl(env, g, fd) == (g.(scope := g.scope + 1), Null)
  {
  }

  /** A prototype declares (or finds) the function, restores the scope and adds no block. */
  lemma PrototypeAddsNoBlock(env: Env, g: Gen, fd: FunctionDecl)
    requires fd.prototype
    requires IsValue(LowerSignature(env, g.(scope := g.scope + 1), fd.signature).1)
    ensures var r := LowerFunctionDecl(env, g, fd);
      var name := fd.signature.name;
      && r.1 == Ref(Func(name))
      && r.0.scope == g.scope
      && r.0.em.builder == g.em.builder
      && name in r.0.em.irModule.functions
      && r.0.em.irModule.functions[name].blocks == BlocksBefore(g, name)
  {
    var name := fd.signature.name;
    if name !in g.em.irModule.functions {
      NewSignatureDeclares(env, g.(scope := g.scope + 1), fd.signature);
    }
  }

  /**
   * A definition whose body declares no function: exactly one block named
   * `entry` is appended to the function, the builder ends at that block, and the
   * scope on exit equals the scope on entry.
   */
  lemma DefinitionAddsEntryBlock(env: Env, g: Gen, fd: FunctionDecl)
    requires !fd.prototype
    requires IsValue(LowerSignature(env, g.(scope := g.scope + 1), fd.signature).1)
    requires NoFunctionDecls(fd.body)
    ensures var r := LowerFunctionDecl(env, g, fd);
      var name := fd.signature.name;
      && r.1 == Ref(Func(name))
      && r.0.scope == g.scope
      && name in r.0.em.irModule.functions
      && r.0.em.irModule.functions[name].blocks == BlocksBefore(g, name) + ["entry"]
      && r.0.em.builder.insertPoint
           == Some(InsertPoint(g.em.irModule.name, name, |BlocksBefore(g, name)|))
  {
    var name := fd.signature.name;
    var g1 := g.(scope := g.scope + 1);
    var (g2, _) := LowerSignature(env, g1, fd.signature);
    if name !in g.em.irModule.functions {
      NewSignatureDeclares(env, g1, fd.signature);
    }
    var (m, block) := AppendBlock(g2.em.irModule, name, "entry");
    var builder := PositionAtEnd(g2.em.builder, InsertPoint(m.name, name, block));
    FlatStatements(env, g2.(em := Emitter(m, builder)), fd.body);
  }

  // ---------------------------------------------------------------- statement lists

  /**
   * Statements that declare no function leave the scope, the functions and the
   * insert point as they were, and advance currentNode once per macro.
   */
  lemma {:induction false} FlatStatements(env: Env, g: Gen, ss: seq<Statement>)
    requires NoFunctionDecls(ss)
    ensures var r := LowerStatements(env, g, ss);
      && r.scope == g.scope
      && r.em.irModule.functions == g.em.irModule.functions
      && r.em.builder.insertPoint == g.em.builder.insertPoint
      && r.currentNode == g.currentNode + MacroCount(ss)
    decreases ss
  {
    if ss != [] {
      assert !IsFunctionDecl(ss[0]);
      var (g1, _) := LowerStatement(env, g, ss[0]);
      FlatStatement(env, g, ss[0]);
      assert NoFunctionDecls(ss[1..]) by {
        forall i | 0 <= i < |ss[1..]| ensures !IsFunctionDecl(ss[1..][i]) {
          assert ss[1..][i] == ss[i + 1];
        }
      }
      FlatStatements(env, g1, ss[1..]);
    }
  }

  /** One statement that is not a function declaration, as in FlatStatements. */
  lemma FlatStatement(env: Env, g: Gen, s: Statement)
    requires !IsFunctionDecl(s)
    ensures var r := LowerStatement(env, g, s).0;
      && r.scope == g.scope
      && r.em.irModule.functions == g.em.irModule.functions
      && r.em.builder.insertPoint == g.em.builder.insertPoint
      && r.currentNode == g.currentNode + (if s.MacroNode? then 1 else 0)
  {
    match s
    case UnstructuredNode(u) => {
      match u
      case DeclarationNode(d) =>
        assert LowerStatement(env, g, s) == LowerDeclaration(env, g, d);
      case ExprStatNode(e) =>
        var (em, _) := LowerExpr(env, g.names, g.em, e);
        assert ExprFrame(g.em, em);
      case CallStatNode(c) =>
        var (em, _) := LowerCall(env, g.names, g.em, c);
        assert ExprFrame(g.em, em);
      case LeaveStatNode(l) =>
      case OtherUnstructuredNode =>
    }
    case StructuredNode =>
    case MacroNode =>
  }

  /** A macro statement is skipped by advancing currentNode by exactly one. */
  lemma MacroAdvancesOne(env: Env, g: Gen)
    ensures LowerStatement(env, g, MacroNode) == (g.(currentNode := g.currentNode + 1), Null)
  {
  }

  /**
   * Lowering never reads currentNode: starting from any other value gives the
   * same result, with currentNode shifted by the same amount.
   */
  lemma {:induction false} CurrentNodeIgnored(env: Env, g: Gen, ss: seq<Statement>, k: int)
    ensures var r := LowerStatements(env, g, ss);
      LowerStatements(env, g.(currentNode := k), ss) == r.(currentNode := k + (r.currentNode - g.currentNode))
    decreases ss
  {
    if ss != [] {
      var (g1, _) := LowerStatement(env, g, ss[0]);
      CurrentNodeIgnoredStmt(env, g, ss[0], k);
      var k1 := k + (g1.currentNode - g.currentNode);
      assert LowerStatement(env, g.(currentNode := k), ss[0]).0 == g1.(currentNode := k1);
      CurrentNodeIgnored(env, g1, ss[1..], k1);
    }
  }

  lemma {:induction false} CurrentNodeIgnoredStmt(env: Env, g: Gen, s: Statement, k: int)
    ensures var r := LowerStatement(env, g, s);
      LowerStatement(env, g.(currentNode := k), s) == (r.0.(currentNode := k + (r.0.currentNode - g.currentNode)), r.1)
    decreases s
  {
    var gk := g.(currentNode := k);
    match s
    case UnstructuredNode(u) => {
      assert LowerStatement(env, g, s) == LowerUnstructured(env, g, u);
      assert LowerStatement(env, gk, s) == LowerUnstructured(env, gk, u);
      match u
      case DeclarationNode(d) => {
        assert LowerUnstructured(env, g, u) == LowerDeclaration(env, g, d);
        assert LowerUnstructured(env, gk, u) == LowerDeclaration(env, gk, d);
        match d
        case FunctionDeclNode(fd) =>
          CurrentNodeIgnoredFunc(env, g, fd, k);
        case VariableDeclNode(vd) =>
      }
      case ExprStatNode(e) =>
      case LeaveStatNode(l) =>
      case CallStatNode(c) =>
      case OtherUnstructuredNode =>
    }
    case StructuredNode =>
    case MacroNode =>
  }

  lemma {:induction false} CurrentNodeIgnoredFunc(env: Env, g: Gen, fd: FunctionDecl, k: int)
    ensures var r := LowerFunctionDecl(env, g, fd);
      LowerFunctionDecl(env, g.(currentNode := k), fd) == (r.0.(currentNode := k + (r.0.currentNode - g.currentNode)), r.1)
    decreases fd
  {
    var g1 := g.(scope := g.scope + 1);
    var (g2, proto) := LowerSignature(env, g1, fd.signature);
    var (g2', proto') := LowerSignature(env, g1.(currentNode := k), fd.signature);
    assert g2' == g2.(currentNode := k) && proto' == proto;
    if !IsValue(proto) {
      assert LowerFunctionDecl(env, g, fd) == (g2, Null);
      assert LowerFunctionDecl(env, g.(currentNode := k), fd) == (g2', Null);
    } else if fd.prototype {
      assert LowerFunctionDecl(env, g, fd) == (g2.(scope := g2.scope - 1), proto);
      assert LowerFunctionDecl(env, g.(currentNode := k), fd) == (g2'.(scope := g2'.scope - 1), proto);
    } else {
      var name := fd.signature.name;
      var (m, block) := AppendBlock(g2.em.irModule, name, "entry");
      var builder := PositionAtEnd(g2.em.builder, InsertPoint(m.name, name, block));
      var entry := g2.(em := Emitter(m, builder));
      CurrentNodeIgnored(env, entry, fd.body, k);
      var g3 := LowerStatements(env, entry, fd.body);
      var g3' := LowerStatements(env, entry.(currentNode := k), fd.body);
      assert LowerFunctionDecl(env, g, fd) == (g3.(scope := g3.scope - 1), proto);
      assert LowerFunctionDecl(env, g.(currentNode := k), fd) == (g3'.(scope := g3'.scope - 1), proto);
    }
  }

  // ---------------------------------------------------------------- variable declarations

  /** The number of store instructions in a stretch of the builder's log. */
  function StoreCount(log: seq<Placed>): nat
  {
    if log == [] then 0 else (if log[0].instr.Store? then 1 else 0) + StoreCount(log[1..])
  }

  lemma {:induction false} StoreCountAppend(a: seq<Placed>, b: seq<Placed>)
    ensures StoreCount(a + b) == StoreCount(a) + StoreCount(b)
    decreases |a|
  {
    if a == [] {
      assert a + b == b;
    } else {
      assert (a + b)[1..] == a[1..] + b;
      StoreCountAppend(a[1..], b);
    }
  }

  lemma {:induction false} NoStoresFromExpressions(log: seq<Placed>, from: nat)
    requires from <= |log|
    requires BuildsOnlyIntArithAndCalls(log, from)
    ensures StoreCount(log[from..]) == 0
    decreases |log| - from
  {
    if from < |log| {
      assert log[from..][1..] == log[from + 1..];
      NoStoresFromExpressions(log, from + 1);
    }
  }

  /**
   * At global scope: the initializer is lowered (a missing one counts as a
   * failure), no name is bound, and exactly one global is added after whatever
   * the initializer added, when and only when the initializer has a value; that
   * global is constant exactly when the variable is not mutable and carries no
   * initializer of its own.
   */
  lemma GlobalVariableDecl(env: Env, g: Gen, d: VariableDecl)
    requires g.scope == GlobalScope
    ensures
      var (em1, init) := if d.expr.Some? then LowerExpr(env, g.names, g.em, d.expr.value) else (g.em, Null);
      var r := LowerVariableDecl(env, g, d);
      && r.0.names == g.names
      && r.0.em.builder == em1.builder
      && r.0.em.irModule.functions == em1.irModule.functions
      && (IsValue(init) ==>
            r.0.em.irModule.globals == em1.irModule.globals
              + [Global(d.name, AsType(LowerType(env, g.names, d.ty)), !d.mutable, DefaultLinkage, None)])
      && (!IsValue(init) ==> r.0.em.irModule == em1.irModule)
  {
  }

  /**
   * Inside a function: one alloca of the declared type is built first and the
   * name is bound to it; a store into that alloca is built exactly when there is
   * an initializer, and it is the last instruction built. It stores the value of
   * the initializer, lowered with the new binding already in place. Without an
   * initializer the alloca is all that changes; with one, the new log is the
   * initializer's log followed by the store, and the module is the one the
   * initializer's lowering left.
   */
  lemma LocalVariableDecl(env: Env, g: Gen, d: VariableDecl)
    requires g.scope != GlobalScope
    ensures
      var n := |g.em.builder.log|;
      var r := LowerVariableDecl(env, g, d);
      var log := r.0.em.builder.log;
      && n < |log|
      && log[n] == Placed(g.em.builder.insertPoint, Alloca(AsType(LowerType(env, g.names, d.ty)), d.name))
      && r.0.names == g.names[d.name := Inst(n)]
      && StoreCount(log[n..]) == (if d.expr.Some? then 1 else 0)
      && (d.expr.Some? ==> log[|log| - 1].instr.Store? && log[|log| - 1].instr.ptr == Inst(n))
      && (d.expr.Some? ==>
            var b1 := Build(g.em.builder, Alloca(AsType(LowerType(env, g.names, d.ty)), d.name)).0;
            var init := LowerExpr(env, g.names[d.name := Inst(n)], g.em.(builder := b1), d.expr.value);
            log[|log| - 1] == Placed(g.em.builder.insertPoint, Store(init.1, Inst(n))))
      && (d.expr.None? ==>
            var b1 := Build(g.em.builder, Alloca(AsType(LowerType(env, g.names, d.ty)), d.name)).0;
            r.0.em == g.em.(builder := b1))
      && (d.expr.Some? ==>
            var b1 := Build(g.em.builder, Alloca(AsType(LowerType(env, g.names, d.ty)), d.name)).0;
            var init := LowerExpr(env, g.names[d.name := Inst(n)], g.em.(builder := b1), d.expr.value);
            && r.0.em.irModule == init.0.irModule
            && log == init.0.builder.log + [Placed(g.em.builder.insertPoint, Store(init.1, Inst(n)))])
  {
    var n := |g.em.builder.log|;
    var r := LowerVariableDecl(env, g, d);
    var log := r.0.em.builder.log;
    var (b1, alloc) := Build(g.em.builder, Alloca(AsType(LowerType(env, g.names, d.ty)), d.name));
    assert log[n..] == [log[n]] + log[n + 1..];
    if d.expr.Some? {
      var names := g.names[d.name := alloc];
      var (em2, v) := LowerExpr(env, names, g.em.(builder := b1), d.expr.value);
      var l2 := em2.builder.log;
      NoStoresFromExpressions(l2, n + 1);
      assert log == l2 + [log[|log| - 1]];
      assert log[n + 1..] == l2[n + 1..] + [log[|log| - 1]];
      StoreCountAppend(l2[n + 1..], [log[|log| - 1]]);
      assert [log[|log| - 1]][1..] == [];
    } else {
      assert log[n + 1..] == [];
    }
  }
}
