/**
 * The code generator itself: the LLVMCodeGenerator object and the source
 * files it lowers, with one method per routine that builds or binds anything;
 * genType, genTypeName, genTypeLit, getLLVMType and the stub
 * genStructuredStatementNode are used as functions. Each method changes the
 * generator's fields step by step as the C code does, and its contract ties
 * the new state and the returned value to the lowering functions of
 * ExprLowering, StmtLowering and Pipeline.
 */
module CodeGen {
  import opened Wrappers
  import opened IR
  import opened TypeMapper
  import opened Ast
  import opened ExprLowering
  import opened StmtLowering
  import opened Pipeline

  /** A source file: its name and syntax tree, the module it is lowered into and its scope counter. */
  class SourceFile {
    const name: string
    const ast: seq<Statement>
    var irModule: IRModule
    var scope: int

    constructor (name: string, ast: seq<Statement>)
      ensures this.name == name && this.ast == ast
      ensures irModule == NewModule(name) && scope == GlobalScope
    {
      this.name := name;
      this.ast := ast;
      irModule := NewModule(name);
      scope := GlobalScope;
    }
  }

  /** The names of the source files, in order. */
  function FileNames(files: seq<SourceFile>): (r: seq<string>)
    ensures |r| == |files| && forall i :: 0 <= i < |files| ==> r[i] == files[i].name
  {
    seq(|files|, i requires 0 <= i < |files| => files[i].name)
  }

  /** The parameter names of a new function while genFunctionSignature's naming loop is at i. */
  function PartlyNamed(ps: seq<Parameter>, i: nat): (r: seq<string>)
    ensures |r| == |ps|
    ensures forall j :: 0 <= j < |ps| ==> r[j] == if j < i then ps[j].name else ""
  {
    seq(|ps|, j requires 0 <= j < |ps| => if j < i then ps[j].name else "")
  }

  lemma PrependAssoc(a: seq<Value>, b: seq<Value>, o: ArgsOutcome)
    ensures Prepend(a, Prepend(b, o)) == Prepend(a + b, o)
  {
    match o
    case ArgsLowered(em, ws) => assert a + (b + ws) == (a + b) + ws;
    case ArgsFailed(em, k) =>
  }

  /** What a source file brings to its pass of the file loop: its name, its tree and its scope counter then. */
  datatype FileInput = FileInput(name: string, ast: seq<Statement>, scope: int)

  function Inputs(files: seq<SourceFile>): (r: seq<FileInput>)
    reads files
    ensures |r| == |files|
    ensures forall i :: 0 <= i < |files| ==> r[i] == FileInput(files[i].name, files[i].ast, files[i].scope)
  {
    if files == [] then []
    else
      var last := files[|files| - 1];
      Inputs(files[..|files| - 1]) + [FileInput(last.name, last.ast, last.scope)]
  }

  /** One pass of the file loop: a fresh module of the file's name, currentNode 0, and the builder and table given. */
  function LowerFile(env: Env, b: Builder, names: Names, f: FileInput): (r: Gen)
    ensures r.em.irModule.name == f.name
    ensures b.log <= r.em.builder.log && names.Keys <= r.names.Keys
  {
    LowerStatements(env, Gen(Emitter(NewModule(f.name), b), names, f.scope, 0), f.ast)
  }

  /** The builder and symbol table the next file starts from: those the last pass left, or the initial ones. */
  function CarriedOver(b: Builder, names: Names, rs: seq<Gen>): (Builder, Names)
  {
    if rs == [] then (b, names) else (rs[|rs| - 1].em.builder, rs[|rs| - 1].names)
  }

  /**
   * startLLVMCodeGeneration's file loop: the state each file's pass ends in. The
   * builder and the symbol table are never reset between files.
   */
  function LowerFiles(env: Env, b: Builder, names: Names, fs: seq<FileInput>): (r: seq<Gen>)
    ensures |r| == |fs|
    ensures forall i :: 0 <= i < |fs| ==> r[i].em.irModule.name == fs[i].name
    decreases |fs|
  {
    if fs == [] then []
    else
      var prev := LowerFiles(env, b, names, fs[..|fs| - 1]);
      var (b', names') := CarriedOver(b, names, prev);
      prev + [LowerFile(env, b', names', fs[|fs| - 1])]
  }

  /**
   * Nothing from an earlier file is lost: every name bound and every instruction
   * built while lowering file i is still there after file j, for i <= j.
   */
  lemma {:induction false} LowerFilesKeepEarlierFiles(env: Env, b: Builder, names: Names, fs: seq<FileInput>, i: nat, j: nat)
    requires i <= j < |fs|
    ensures var rs := LowerFiles(env, b, names, fs);
      && names.Keys <= rs[i].names.Keys && b.log <= rs[i].em.builder.log
      && rs[i].names.Keys <= rs[j].names.Keys && rs[i].em.builder.log <= rs[j].em.builder.log
    decreases |fs|
  {
    var rs := LowerFiles(env, b, names, fs);
    var prev := LowerFiles(env, b, names, fs[..|fs| - 1]);
    assert rs == prev + [rs[|fs| - 1]];
    if j < |fs| - 1 {
      LowerFilesKeepEarlierFiles(env, b, names, fs[..|fs| - 1], i, j);
    } else if |fs| > 1 {
      LowerFilesKeepEarlierFiles(env, b, names, fs[..|fs| - 1], if i == j then 0 else i, |fs| - 2);
    }
  }

  /** File k's pass starts where file k - 1's ended and lowers input k. */
  ghost predicate FileStep(env: Env, b: Builder, names: Names, fs: seq<FileInput>, done: seq<Gen>, k: nat)
    requires k < |fs| && k < |done|
  {
    var carried := CarriedOver(b, names, done[..k]);
    done[k] == LowerFile(env, carried.0, carried.1, fs[k])
  }

  /** A chain of passes extended by the pass that starts where it ended is still a chain. */
  lemma {:induction false} FileStepSnoc(env: Env, b: Builder, names: Names, fs: seq<FileInput>, done: seq<Gen>, g: Gen)
    requires |done| < |fs|
    requires forall k :: 0 <= k < |done| ==> FileStep(env, b, names, fs, done, k)
    requires var carried := CarriedOver(b, names, done); g == LowerFile(env, carried.0, carried.1, fs[|done|])
    ensures forall k :: 0 <= k <= |done| ==> FileStep(env, b, names, fs, done + [g], k)
  {
    var done' := done + [g];
    forall k | 0 <= k <= |done|
      ensures FileStep(env, b, names, fs, done', k)
    {
      assert done'[..k] == done[..k] || k == |done|;
      if k < |done| {
        assert FileStep(env, b, names, fs, done, k);
      } else {
        assert done'[..k] == done;
      }
    }
  }

  /** The first n passes of a chain, each starting where the one before ended, are LowerFiles of the first n inputs. */
  lemma {:induction false} ChainPrefix(env: Env, b: Builder, names: Names, fs: seq<FileInput>, done: seq<Gen>, n: nat)
    requires n <= |done| == |fs|
    requires forall k :: 0 <= k < |fs| ==> FileStep(env, b, names, fs, done, k)
    ensures done[..n] == LowerFiles(env, b, names, fs[..n])
  {
    if n > 0 {
      ChainPrefix(env, b, names, fs, done, n - 1);
      ChainStep(env, b, names, fs, done, n);
    }
  }

  /** If the first n - 1 passes are LowerFiles of the first n - 1 inputs, and pass n - 1 follows them, so are the first n. */
  lemma ChainStep(env: Env, b: Builder, names: Names, fs: seq<FileInput>, done: seq<Gen>, n: nat)
    requires 0 < n <= |done| == |fs|
    requires done[..n - 1] == LowerFiles(env, b, names, fs[..n - 1])
    requires FileStep(env, b, names, fs, done, n - 1)
    ensures done[..n] == LowerFiles(env, b, names, fs[..n])
  {
    assert fs[..n][..n - 1] == fs[..n - 1];
    assert done[..n] == done[..n - 1] + [done[n - 1]];
  }

  /** A whole chain of passes is LowerFiles. */
  lemma ChainIsLowerFiles(env: Env, b: Builder, names: Names, fs: seq<FileInput>, done: seq<Gen>)
    requires |done| == |fs|
    requires forall k :: 0 <= k < |fs| ==> FileStep(env, b, names, fs, done, k)
    ensures done == LowerFiles(env, b, names, fs)
  {
    ChainPrefix(env, b, names, fs, done, |fs|);
    assert fs[..|fs|] == fs && done[..|done|] == done;
  }

  class LLVMCodeGenerator {
    const sourceFiles: seq<SourceFile>
    /** `sizeof(int)` on the host, which getIntType reads. */
    const sizeofInt: int
    /** getTypeFromString, which is not part of this model. */
    const typeFromString: string -> DataType
    /** Whether LLVMVerifyModule with LLVMReturnStatusAction returns 0, that is, reports no error. */
    const verifyModule: IRModule -> bool
    /** The COMPILER and OUTPUT_EXECUTABLE_NAME build settings. */
    const compiler: string
    const outputExecutableName: string

    var abstractSyntaxTree: seq<Statement>
    var currentNode: int
    var currentSourceFile: SourceFile?
    var builder: Builder
    var namedValues: Names
    var asmFiles: seq<string>

    /** createLLVMCodeGenerator: no tree, node 0, a fresh builder and an empty symbol table. */
    constructor (sourceFiles: seq<SourceFile>, sizeofInt: int, typeFromString: string -> DataType,
                 verifyModule: IRModule -> bool, compiler: string, outputExecutableName: string)
      ensures this.sourceFiles == sourceFiles && this.sizeofInt == sizeofInt
      ensures this.typeFromString == typeFromString && this.verifyModule == verifyModule
      ensures this.compiler == compiler && this.outputExecutableName == outputExecutableName
      ensures abstractSyntaxTree == [] && currentNode == 0 && currentSourceFile == null
      ensures builder == EmptyBuilder && namedValues == map[] && asmFiles == []
    {
      this.sourceFiles := sourceFiles;
      this.sizeofInt := sizeofInt;
      this.typeFromString := typeFromString;
      this.verifyModule := verifyModule;
      this.compiler := compiler;
      this.outputExecutableName := outputExecutableName;
      abstractSyntaxTree := [];
      currentNode := 0;
      currentSourceFile := null;
      builder := EmptyBuilder;
      namedValues := map[];
      asmFiles := [];
    }

    function Host(): Env
    {
      Env(sizeofInt, typeFromString)
    }

    /** The current module and the builder. */
    function Emit(): Emitter
      reads this, currentSourceFile
      requires currentSourceFile != null
    {
      Emitter(currentSourceFile.irModule, builder)
    }

    /** Everything statement lowering reads and writes. */
    function State(): Gen
      reads this, currentSourceFile
      requires currentSourceFile != null
    {
      Gen(Emit(), namedValues, currentSourceFile.scope, currentNode)
    }

    /** consumeAstNode. */
    method ConsumeAstNode()
      modifies this`currentNode
      ensures currentNode == old(currentNode) + 1
    {
      currentNode := currentNode + 1;
    }

    // ------------------------------------------------------------ expressions

    /** genExpression. */
    method GenExpression(e: Expression) returns (r: ValueRef)
      requires currentSourceFile != null
      modifies this`builder, currentSourceFile`irModule
      ensures (Emit(), r) == LowerExpr(Host(), namedValues, old(Emit()), e)
      decreases e
    {
      match e
      case TypeNode(ty) =>
        r := LowerType(Host(), namedValues, ty);
      case LiteralNode(lit) =>
        r := GenLiteral(lit);
      case BinaryExprNode(b) =>
        r := GenBinaryExpression(b);
      case FunctionCallNode(c) =>
        r := GenFunctionCall(c);
      case _ =>
        r := Indeterminate;
    }

    /** genLiteral. */
    method GenLiteral(lit: Literal) returns (r: ValueRef)
      requires currentSourceFile != null
      modifies currentSourceFile`irModule
      ensures (Emit(), r) == LowerLiteral(Host(), old(Emit()), lit)
    {
      match lit
      case IntLiteral(v) =>
        var t := NativeIntType(sizeofInt);
        r := Ref(ConstInt(t, v % Pow2(t.width)));
      case FloatLiteral =>
        r := Ref(ConstFloat(Float));
      case StringLiteral(s) =>
        var (m, str) := AddGlobal(currentSourceFile.irModule, StringGlobal(s));
        currentSourceFile.irModule := m;
        r := Ref(str);
      case OtherLiteral =>
        r := Null;
    }

    /** Builds one binary instruction at the builder's position. */
    method BuildBinary(op: Opcode, lhs: ValueRef, rhs: ValueRef) returns (r: ValueRef)
      modifies this`builder
      ensures (builder, r) == (Build(old(builder), Binary(op, lhs, rhs)).0, Ref(Build(old(builder), Binary(op, lhs, rhs)).1))
    {
      var (b, v) := Build(builder, Binary(op, lhs, rhs));
      builder := b;
      r := Ref(v);
    }

    /** genBinaryExpression, as written: both operands come from the left-hand expression. */
    method GenBinaryExpression(b: BinaryExpr) returns (r: ValueRef)
      requires currentSourceFile != null
      modifies this`builder, currentSourceFile`irModule
      ensures (Emit(), r) == LowerBinary(Host(), namedValues, old(Emit()), b)
      decreases b
    {
      var lhs := GenExpression(b.lhand);
      var rhs := GenExpression(b.lhand);
      var floating := false;
      if b.binaryOp == "+" {
        r := BuildBinary(if floating then FAdd else Add, lhs, rhs);
      } else if b.binaryOp == "-" {
        r := BuildBinary(if floating then FSub else Sub, lhs, rhs);
      } else if b.binaryOp == "*" {
        r := BuildBinary(if floating then FMul else Mul, lhs, rhs);
      } else if b.binaryOp == "/" {
        r := BuildBinary(if floating then FDiv else UDiv, lhs, rhs);
      } else {
        r := Indeterminate;
      }
    }

    /** genFunctionCall: the arguments go into a fresh array, left to right. */
    method GenFunctionCall(c: Call) returns (r: ValueRef)
      requires currentSourceFile != null
      modifies this`builder, currentSourceFile`irModule
      ensures (Emit(), r) == LowerCall(Host(), namedValues, old(Emit()), c)
      decreases c
    {
      var m := currentSourceFile.irModule;
      if c.callee !in m.functions {
        return Null;
      }
      if |m.functions[c.callee].paramTypes| != |c.arguments| {
        return Null;
      }
      ghost var em0 := Emit();
      var args := new Value[|c.arguments|];
      var i := 0;
      while i < |c.arguments|
        invariant 0 <= i <= |c.arguments|
        invariant LowerArgs(Host(), namedValues, em0, c.arguments)
               == Prepend(args[..i], LowerArgs(Host(), namedValues, Emit(), c.arguments[i..]))
      {
        ghost var em := Emit();
        assert c.arguments[i..][0] == c.arguments[i];
        assert c.arguments[i..][1..] == c.arguments[i + 1..];
        var v := GenExpression(c.arguments[i]);
        if !IsValue(v) {
          assert LowerArgs(Host(), namedValues, em, c.arguments[i..]) == ArgsFailed(Emit(), 0);
          return Null;
        }
        PrependAssoc(args[..i], [v.value], LowerArgs(Host(), namedValues, Emit(), c.arguments[i + 1..]));
        args[i] := v.value;
        assert args[..i + 1] == args[..i] + [v.value];
        i := i + 1;
      }
      assert c.arguments[i..] == [];
      assert args[..] + [] == args[..];
      assert LowerArgs(Host(), namedValues, em0, c.arguments) == ArgsLowered(Emit(), args[..]);
      var (b, _) := Build(builder, Instr.Call(c.callee, args[..]));
      builder := b;
      r := Indeterminate;
    }

    // ------------------------------------------------------------ declarations

    /** genFunctionSignature. */
    method GenFunctionSignature(sig: FunctionSignature) returns (r: ValueRef)
      requires currentSourceFile != null
      modifies this`namedValues, currentSourceFile`irModule
      ensures (State(), r) == LowerSignature(Host(), old(State()), sig)
    {
      var m := currentSourceFile.irModule;
      var ps := sig.parameters;
      var argCount := |ps|;
      if sig.name in m.functions {
        if |m.functions[sig.name].paramTypes| != argCount {
          return Null;
        }
        return Ref(Func(sig.name));
      }
      var params := GenParamTypes(ps);
      var returnType := LLVMType(typeFromString(sig.returnType), sizeofInt);
      var f := IRFunction(params, PartlyNamed(ps, 0), returnType, DefaultLinkage, []);
      if sig.isExtern {
        f := f.(linkage := ExternalLinkage);
      }
      assert f == DeclaredFunction(Host(), sig).(paramNames := PartlyNamed(ps, 0));
      currentSourceFile.irModule := m.(functions := m.functions[sig.name := f]);
      BindParameters(sig);
      assert PartlyNamed(ps, argCount) == ParamNames(ps);
      assert f.(paramNames := ParamNames(ps)) == DeclaredFunction(Host(), sig);
      assert m.functions[sig.name := f][sig.name := DeclaredFunction(Host(), sig)]
          == m.functions[sig.name := DeclaredFunction(Host(), sig)];
      assert currentSourceFile.irModule == m.(functions := m.functions[sig.name := DeclaredFunction(Host(), sig)]);
      BindParamsKeys(old(namedValues), sig.name, ps, 0);
      r := Ref(Func(sig.name));
    }

    /** The parameter-type loop of genFunctionSignature, over a fresh array. */
    method GenParamTypes(ps: seq<Parameter>) returns (types: seq<TypeRef>)
      ensures types == ParamTypes(Host(), ps)
    {
      var params := new TypeRef[|ps|];
      for i := 0 to |ps|
        invariant forall j :: 0 <= j < i ==> params[j] == ParamType(Host(), ps[j])
      {
        var p := ps[i];
        var name: Option<string> := None;
        var isPointer := false;
        if p.ty.TypeLitNode? {
          if p.ty.typeLit.PointerTypeLit? {
            name := Some(p.ty.typeLit.base.name);
            isPointer := true;
          }
        } else {
          name := Some(p.ty.typeName.name);
        }
        var t := if name.Some? then LLVMType(typeFromString(name.value), sizeofInt) else None;
        params[i] := if isPointer then PointerTo(t) else t;
      }
      types := params[..];
    }

    /** The naming loop of genFunctionSignature: each parameter gets its name and is bound under it. */
    method BindParameters(sig: FunctionSignature)
      requires currentSourceFile != null
      requires sig.name in currentSourceFile.irModule.functions
      requires currentSourceFile.irModule.functions[sig.name].paramNames == PartlyNamed(sig.parameters, 0)
      modifies this`namedValues, currentSourceFile`irModule
      ensures var m := old(currentSourceFile.irModule); var fn := m.functions[sig.name];
        currentSourceFile.irModule
          == m.(functions := m.functions[sig.name := fn.(paramNames := PartlyNamed(sig.parameters, |sig.parameters|))])
      ensures namedValues == BindParams(old(namedValues), sig.name, sig.parameters, 0)
    {
      var ps := sig.parameters;
      ghost var m := currentSourceFile.irModule;
      ghost var fn0 := m.functions[sig.name];
      for i := 0 to |ps|
        invariant currentSourceFile.irModule
               == m.(functions := m.functions[sig.name := fn0.(paramNames := PartlyNamed(ps, i))])
        invariant BindParams(old(namedValues), sig.name, ps, 0) == BindParams(namedValues, sig.name, ps, i)
      {
        var fn := currentSourceFile.irModule.functions[sig.name];
        assert fn.paramNames[i := ps[i].name] == PartlyNamed(ps, i + 1);
        currentSourceFile.irModule := currentSourceFile.irModule.(functions :=
          currentSourceFile.irModule.functions[sig.name := fn.(paramNames := fn.paramNames[i := ps[i].name])]);
        namedValues := namedValues[ps[i].name := Param(sig.name, i)];
      }
      assert PartlyNamed(ps, 0) == fn0.paramNames;
    }

    /** genFunctionDecl. */
    method GenFunctionDecl(fd: FunctionDecl) returns (r: ValueRef)
      requires currentSourceFile != null
      modifies this`builder, this`namedValues, this`currentNode, currentSourceFile`irModule, currentSourceFile`scope
      ensures (State(), r) == LowerFunctionDecl(Host(), old(State()), fd)
      decreases fd, 1
    {
      currentSourceFile.scope := currentSourceFile.scope + 1;
      var proto := GenFunctionSignature(fd.signature);
      if !IsValue(proto) {
        return Null;
      }
      if !fd.prototype {
        var name := fd.signature.name;
        var (m, block) := AppendBlock(currentSourceFile.irModule, name, "entry");
        currentSourceFile.irModule := m;
        builder := PositionAtEnd(builder, InsertPoint(m.name, name, block));
        GenFunctionBody(fd);
      }
      currentSourceFile.scope := currentSourceFile.scope - 1;
      r := proto;
    }

    /** The body loop of genFunctionDecl: each statement of the body in turn, from the entry block. */
    method GenFunctionBody(fd: FunctionDecl)
      requires currentSourceFile != null
      modifies this`builder, this`namedValues, this`currentNode, currentSourceFile`irModule, currentSourceFile`scope
      ensures State() == LowerStatements(Host(), old(State()), fd.body)
      decreases fd, 0
    {
      ghost var g0 := State();
      var i := 0;
      while i < |fd.body|
        invariant 0 <= i <= |fd.body|
        invariant LowerStatements(Host(), g0, fd.body) == LowerStatements(Host(), State(), fd.body[i..])
      {
        assert fd.body[i..][0] == fd.body[i];
        assert fd.body[i..][1..] == fd.body[i + 1..];
        var _ := GenStatement(fd.body[i]);
        i := i + 1;
      }
      assert fd.body[i..] == [];
    }

    /** genVariableDecl. */
    method GenVariableDecl(d: VariableDecl) returns (r: ValueRef)
      requires currentSourceFile != null
      modifies this`builder, this`namedValues, currentSourceFile`irModule
      ensures (State(), r) == LowerVariableDecl(Host(), old(State()), d)
    {
      var scope := currentSourceFile.scope;
      if scope == GlobalScope {
        var init := Null;
        if d.expr.Some? {
          init := GenExpression(d.expr.value);
        }
        if IsValue(init) {
          var ty := AsType(LowerType(Host(), namedValues, d.ty));
          var (m, _) := AddGlobal(currentSourceFile.irModule, Global(d.name, ty, !d.mutable, DefaultLinkage, None));
          currentSourceFile.irModule := m;
        }
      } else {
        var ty := AsType(LowerType(Host(), namedValues, d.ty));
        var (b1, alloc) := Build(builder, Alloca(ty, d.name));
        builder := b1;
        namedValues := namedValues[d.name := alloc];
        if d.expr.Some? {
          var v := GenExpression(d.expr.value);
          var (b3, _) := Build(builder, Store(v, alloc));
          builder := b3;
        }
      }
      r := Indeterminate;
    }

    /** genDeclaration. */
    method GenDeclaration(d: Declaration) returns (r: ValueRef)
      requires currentSourceFile != null
      modifies this`builder, this`namedValues, this`currentNode, currentSourceFile`irModule, currentSourceFile`scope
      ensures (State(), r) == LowerDeclaration(Host(), old(State()), d)
      decreases d
    {
      match d
      case FunctionDeclNode(fd) =>
        r := GenFunctionDecl(fd);
      case VariableDeclNode(vd) =>
        r := GenVariableDecl(vd);
    }

    // ------------------------------------------------------------ statements

    /** genLeaveStatNode. */
    method GenLeaveStatNode(l: LeaveStat) returns (r: ValueRef)
      requires currentSourceFile != null
      modifies this`builder, currentSourceFile`irModule
      ensures (State(), r) == LowerLeave(Host(), old(State()), l)
    {
      match l
      case ReturnStat(e) =>
        var v := Null;
        if e.Some? {
          v := GenExpression(e.value);
        }
        var (b, _) := Build(builder, Ret(v));
        builder := b;
        r := Indeterminate;
      case OtherLeaveStat =>
        r := Indeterminate;
    }

    /** genUnstructuredStatementNode. */
    method GenUnstructuredStatementNode(u: UnstructuredStatement) returns (r: ValueRef)
      requires currentSourceFile != null
      modifies this`builder, this`namedValues, this`currentNode, currentSourceFile`irModule, currentSourceFile`scope
      ensures (State(), r) == LowerUnstructured(Host(), old(State()), u)
      decreases u
    {
      match u
      case DeclarationNode(d) =>
        r := GenDeclaration(d);
      case ExprStatNode(e) =>
        r := GenExpression(e);
      case LeaveStatNode(l) =>
        r := GenLeaveStatNode(l);
      case CallStatNode(c) =>
        r := GenFunctionCall(c);
      case OtherUnstructuredNode =>
        r := Null;
    }

    /** genStatement. */
    method GenStatement(s: Statement) returns (r: ValueRef)
      requires currentSourceFile != null
      modifies this`builder, this`namedValues, this`currentNode, currentSourceFile`irModule, currentSourceFile`scope
      ensures (State(), r) == LowerStatement(Host(), old(State()), s)
      decreases s
    {
      match s
      case UnstructuredNode(u) =>
        r := GenUnstructuredStatementNode(u);
      case StructuredNode =>
        r := Null;
      case MacroNode =>
        ConsumeAstNode();
        r := Null;
    }

    /** traverseAST: every top-level statement of the current tree, in order. */
    method TraverseAST()
      requires currentSourceFile != null
      modifies this`builder, this`namedValues, this`currentNode, currentSourceFile`irModule, currentSourceFile`scope
      ensures State() == LowerStatements(Host(), old(State()), abstractSyntaxTree)
    {
      ghost var g0 := State();
      var i := 0;
      while i < |abstractSyntaxTree|
        invariant 0 <= i <= |abstractSyntaxTree|
        invariant LowerStatements(Host(), g0, abstractSyntaxTree)
               == LowerStatements(Host(), State(), abstractSyntaxTree[i..])
      {
        assert abstractSyntaxTree[i..][0] == abstractSyntaxTree[i];
        assert abstractSyntaxTree[i..][1..] == abstractSyntaxTree[i + 1..];
        var _ := GenStatement(abstractSyntaxTree[i]);
        i := i + 1;
      }
      assert abstractSyntaxTree[i..] == [];
    }

    // ------------------------------------------------------------ back end

    /** createBitcode: the bitcode file's name, and whether the module verified. */
    method CreateBitcode() returns (bitcodeName: string, verified: bool)
      requires currentSourceFile != null
      ensures bitcodeName == BitcodeName(currentSourceFile.name)
      ensures verified == verifyModule(currentSourceFile.irModule)
    {
      bitcodeName := currentSourceFile.name + ".bc";
      verified := verifyModule(currentSourceFile.irModule);
    }

    /** convertBitcodeToAsm: the `llc` command, and the assembly file recorded for linking. */
    method ConvertBitcodeToAsm(bitcodeName: string) returns (toAsmCommand: string)
      modifies this`asmFiles
      ensures toAsmCommand == AsmCommand(bitcodeName)
      ensures asmFiles == old(asmFiles) + [AsmName(bitcodeName)]
    {
      var asmFilename := bitcodeName + ".s";
      toAsmCommand := "llc " + bitcodeName + " -o " + asmFilename;
      asmFiles := asmFiles + [asmFilename];
    }

    /** createBinary: the link command over every assembly file, in the order they were made. */
    method CreateBinary() returns (linkCommand: string)
      ensures linkCommand == LinkCommand(compiler, asmFiles, outputExecutableName)
      ensures builder == old(builder) && namedValues == old(namedValues) && asmFiles == old(asmFiles)
      ensures forall j :: 0 <= j < |sourceFiles| ==>
        sourceFiles[j].irModule == old(sourceFiles[j].irModule) && sourceFiles[j].scope == old(sourceFiles[j].scope)
    {
      linkCommand := compiler + " ";
      for i := 0 to |asmFiles|
        invariant linkCommand == compiler + " " + ArgList(asmFiles[..i])
      {
        ArgListSnoc(asmFiles[..i], asmFiles[i]);
        assert asmFiles[..i + 1] == asmFiles[..i] + [asmFiles[i]];
        linkCommand := linkCommand + asmFiles[i] + " ";
      }
      assert asmFiles[..|asmFiles|] == asmFiles;
      linkCommand := linkCommand + " -o " + outputExecutableName;
    }

    /**
     * One pass of startLLVMCodeGeneration's loop: a fresh module named after the
     * file, currentNode back to 0, the tree lowered with the builder and symbol
     * table left over from earlier files, then bitcode and assembly.
     */
    method GenSourceFile(sf: SourceFile) returns (toAsmCommand: string, verified: bool)
      modifies this`currentNode, this`currentSourceFile, this`abstractSyntaxTree, this`builder
      modifies this`namedValues, this`asmFiles, sf
      ensures currentSourceFile == sf && abstractSyntaxTree == sf.ast
      ensures State() == LowerFile(Host(), old(builder), old(namedValues), FileInput(sf.name, sf.ast, old(sf.scope)))
      ensures verified == verifyModule(sf.irModule)
      ensures toAsmCommand == AsmCommand(BitcodeName(sf.name))
      ensures asmFiles == old(asmFiles) + [AsmName(BitcodeName(sf.name))]
      ensures forall j :: 0 <= j < |sourceFiles| && sourceFiles[j] != sf ==>
        sourceFiles[j].irModule == old(sourceFiles[j].irModule) && sourceFiles[j].scope == old(sourceFiles[j].scope)
    {
      currentNode := 0;
      currentSourceFile := sf;
      abstractSyntaxTree := currentSourceFile.ast;
      sf.irModule := NewModule(sf.name);
      TraverseAST();
      var bitcodeName;
      bitcodeName, verified := CreateBitcode();
      toAsmCommand := ConvertBitcodeToAsm(bitcodeName);
    }

    ghost predicate Recorded(b0: Builder, names0: Names, inputs: seq<FileInput>, done: seq<Gen>)
      reads sourceFiles
      requires |done| <= |inputs| == |sourceFiles|
    {
      && (forall k :: 0 <= k < |done| ==> FileStep(Host(), b0, names0, inputs, done, k))
      && (forall j :: 0 <= j < |done| ==>
            sourceFiles[j].irModule == done[j].em.irModule && sourceFiles[j].scope == done[j].scope)
      && (forall j :: |done| <= j < |sourceFiles| ==>
            inputs[j] == FileInput(sourceFiles[j].name, sourceFiles[j].ast, sourceFiles[j].scope))
    }

    /**
     * Every source file's module and scope, and the builder and symbol table
     * left at the end, are those LowerFiles gives for the inputs.
     */
    ghost predicate AsLowerFiles(b0: Builder, names0: Names, inputs: seq<FileInput>)
      reads this, sourceFiles
    {
      var rs := LowerFiles(Host(), b0, names0, inputs);
      && |inputs| == |sourceFiles|
      && (forall i :: 0 <= i < |sourceFiles| ==>
            sourceFiles[i].irModule == rs[i].em.irModule && sourceFiles[i].scope == rs[i].scope)
      && (builder, namedValues) == CarriedOver(b0, names0, rs)
    }

    lemma RecordedIsLowerFiles(b0: Builder, names0: Names, inputs: seq<FileInput>, done: seq<Gen>)
      requires |done| == |inputs| == |sourceFiles|
      requires Recorded(b0, names0, inputs, done)
      requires (builder, namedValues) == CarriedOver(b0, names0, done)
      ensures AsLowerFiles(b0, names0, inputs)
    {
      ChainIsLowerFiles(Host(), b0, names0, inputs, done);
    }

    /**
     * What startLLVMCodeGeneration's loop has done once files 0 .. i - 1 are
     * through: their `llc` commands, their verification results and their
     * modules, with the builder and the symbol table carried from file to file.
     */
    ghost predicate FilesDone(i: nat, asmCommands: seq<string>, verified: seq<bool>, b0: Builder, names0: Names,
                              inputs: seq<FileInput>, done: seq<Gen>, distinct: bool)
      reads this, sourceFiles
    {
      && i <= |sourceFiles| == |inputs| && |done| == i && |asmCommands| == i && |verified| == i
      && asmFiles == AsmFileList(FileNames(sourceFiles[..i]))
      && (forall j :: 0 <= j < i ==> asmCommands[j] == AsmCommand(BitcodeName(sourceFiles[j].name)))
      && (forall j :: 0 <= j < i ==> sourceFiles[j].irModule.name == sourceFiles[j].name)
      && (forall j :: 0 <= j < i ==> verified[j] == verifyModule(done[j].em.irModule))
      && (builder, namedValues) == CarriedOver(b0, names0, done)
      && names0.Keys <= namedValues.Keys && b0.log <= builder.log
      && (distinct ==> Recorded(b0, names0, inputs, done))
    }

    /** What FilesDone says once every file is through, in the terms of startLLVMCodeGeneration's contract. */
    lemma FilesDoneAtEnd(asmCommands: seq<string>, verified: seq<bool>, b0: Builder, names0: Names,
                         inputs: seq<FileInput>, done: seq<Gen>, distinct: bool)
      requires FilesDone(|sourceFiles|, asmCommands, verified, b0, names0, inputs, done, distinct)
      requires distinct == forall i, j :: 0 <= i < j < |sourceFiles| ==> sourceFiles[i] != sourceFiles[j]
      ensures asmFiles == AsmFileList(FileNames(sourceFiles))
      ensures |asmCommands| == |sourceFiles|
      ensures forall i :: 0 <= i < |sourceFiles| ==> asmCommands[i] == AsmCommand(BitcodeName(sourceFiles[i].name))
      ensures forall i :: 0 <= i < |sourceFiles| ==> sourceFiles[i].irModule.name == sourceFiles[i].name
      ensures |verified| == |sourceFiles|
      ensures distinct ==> forall i :: 0 <= i < |sourceFiles| ==> verified[i] == verifyModule(sourceFiles[i].irModule)
      ensures names0.Keys <= namedValues.Keys && b0.log <= builder.log
      ensures distinct ==> AsLowerFiles(b0, names0, inputs)
    {
      assert sourceFiles[..|sourceFiles|] == sourceFiles;
      if distinct {
        RecordedIsLowerFiles(b0, names0, inputs, done);
      }
    }

    /** One turn of startLLVMCodeGeneration's loop: file i, and the records of the turns so far extended by it. */
    method GenNextSourceFile(i: nat, asmCommands: seq<string>, verified: seq<bool>, ghost b0: Builder,
                             ghost names0: Names, ghost inputs: seq<FileInput>, ghost done: seq<Gen>,
                             ghost distinct: bool)
      returns (asmCommands': seq<string>, verified': seq<bool>, ghost done': seq<Gen>)
      requires i < |sourceFiles|
      requires distinct ==> forall a, b :: 0 <= a < b < |sourceFiles| ==> sourceFiles[a] != sourceFiles[b]
      requires FilesDone(i, asmCommands, verified, b0, names0, inputs, done, distinct)
      modifies this`currentNode, this`currentSourceFile, this`abstractSyntaxTree, this`builder
      modifies this`namedValues, this`asmFiles, sourceFiles[i]
      ensures FilesDone(i + 1, asmCommands', verified', b0, names0, inputs, done', distinct)
    {
      var sf := sourceFiles[i];
      var command, ok := GenSourceFile(sf);
      done' := done + [State()];
      if distinct {
        FileStepSnoc(Host(), b0, names0, inputs, done, State());
        forall j | 0 <= j < i
          ensures sourceFiles[j].irModule == done'[j].em.irModule && sourceFiles[j].scope == done'[j].scope
        {
          assert sourceFiles[j] != sf;
        }
        forall j | i < j < |sourceFiles|
          ensures inputs[j] == FileInput(sourceFiles[j].name, sourceFiles[j].ast, sourceFiles[j].scope)
        {
          assert sourceFiles[j] != sf;
        }
      }
      forall j | 0 <= j < i
        ensures sourceFiles[j].irModule.name == sourceFiles[j].name
      {
        if sourceFiles[j] != sf {
          assert sourceFiles[j].irModule == old(sourceFiles[j].irModule);
        }
      }
      assert FileNames(sourceFiles[..i + 1]) == FileNames(sourceFiles[..i]) + [sf.name];
      asmCommands' := asmCommands + [command];
      verified' := verified + [ok];
    }

    /**
     * startLLVMCodeGeneration's file loop: every source file in order, each
     * giving its `llc` command and its module's verification status.
     */
    method GenSourceFiles() returns (asmCommands: seq<string>, verified: seq<bool>)
      modifies this, sourceFiles
      ensures asmFiles == AsmFileList(FileNames(sourceFiles))
      ensures |asmCommands| == |sourceFiles|
      ensures forall i :: 0 <= i < |sourceFiles| ==> asmCommands[i] == AsmCommand(BitcodeName(sourceFiles[i].name))
      ensures forall i :: 0 <= i < |sourceFiles| ==> sourceFiles[i].irModule.name == sourceFiles[i].name
      ensures |verified| == |sourceFiles|
      ensures (forall i, j :: 0 <= i < j < |sourceFiles| ==> sourceFiles[i] != sourceFiles[j]) ==>
        forall i :: 0 <= i < |sourceFiles| ==> verified[i] == verifyModule(sourceFiles[i].irModule)
      ensures old(namedValues).Keys <= namedValues.Keys
      ensures old(builder).log <= builder.log
      ensures (forall i, j :: 0 <= i < j < |sourceFiles| ==> sourceFiles[i] != sourceFiles[j]) ==>
        AsLowerFiles(old(builder), old(namedValues), old(Inputs(sourceFiles)))
    {
      ghost var b0, names0, inputs := builder, namedValues, Inputs(sourceFiles);
      ghost var done: seq<Gen> := [];
      asmFiles := [];
      asmCommands := [];
      verified := [];
      ghost var distinct := forall i, j :: 0 <= i < j < |sourceFiles| ==> sourceFiles[i] != sourceFiles[j];
      for i := 0 to |sourceFiles|
        invariant FilesDone(i, asmCommands, verified, b0, names0, inputs, done, distinct)
      {
        asmCommands, verified, done := GenNextSourceFile(i, asmCommands, verified, b0, names0, inputs, done, distinct);
      }
      FilesDoneAtEnd(asmCommands, verified, b0, names0, inputs, done, distinct);
    }

    /**
     * startLLVMCodeGeneration: every source file in order, then the link. The
     * results are the `llc` commands, each module's verification status and the
     * link command.
     */
    method StartLLVMCodeGeneration() returns (asmCommands: seq<string>, verified: seq<bool>, linkCommand: string)
      modifies this, sourceFiles
      ensures asmFiles == AsmFileList(FileNames(sourceFiles))
      ensures |asmCommands| == |sourceFiles|
      ensures forall i :: 0 <= i < |sourceFiles| ==> asmCommands[i] == AsmCommand(BitcodeName(sourceFiles[i].name))
      ensures linkCommand == LinkCommand(compiler, asmFiles, outputExecutableName)
      ensures forall i :: 0 <= i < |sourceFiles| ==> sourceFiles[i].irModule.name == sourceFiles[i].name
      ensures |verified| == |sourceFiles|
      ensures (forall i, j :: 0 <= i < j < |sourceFiles| ==> sourceFiles[i] != sourceFiles[j]) ==>
        forall i :: 0 <= i < |sourceFiles| ==> verified[i] == verifyModule(sourceFiles[i].irModule)
      ensures old(namedValues).Keys <= namedValues.Keys
      ensures old(builder).log <= builder.log
      ensures (forall i, j :: 0 <= i < j < |sourceFiles| ==> sourceFiles[i] != sourceFiles[j]) ==>
        AsLowerFiles(old(builder), old(namedValues), old(Inputs(sourceFiles)))
    {
      asmCommands, verified := GenSourceFiles();
      linkCommand := CreateBinary();
    }
  }
}
