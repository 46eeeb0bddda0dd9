/**
 * The abstract syntax tree the code generator reads (produced by the
 * parser, which is not part of this model). Only the node shapes the
 * generator inspects are represented.
 */
module Ast {
  import opened Wrappers
  import opened TypeMapper

  /** A type name; `dataType` is the tag the parser attached (UnknownType when the name is not a type). */
  datatype TypeName = TypeName(name: string, dataType: DataType)

  datatype TypeLit = PointerTypeLit(base: TypeName) | OtherTypeLit

  datatype Type = TypeNameNode(typeName: TypeName) | TypeLitNode(typeLit: TypeLit)

  datatype Literal =
    | IntLiteral(value: int)
    | FloatLiteral
    | StringLiteral(chars: string)
    | OtherLiteral

  datatype Expression =
    | TypeNode(ty: Type)
    | LiteralNode(lit: Literal)
    | BinaryExprNode(binary: BinaryExpr)
    | UnaryExprNode
    | FunctionCallNode(call: Call)
    | ArrayInitializerNode
    | ArrayIndexNode
    | AllocNode
    | SizeofNode

  datatype BinaryExpr = BinaryExpr(lhand: Expression, binaryOp: string, rhand: Expression)

  /** A call; `callee` is the first component of the callee path, the only one the generator reads. */
  datatype Call = Call(callee: string, arguments: seq<Expression>)

  datatype Parameter = Parameter(name: string, ty: Type)

  /** `returnType` is the name of the declared return type. */
  datatype FunctionSignature = FunctionSignature(
    name: string,
    parameters: seq<Parameter>,
    returnType: string,
    isExtern: bool)

  datatype VariableDecl = VariableDecl(name: string, ty: Type, mutable: bool, expr: Option<Expression>)

  datatype LeaveStat = ReturnStat(expr: Option<Expression>) | OtherLeaveStat

  datatype Statement =
    | UnstructuredNode(unstructured: UnstructuredStatement)
    | StructuredNode
    | MacroNode

  datatype UnstructuredStatement =
    | DeclarationNode(decl: Declaration)
    | ExprStatNode(expr: Expression)
    | LeaveStatNode(leave: LeaveStat)
    | CallStatNode(call: Call)
    | OtherUnstructuredNode

  datatype Declaration =
    | FunctionDeclNode(funcDecl: FunctionDecl)
    | VariableDeclNode(varDecl: VariableDecl)

  /** `prototype` holds for a declaration without a body. */
  datatype FunctionDecl = FunctionDecl(signature: FunctionSignature, prototype: bool, body: seq<Statement>)

  /** The number of macro statements at the top level of `stmts`. */
  function MacroCount(stmts: seq<Statement>): nat
  {
    if stmts == [] then 0 else (if stmts[0].MacroNode? then 1 else 0) + MacroCount(stmts[1..])
  }

  /** No statement of `stmts` declares a function. */
  predicate NoFunctionDecls(stmts: seq<Statement>)
  {
    forall i :: 0 <= i < |stmts| ==> !IsFunctionDecl(stmts[i])
  }

  predicate IsFunctionDecl(s: Statement)
  {
    s.UnstructuredNode? && s.unstructured.DeclarationNode? && s.unstructured.decl.FunctionDeclNode?
  }
}
