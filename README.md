# LLVM code generator model

This project models the LLVM back end of the compiler, `src/codegen/LLVM/LLVMcodegen.c`.
The back end walks the syntax tree of each source file and lowers it to LLVM IR through the LLVM C API.
It then turns every module into a bitcode file and an assembly file, and links the assembly files into one executable.

LLVM is replaced by a small abstract IR (module `IR`):
- types `Int(width)`, `Float`, `Double`, `FP128`, `Void`, `Ptr`, `Array`;
- a module that maps function names to their parameter types and names, return type, linkage and block names, plus a list of globals;
- a builder that holds an insert point and the log of every instruction built.

The value of a built instruction is its position in that log. Each log entry records the insert point the builder stood at when the instruction was built.

The model has two layers.

**Lowering functions.** Modules `TypeMapper`, `ExprLowering`, `StmtLowering` and `Pipeline` state each routine as a pure function:
- from the generator state before the routine to the state after it;
- together with the value the C routine returns.

A returned `LLVMValueRef` is one of three things:
- `Null`, an explicit `NULL`/`false`;
- `Ref(v)`, a real value;
- `Indeterminate`, the value of a routine that reaches its closing brace without a `return`.

In C, testing such a value with `if (x)` or `if (!x)` reads an undefined value. The model settles every such test by taking the NULL branch: only `Ref` counts as present (`IR.IsValue`). The results that rest on this choice are named under "## Left out".

**The generator object.** Module `CodeGen` holds the `LLVMCodeGenerator` class:
- its fields are `namedValues`, `currentNode`, `builder`, `asmFiles`, `abstractSyntaxTree` and `currentSourceFile`;
- it has a `SourceFile` class with a module and a scope counter;
- there is one method per C routine that builds IR or binds names, with the same loops and updates of the fields;
- `genType`, `genTypeName`, `genTypeLit` and `getLLVMType` have no method of their own: the methods call the lowering functions `ExprLowering.LowerType`, `ExprLowering.LowerTypeName` and `TypeMapper.LLVMType` in their place;
- the stub `genStructuredStatementNode` is the `StructuredNode` case of `GenStatement`.

Each method's contract says that its new state and its result are exactly those of the matching lowering function. The properties are then proved as lemmas about those functions, in `ExprProperties`, `StmtProperties`, `TypeMapper` and `Pipeline`.

The defects of the code are modelled as written:
- the right operand of a binary expression is lowered from the left-hand expression;
- `floating` is the constant `false`, so no floating-point instruction is ever built;
- the scope counter stays raised when a function signature fails;
- a global variable is added without an initializer;
- the success path of `genFunctionCall`, `genVariableDecl`, `genLeaveStatNode`, a failed `genTypeName` lookup and an unknown binary operator all produce `Indeterminate`.

The symbol table is one map that is never cleared. The builder is shared across source files, and both carry over from one file to the next (`CodeGen.LLVMCodeGenerator.GenSourceFile`). `CodeGen.LowerFiles` states the whole file loop as one function, and `StartLLVMCodeGeneration` is proved against it.

Inputs that come from outside the file are parameters of the generator's constructor:
- the host's `sizeof(int)`;
- `getTypeFromString`;
- `LLVMVerifyModule`, as an uninterpreted predicate on modules;
- the `COMPILER` and `OUTPUT_EXECUTABLE_NAME` settings.

`GLOBAL_SCOPE` is taken to be 0, and a new source file starts at that scope.

## Model

| member | source | states |
|---|---|---|
| TypeMapper.NativeIntType | src/codegen/LLVM/LLVMcodegen.c:455-465 | The native integer is 16, 32 or 64 bits wide for a `sizeof(int)` of 2, 4 or 8 bytes (eight bits per byte), and 16 bits for any other size. |
| TypeMapper.LLVMType | src/codegen/LLVM/LLVMcodegen.c:467-518 | The mapping gives no type exactly for the unknown tag, and never yields a pointer or array type. |
| TypeMapper.SignedAndUnsignedShareWidth | src/codegen/LLVM/LLVMcodegen.c:469-487 | For each width 8/16/32/64/128, the signed and the unsigned tag both map to the integer type of exactly that width. |
| TypeMapper.BoolByteAndCharWidths | src/codegen/LLVM/LLVMcodegen.c:501-509 | Bool and byte both map to `i1`; char maps to `i8`. |
| TypeMapper.NativeIntWidth | src/codegen/LLVM/LLVMcodegen.c:455-465 | The native int tag maps to getIntType's type: 16/32/64 bits for 2/4/8 bytes, 16 bits otherwise. |
| TypeMapper.IsFloatingType | src/codegen/LLVM/LLVMcodegen.c:40-48 | isFloatingType holds exactly for the float, fp128 and double kinds; no integer, pointer, array or void type is floating. |
| TypeMapper.FloatingExactlyForFloatTags | src/codegen/LLVM/LLVMcodegen.c:40-48 | isFloatingType accepts the mapped type exactly for the 32-, 64- and 128-bit float tags. |
| TypeMapper.FloatAndVoidTypes | src/codegen/LLVM/LLVMcodegen.c:489-515 | The 32-, 64- and 128-bit float tags map to float, double and fp128 respectively, and the void tag maps to void. |
| TypeMapper.OnlyNativeIntDependsOnHost | src/codegen/LLVM/LLVMcodegen.c:467-518 | Every tag other than the native int maps to the same type whatever the host's `sizeof(int)`. |
| ExprLowering.LowerTypeName | src/codegen/LLVM/LLVMcodegen.c:103-114 | An untagged name yields its binding in the symbol table, or no defined value when it is unbound. A tagged name never consults the table and yields a type or NULL. |
| ExprLowering.LowerType | src/codegen/LLVM/LLVMcodegen.c:146-158 | A type name is genTypeName's result: an untagged name is its binding when bound; a tagged name is a type exactly when its tag string maps to a known type. A type literal (the genTypeLit stub) yields no defined value. |
| ExprLowering.AsType | src/codegen/LLVM/LLVMcodegen.c:279-287 | A lowered type is used as an LLVM type exactly when it is a type value, and then it is that type; in every other case the model hands on a missing type (see "## Left out" for what C does there). |
| ExprLowering.CStringLength | src/codegen/LLVM/LLVMcodegen.c:124 | `strlen`: the length of the prefix before the first NUL. |
| ExprLowering.StringGlobal | src/codegen/LLVM/LLVMcodegen.c:124-128 | The string's global is internal and constant, and is initialized with the characters before the first NUL, none of which is NUL. Its type is an i8 array of exactly that length. |
| ExprLowering.LowerLiteral | src/codegen/LLVM/LLVMcodegen.c:116-136 | An int literal is a native-width integer constant, its value taken modulo 2^width. A float literal is a float constant. A string adds one global at the end and yields its address; that global is internal, constant, an i8 array of the string's `strlen` and initialized with those characters. Any other literal is NULL. Only strings change the module. |
| ExprLowering.BinaryOpcode | src/codegen/LLVM/LLVMcodegen.c:60-71 | An opcode exists exactly for `+ - * /`, and it is a float opcode exactly when `floating` holds. |
| ExprLowering.LowerBinary | src/codegen/LLVM/LLVMcodegen.c:50-72 | It only adds globals, keeps functions and insert point, and builds only integer arithmetic and calls. |
| ExprLowering.LowerArgs | src/codegen/LLVM/LLVMcodegen.c:87-96 | Success gives one value per argument; a failure names an argument index. It builds only integer arithmetic and calls. |
| ExprLowering.LowerCall | src/codegen/LLVM/LLVMcodegen.c:74-101 | The call never yields a real value, and keeps the expression frame. |
| ExprLowering.LowerExpr | src/codegen/LLVM/LLVMcodegen.c:160-175 | Any expression only appends globals and instructions. It keeps the functions and the insert point, and builds no float, alloca, store or ret. |
| ExprProperties.OpcodeTable | src/codegen/LLVM/LLVMcodegen.c:60-71 | `+ - * /` select add, sub, mul and udiv, or fadd, fsub, fmul and fdiv when `floating`. |
| ExprProperties.BinaryBuildsOneIntInstr | src/codegen/LLVM/LLVMcodegen.c:50-71 | For a known operator: the left-hand expression is lowered twice, then exactly one integer instruction is built with the two results as operands, and its value is returned. |
| ExprProperties.BinaryUnknownOperator | src/codegen/LLVM/LLVMcodegen.c:50-72 | An unknown operator builds nothing after the two operand lowerings and yields no defined value. |
| ExprProperties.BinaryIgnoresRightHand | src/codegen/LLVM/LLVMcodegen.c:51-52 | The result does not depend on the right-hand expression. |
| ExprProperties.NeverFloating | src/codegen/LLVM/LLVMcodegen.c:58 | No expression lowering builds a floating-point instruction. |
| ExprProperties.TaggedTypeNameIgnoresSymbols | src/codegen/LLVM/LLVMcodegen.c:103-114 | A tagged name gives the same result under any symbol table, and a value exactly when the tag string maps to a known type. |
| ExprProperties.ArgsAppend | src/codegen/LLVM/LLVMcodegen.c:87-96 | Lowering `xs + ys` is lowering `xs`, then `ys` only if `xs` succeeded. |
| ExprProperties.StopsAtFirstFailure | src/codegen/LLVM/LLVMcodegen.c:87-96 | When the argument after a successful prefix fails, the loop stops there: later arguments are never lowered and the failure index is that argument's. |
| ExprProperties.FailureIsFirst | src/codegen/LLVM/LLVMcodegen.c:87-96 | A reported failure is at the first argument without a value, and every argument before it lowered. |
| ExprProperties.LoweredInOrder | src/codegen/LLVM/LLVMcodegen.c:87-96 | On success the k-th value is what the k-th argument yields after the first k were lowered. |
| ExprProperties.CallOutcome | src/codegen/LLVM/LLVMcodegen.c:74-101 | A call is built exactly when the callee exists, the counts match and every argument lowers. That call is the one instruction after the arguments, with their values in order, at the current position. Otherwise the result is NULL. |
| ExprProperties.CallRejectedUpFront | src/codegen/LLVM/LLVMcodegen.c:76-85 | A missing callee or a wrong argument count returns NULL before anything is lowered. |
| ExprProperties.CallArgumentFails | src/codegen/LLVM/LLVMcodegen.c:87-96 | A failing argument returns NULL with only the argument lowerings done. |
| StmtLowering.PointerTo | src/codegen/LLVM/LLVMcodegen.c:207 | A pointer type exists exactly when its base type does, and points to it. |
| StmtLowering.ParamType | src/codegen/LLVM/LLVMcodegen.c:194-207 | A pointer parameter gets a pointer type exactly when its base name maps to a known type. A named parameter gets a non-pointer type exactly when its name does. Any other type literal gives no type. |
| StmtLowering.ParamTypes | src/codegen/LLVM/LLVMcodegen.c:193-208 | One type per parameter, in order. |
| StmtLowering.ParamNames | src/codegen/LLVM/LLVMcodegen.c:218-221 | One name per parameter, in order. |
| StmtLowering.BindParams | src/codegen/LLVM/LLVMcodegen.c:218-226 | The binding loop keeps every old key, and the last parameter ends up bound to its own argument. |
| StmtLowering.BindParamsKeys | src/codegen/LLVM/LLVMcodegen.c:218-226 | After the binding loop the symbol table holds exactly the old names plus the parameter names. |
| StmtLowering.DeclaredFunction | src/codegen/LLVM/LLVMcodegen.c:210-216 | The new function has one type and one name per parameter and no blocks. Its return type is missing exactly when the return type name is unknown. Its linkage is external exactly when the signature is extern, and never internal. |
| StmtLowering.LowerSignature | src/codegen/LLVM/LLVMcodegen.c:177-230 | Only the module's functions and the symbol table can change, and at most one function name is added. A non-value result is NULL with the state unchanged. A value result is the named function, which is then in the module. |
| StmtLowering.LowerVariableDecl | src/codegen/LLVM/LLVMcodegen.c:273-296 | Scope, currentNode, functions and insert point are unchanged, and the result is not a defined value. |
| StmtLowering.LowerLeave | src/codegen/LLVM/LLVMcodegen.c:305-316 | Names, scope, currentNode, functions and insert point are unchanged, and the result is not a defined value. A return statement lowers its expression, if any, then builds exactly one `ret` of that value, or of NULL, at the insert point. Any other leave statement changes nothing. |
| StmtLowering.LowerFunctionDecl | src/codegen/LLVM/LLVMcodegen.c:250-271 | The result is NULL or the declared function. |
| StmtLowering.LowerDeclaration | src/codegen/LLVM/LLVMcodegen.c:298-303 | Functions, globals, instructions and bindings only grow; scope and currentNode never go down. |
| StmtLowering.LowerUnstructured | src/codegen/LLVM/LLVMcodegen.c:318-329 | As LowerDeclaration. |
| StmtLowering.LowerStatement | src/codegen/LLVM/LLVMcodegen.c:232-248 | As LowerDeclaration. |
| StmtLowering.LowerStatements | src/codegen/LLVM/LLVMcodegen.c:340-345 | As LowerDeclaration. In particular, a binding in `namedValues` is never removed. |
| StmtProperties.PointerParameterType | src/codegen/LLVM/LLVMcodegen.c:197-207 | A pointer parameter over a known base type gets `Ptr` of the base's type. |
| StmtProperties.NamedParameterType | src/codegen/LLVM/LLVMcodegen.c:203-207 | A named parameter gets its name's type. |
| StmtProperties.BindParamsKeepsOthers | src/codegen/LLVM/LLVMcodegen.c:218-226 | A name no remaining parameter carries keeps its binding, or stays unbound. |
| StmtProperties.BindParamsBindsLast | src/codegen/LLVM/LLVMcodegen.c:218-226 | A parameter name with no later namesake ends up bound to that parameter's argument. |
| StmtProperties.ExistingSignature | src/codegen/LLVM/LLVMcodegen.c:183-189 | A name already in the module changes nothing. It returns the existing function when the counts match, NULL otherwise. |
| StmtProperties.NewSignatureDeclares | src/codegen/LLVM/LLVMcodegen.c:190-216 | A new name adds exactly one function, with the parameters' types and names and the mapped return type. It has no blocks, and external linkage exactly when extern. Builder and globals are untouched. |
| StmtProperties.NewSignatureBinds | src/codegen/LLVM/LLVMcodegen.c:218-226 | Each parameter name with no later namesake is bound to its argument, so a later parameter overwrites an earlier one. Every other name keeps its binding. |
| StmtProperties.SignatureFailureLeavesScopeRaised | src/codegen/LLVM/LLVMcodegen.c:251-257 | On signature failure the result is NULL and nothing changes except scope, which ends one higher. |
| StmtProperties.PrototypeAddsNoBlock | src/codegen/LLVM/LLVMcodegen.c:250-271 | A prototype restores the scope, builds nothing, leaves the function's blocks as they were and returns the function. |
| StmtProperties.DefinitionAddsEntryBlock | src/codegen/LLVM/LLVMcodegen.c:259-270 | A body without nested function declarations appends exactly one `entry` block. The builder ends on that block and the scope is restored. |
| StmtProperties.FlatStatements | src/codegen/LLVM/LLVMcodegen.c:340-345 | Statements without function declarations keep scope, functions and insert point, and advance currentNode once per macro. |
| StmtProperties.FlatStatement | src/codegen/LLVM/LLVMcodegen.c:232-248 | One such statement keeps them too, and advances currentNode by one exactly for a macro. |
| StmtProperties.MacroAdvancesOne | src/codegen/LLVM/LLVMcodegen.c:238-241 | A macro statement only adds one to currentNode and returns NULL. |
| StmtProperties.CurrentNodeIgnored | src/codegen/LLVM/LLVMcodegen.c:340-345 | Lowering never reads currentNode: any start value gives the same result, shifted by the same amount. |
| StmtProperties.CurrentNodeIgnoredStmt | src/codegen/LLVM/LLVMcodegen.c:232-248 | The same for one statement. |
| StmtProperties.CurrentNodeIgnoredFunc | src/codegen/LLVM/LLVMcodegen.c:250-271 | The same for a function declaration. |
| StmtProperties.StoreCountAppend | src/codegen/LLVM/LLVMcodegen.c:293 | Stores in a concatenation add up. |
| StmtProperties.NoStoresFromExpressions | src/codegen/LLVM/LLVMcodegen.c:160-175 | Expression lowering builds no store. |
| StmtProperties.GlobalVariableDecl | src/codegen/LLVM/LLVMcodegen.c:276-284 | At global scope no name is bound. The one new global is added after the initializer's, exactly when the initializer lowers. It is constant exactly when not mutable, and has no initializer. |
| StmtProperties.LocalVariableDecl | src/codegen/LLVM/LLVMcodegen.c:286-295 | Elsewhere the first instruction is an alloca of the declared type, and the name is bound to it. There is exactly one store if there is an initializer, and none otherwise. That store is the last instruction; it writes the initializer's value, lowered after the alloca with the new binding in place, into the alloca. Without an initializer the new state is the old one plus that single alloca. With one, the new log is exactly the initializer's log (which begins with the alloca) followed by the store, and the module is the one the initializer's lowering left. |
| Pipeline.BitcodeName | src/codegen/LLVM/LLVMcodegen.c:348-350 | The bitcode file name is the source name followed by `.bc`, three characters longer. |
| Pipeline.AsmName | src/codegen/LLVM/LLVMcodegen.c:365-367 | The assembly file name is the bitcode name followed by `.s`, two characters longer. |
| Pipeline.AsmCommand | src/codegen/LLVM/LLVMcodegen.c:370-374 | The command starts with `llc ` and the bitcode file, and ends with ` -o ` and the assembly file name. |
| Pipeline.ArgList | src/codegen/LLVM/LLVMcodegen.c:399-402 | The argument list holds at least one character per file (each file is followed by a space); the space itself is stated by ArgListSnoc. |
| Pipeline.LinkCommand | src/codegen/LLVM/LLVMcodegen.c:394-405 | The link command starts with the compiler and a space, ends with ` -o ` and the executable name, and its length is the sum of its parts. |
| Pipeline.AsmFileList | src/codegen/LLVM/LLVMcodegen.c:364-367 | One assembly file per source file, in order, named source + `.bc` + `.s`. |
| Pipeline.AsmOfBitcode | src/codegen/LLVM/LLVMcodegen.c:347-367 | The assembly name is the source name followed by `.bc.s`. |
| Pipeline.FileNamesInjective | src/codegen/LLVM/LLVMcodegen.c:347-367 | Distinct source names give distinct bitcode and assembly names. |
| Pipeline.AsmCommandShape | src/codegen/LLVM/LLVMcodegen.c:370-374 | The command is `llc `, the bitcode file, then ` -o ` and the assembly file. |
| Pipeline.ArgListSnoc | src/codegen/LLVM/LLVMcodegen.c:399-402 | One more file appends it and a space. |
| Pipeline.ArgListPrefix | src/codegen/LLVM/LLVMcodegen.c:399-402 | A prefix of the files gives a prefix of the list. |
| Pipeline.ArgListHoldsEachFile | src/codegen/LLVM/LLVMcodegen.c:399-402 | Each file appears at its offset in order, followed by a space. |
| Pipeline.LinkCommandShape | src/codegen/LLVM/LLVMcodegen.c:393-405 | The link command is the compiler, a space and the argument list, then ` -o ` and the executable name. |
| CodeGen.FileNames | src/codegen/LLVM/LLVMcodegen.c:429-430 | The source files' names, in order. |
| CodeGen.Inputs | src/codegen/LLVM/LLVMcodegen.c:429-433 | Each source file's name, tree and scope, in order. |
| CodeGen.LowerFile | src/codegen/LLVM/LLVMcodegen.c:430-438 | One pass gives a module of the file's name, and keeps every binding and instruction it started from. |
| CodeGen.LowerFiles | src/codegen/LLVM/LLVMcodegen.c:429-446 | The file loop gives one final state per file, in order, and file i's module has file i's name. |
| CodeGen.LowerFilesKeepEarlierFiles | src/codegen/LLVM/LLVMcodegen.c:429-446 | Bindings and instructions are never lost across files: file i's pass keeps those of the start, and file j's those of file i, for i <= j. |
| CodeGen.FileStepSnoc | src/codegen/LLVM/LLVMcodegen.c:429-446 | A chain of passes, each starting from the builder and table the pass before left, extended by the next such pass is still such a chain. |
| CodeGen.ChainPrefix | src/codegen/LLVM/LLVMcodegen.c:429-446 | The first n passes of such a chain are LowerFiles of the first n files. |
| CodeGen.ChainStep | src/codegen/LLVM/LLVMcodegen.c:429-446 | When the first n - 1 passes are LowerFiles of the first n - 1 files and pass n - 1 starts where they ended, the first n passes are LowerFiles of the first n files. |
| CodeGen.ChainIsLowerFiles | src/codegen/LLVM/LLVMcodegen.c:429-446 | A whole such chain is LowerFiles of the files. |
| CodeGen.SourceFile.constructor | src/codegen/LLVM/LLVMcodegen.c:435 | A file starts with an empty module of its own name at global scope. |
| CodeGen.LLVMCodeGenerator.constructor | src/codegen/LLVM/LLVMcodegen.c:7-15 | No tree, node 0, a fresh builder and an empty symbol table, as lines 9-13 set. C leaves `asmFiles` and `currentSourceFile` unset; the model starts them empty and null, which nothing observes, because `asmFiles` is first given a value at line 425 (GenSourceFiles resets it) and `currentSourceFile` is set before each file is lowered. |
| CodeGen.LLVMCodeGenerator.ConsumeAstNode | src/codegen/LLVM/LLVMcodegen.c:32-34 | currentNode goes up by one. |
| CodeGen.LLVMCodeGenerator.GenExpression | src/codegen/LLVM/LLVMcodegen.c:160-175 | New module, builder and result are LowerExpr's. |
| CodeGen.LLVMCodeGenerator.GenLiteral | src/codegen/LLVM/LLVMcodegen.c:116-136 | As LowerLiteral. |
| CodeGen.LLVMCodeGenerator.GenBinaryExpression | src/codegen/LLVM/LLVMcodegen.c:50-72 | As LowerBinary. |
| CodeGen.LLVMCodeGenerator.GenFunctionCall | src/codegen/LLVM/LLVMcodegen.c:74-101 | As LowerCall. The array loop's invariant ties the filled prefix to LowerArgs. |
| CodeGen.LLVMCodeGenerator.GenFunctionSignature | src/codegen/LLVM/LLVMcodegen.c:177-230 | New state and result are LowerSignature's. |
| CodeGen.LLVMCodeGenerator.GenParamTypes | src/codegen/LLVM/LLVMcodegen.c:192-208 | The `params[]` loop yields the parameter types, in order. |
| CodeGen.LLVMCodeGenerator.BindParameters | src/codegen/LLVM/LLVMcodegen.c:218-226 | Every parameter is named, and the table is BindParams of the old one. |
| CodeGen.LLVMCodeGenerator.GenFunctionDecl | src/codegen/LLVM/LLVMcodegen.c:250-271 | New state and result are LowerFunctionDecl's. |
| CodeGen.LLVMCodeGenerator.GenFunctionBody | src/codegen/LLVM/LLVMcodegen.c:264-266 | The body loop's new state is LowerStatements over the body, from the state after the entry block. |
| CodeGen.LLVMCodeGenerator.GenVariableDecl | src/codegen/LLVM/LLVMcodegen.c:273-296 | As LowerVariableDecl. |
| CodeGen.LLVMCodeGenerator.GenDeclaration | src/codegen/LLVM/LLVMcodegen.c:298-303 | As LowerDeclaration. |
| CodeGen.LLVMCodeGenerator.GenLeaveStatNode | src/codegen/LLVM/LLVMcodegen.c:305-316 | As LowerLeave. |
| CodeGen.LLVMCodeGenerator.GenUnstructuredStatementNode | src/codegen/LLVM/LLVMcodegen.c:318-329 | As LowerUnstructured. |
| CodeGen.LLVMCodeGenerator.GenStatement | src/codegen/LLVM/LLVMcodegen.c:232-248 | As LowerStatement. |
| CodeGen.LLVMCodeGenerator.TraverseAST | src/codegen/LLVM/LLVMcodegen.c:340-345 | The new state is LowerStatements over the whole tree. |
| CodeGen.LLVMCodeGenerator.CreateBitcode | src/codegen/LLVM/LLVMcodegen.c:347-362 | The bitcode file is named after the current file, and the module's verification status is returned. |
| CodeGen.LLVMCodeGenerator.ConvertBitcodeToAsm | src/codegen/LLVM/LLVMcodegen.c:364-391 | The command is AsmCommand, and exactly one assembly name is appended to `asmFiles`. |
| CodeGen.LLVMCodeGenerator.CreateBinary | src/codegen/LLVM/LLVMcodegen.c:393-406 | The command built by the loop is LinkCommand over `asmFiles`. The builder, the table, `asmFiles` and every source file's module and scope are unchanged. |
| CodeGen.LLVMCodeGenerator.GenSourceFile | src/codegen/LLVM/LLVMcodegen.c:429-446 | Its new state is LowerFile of the file: a fresh module of the file's name, currentNode 0, and the tree lowered from the builder and table left by earlier files. One `asmFiles` entry is added whether or not the module verified. No other source file's module or scope changes. |
| CodeGen.LLVMCodeGenerator.RecordedIsLowerFiles | src/codegen/LLVM/LLVMcodegen.c:429-446 | Once every pass is recorded as a chain, every source file's module and scope and the final builder and table are those of LowerFiles. |
| CodeGen.LLVMCodeGenerator.FilesDoneAtEnd | src/codegen/LLVM/LLVMcodegen.c:429-446 | After the last file, the loop's records give the `asmFiles` list, the `llc` commands, the module names, the verification results, the growth of builder and table and, for distinct files, the LowerFiles states. |
| CodeGen.LLVMCodeGenerator.GenNextSourceFile | src/codegen/LLVM/LLVMcodegen.c:429-446 | One turn of the loop extends every record by file i, and earlier files keep their modules. |
| CodeGen.LLVMCodeGenerator.GenSourceFiles | src/codegen/LLVM/LLVMcodegen.c:429-446 | The whole file loop: one `llc` command and one `asmFiles` entry per file, in order. Every module bears its file's name, and bindings and instructions are never dropped. With distinct files, each module and scope and the final builder and table are those of LowerFiles, and each verification result is that file's final module's. |
| CodeGen.LLVMCodeGenerator.StartLLVMCodeGeneration | src/codegen/LLVM/LLVMcodegen.c:424-453 | `asmFiles` has one entry per source file, in order. The link command covers them, and every module bears its file's name. Bindings and built instructions are never dropped. With distinct files, each module and scope and the final builder and table are those LowerFiles gives, started from the builder and table before the call, and each verification result is that file's final module's. |

## Left out
- File and process I/O: `popen`, `pclose`, `remove`, `LLVMWriteBitcodeToFile` and `LLVMDumpModule`. The model produces the command strings and the `asmFiles` list instead.
- `LLVMVerifyModule` is an uninterpreted predicate, so what makes a module valid is not modelled. Whether bitcode gets written depends only on that predicate and on I/O.
- The LLVM API's own behaviour is replaced by the abstract IR. Left out are constant folding by `LLVMBuild*`, value names such as "add" and "mul", and type checking of built instructions.
- The floating-point value of `LLVMConstReal`: only the fact that a float constant is produced is modelled.
- Helpers whose code is not part of this model are parameters or plain Dafny values: `getTypeFromString`, `getNodeTypeName`, `createVariableRef`, the hash map, `Vector` and `sds`.
- Stubs are modelled as "no value" without inventing semantics: `genTypeLit`, `genStructuredStatementNode`, and the unary, array, alloc and sizeof cases of `genExpression`.
- `consumeAstNodeBy`: no routine in the file calls it.
- `destroyLLVMCodeGenerator`, `safeMalloc`, `free` and `sdsfree` are memory management, and the `printf`, `genError` and `verboseModeMessage` text is diagnostics.
- `genVariableDecl` at global scope with no initializer passes a NULL expression to `genExpression`, which dereferences it. The model treats that case as an initializer that does not lower, so no global is added.
- A parameter whose type literal is not a pointer gives `getTypeFromString` a NULL name. The model gives that parameter no type.
- StmtProperties.DefinitionAddsEntryBlock: scope restoration, the single `entry` block and the builder ending on it are proved only for bodies without nested function declarations. A nested declaration whose signature fails leaves the scope raised, as the code does. After a nested definition the builder stays in the nested function's block, because lines 260-261 never move it back, so the outer body's later statements are built into that block.
- StmtProperties.FlatStatements: the count of macros is stated only for statement lists without function declarations. A failed signature skips the body's macros.
- LLVM's bit widths are not imposed on the integers of the model. Integer literals are wrapped to the native width explicitly (`ExprLowering.LowerLiteral`); all other integers are unbounded.
- ExprLowering.LowerArgs: an argument that yields no defined value (a call, an unbound untagged name) is taken as failing the `if (!value)` test of line 93, which in C reads an undefined value.
- ExprProperties.CallOutcome: the "exactly when" rests on that choice, so the outer call of `f(g())` is never built in the model.
- StmtLowering.LowerVariableDecl: at global scope, an initializer that yields no defined value is taken as failing the test of line 278, which in C reads an undefined value.
- StmtProperties.GlobalVariableDecl: the "exactly when" rests on that choice, so a global whose initializer is a call or an unbound untagged name is never added in the model.
- NULL operands and types: the C code hands NULL values and types to `LLVMBuild*` (lines 61-70, 287 and 293), `LLVMAddGlobal` (279), `LLVMPointerType` and `LLVMFunctionType` (207 and 212), where LLVM dereferences them. The model records the instruction, global or function with a `Null` operand or a missing type instead of modelling the crash.
- ExprLowering.AsType: the type given to `LLVMAddGlobal` (line 279) and `LLVMBuildAlloca` (line 287) is modelled as missing in three cases where C does not hand on NULL. For an untagged name bound in the table, C hands on the bound value itself, reinterpreted as a type (line 107). For a type literal (the `genTypeLit` stub, lines 138-144) and for an unbound untagged name (lines 103-109), C hands on an undefined value. So a variable declared with a pointer type, or with a name bound to a value, gets a missing type in StmtProperties.GlobalVariableDecl and StmtProperties.LocalVariableDecl.
- Pointer bases and return types: the tree types allow only a type name as a pointer's base (`PointerTypeLit`) and as a function's return type. Lines 199 and 211 dereference `->typeName` there, so a pointer-to-pointer parameter or a type-literal return type crashes in C; the model cannot express those inputs.
- Linkage: `LLVMAddFunction` and `LLVMAddGlobal` already create symbols with external linkage. `DefaultLinkage` and `ExternalLinkage` (StmtLowering.DeclaredFunction, StmtProperties.NewSignatureDeclares) therefore denote the same linkage, and only record whether line 215 ran.
