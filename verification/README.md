# A model of the Tensorium C front end

This project models the passes of the Tensorium C compiler that have little or no input and output of their own, and
proves what each of them promises.

- **Code generation** (`CAst`, `CSemantics`, `Lowering`, `MlirGen`, `Ir` and their proofs). Typed C statements become
  blocks of operations. `CSemantics` is a big-step meaning of the source, `Ir` a machine that runs blocks one
  operation at a time. `MlirGen.MLIRGen` is the generator as it is written, an object that appends operations at an
  insertion point; its methods are proved equal to the functions in `Lowering`, and the theorems about those functions
  say that generated code does what the source does, that it is well formed, in SSA form, with one slot for each
  parameter, and which functions are accepted.
- **The `#if` evaluator** (`PPValues`, `PPExpression`, `PPGrammar`). A parser fused with an evaluator, over wrapping
  64-bit values, compared with C's grammar, nonterminal by nonterminal, and a meaning of its trees.
- **The preprocessor** (`Lexing`, `Lexer`, `TokenRules`, `PPTokens`, `MacroArguments`, `MacroExpansion`,
  `MacroMeaning`, `MacroExactness`, `MacroTermination`, `Directives`, `ConditionalGroups`, `DefinedNames`,
  `TextLines`, `Preprocessor`, `Locations`, `Relexing`, `OutputText`). Lexing, normalization with source locations,
  macro definition and expansion, conditional groups, quoting, stringizing and the preprocessed text. `MacroMeaning`
  is what macro replacement means, a relation between token lists, and expansion is proved to answer with the one list
  that is related to its input.
- **The parsers of expressions and declarators** (`ParseExpr`, `ExprGrammar`, `ExprRoundTrip`, `Declarators`,
  `DeclaratorRoundTrip`, `ParseDecl`). The expression parser takes exactly the lists that derive from C's grammar;
  printing and parsing are inverse; declarators are built on the heap around a placeholder.
- **Semantic analysis** (`Qualifiers`, `SemaTypes`, `SemaTags`, `SemaTree`, `SemaConversions`, `SemaExpr`,
  `OperatorTyping`, `SymbolTable`, `SemaStmt`, `SemaUnit`, `SemaRules`, `DeclarationRules`, `Linkage`, `Sema`,
  `SemaSoundness`). Types, tags, conversions, scopes and declarations; `OperatorTyping`, `DeclarationRules` and
  `Linkage` say what C asks of operators and of declarations. What analysis accepts satisfies the contract that code
  generation relies on.
- **From analyzed source to running code** (`CValues`, `TypedSemantics`, `Handover`, `TypedAgreement`, `Frontend`).
  The analyzed tree has a meaning of its own, read off its operators, conversions and statements; what is handed to
  code generation means the same, and `Frontend` composes analysis, generation and running.

Conventions of the model. Addresses in the source and in generated code are positions in a sequence of cells, related
by a renaming; a cell of width zero stands for no object, so that its address is a null or a dangling pointer. Calls
to other functions are events answered by an environment that sees all earlier calls and the objects reachable by the
callee. Operands are evaluated left to right and signed arithmetic wraps, as the generated operations do; an object
that has not been written holds whatever the environment chooses. A loop test spends one unit of fuel, which is what
makes divergence a statement. `Stuck` is what C leaves undefined: only a load or store through a pointer that
designates no object of the right width, in code that generation accepts.

## Model

| member | source | states |
|---|---|---|
| `Preservation.Preserves` | lib/CodeGen/MLIRGenFunction.cpp:6-70 | Semantic preservation. For every definition that generation accepts, every call of it with integers in range and any pointers, every environment and every amount of fuel: running the generated blocks gives the source's answer, the same calls in the same order with the same visible objects, and the same contents of the caller's objects; while the source is still running, the code is too, after at least as many steps and with the same calls. Nothing is promised once the source has loaded or stored through a pointer to no object. |
| `Preservation.NeverFaults` | lib/CodeGen/MLIRGenControlFlow.cpp:42-252 | For every n: if the source has not done anything undefined with fuel n, the machine has not faulted after n steps: no missing register, no width mismatch, no jump outside the function, no bad address. |
| `Preservation.HaltsExactlyWhenSourceReturns` | lib/CodeGen/MLIRGenControlFlow.cpp:118-252 | For calls that C defines, the code halts if and only if the source returns; so termination and divergence are both preserved. |
| `Preservation.HaltedAnswer` | lib/CodeGen/MLIRGenFunction.cpp:29-66 | Whenever the code has halted, its answer, calls and objects are those of the source, however much fuel the source was given. |
| `SourceSafety.ValidPointersAreDefined` | lib/CodeGen/MLIRGenFunction.cpp:6-70 | Called with pointers that designate objects of their pointee's width, an accepted definition does nothing undefined, with any amount of fuel. |
| `SourceSafety.ValidPointersNeverFault` | lib/CodeGen/MLIRGenFunction.cpp:6-70 | Called with such pointers, the code generated for an accepted definition never faults. |
| `ExprSimulation.SimExpr` | lib/CodeGen/MLIRGenExpr.cpp:7-160 | The operations emitted for an accepted, checked expression that has a value compute that value into the returned register, make the same calls, keep the objects related, and leave every register that existed before unchanged. |
| `ExprSimulation.SimPlace` | lib/CodeGen/MLIRGenMemory.cpp:18-74 | The operations emitted for an lvalue leave the address of the object the source designates; a parameter without a slot gets one that holds its current contents. |
| `ExprSimulation.MaterializeSim` | lib/CodeGen/MLIRGenMemory.cpp:99-113 | Giving a parameter its slot moves the object's contents from the entry value into storage and keeps every other variable related. |
| `ExprSimulation.SimCall` | lib/CodeGen/MLIRGenFunction.cpp:72-117 | The operations emitted for an accepted direct call evaluate the arguments left to right, make one call of the same function with the same arguments, and leave the callee's answer and its writes in the same objects. |
| `ExprSimulation.PredicateMeaning` | lib/CodeGen/MLIRGenBinary.cpp:47-72 | The predicate chosen for a comparison, signed or unsigned, holds of two bit patterns exactly when the comparison holds of the values they stand for. |
| `ExprSimulation.ArithMeaning` | lib/CodeGen/MLIRGenBinary.cpp:97-147 | Adding, subtracting or multiplying bit patterns gives the bits of the result on the values, for either signedness and any width. |
| `ExprSimulation.SimConversion` | lib/CodeGen/MLIRGenExpr.cpp:85-142 | The operations chosen for an integer conversion, a truncation, a sign or zero extension, a test against zero for _Bool or nothing, compute the converted value of C99 sections 6.3.1.2 and 6.3.1.3. |
| `ControlSimulation.SimIf` | lib/CodeGen/MLIRGenControlFlow.cpp:42-116 | Whatever an if statement does in the source, falling through, breaking, continuing, returning or running on, the emitted blocks do from the point where its code starts, and arrive where generation goes on. |
| `ControlSimulation.SimWhile` | lib/CodeGen/MLIRGenControlFlow.cpp:118-170 | The same for while loops, for every number of iterations. |
| `ControlSimulation.SimFor` | lib/CodeGen/MLIRGenControlFlow.cpp:172-252 | The same for for loops: initializer, test, body and increment, with continue going to the increment. |
| `ControlSimulation.SimItems` | lib/CodeGen/MLIRGenStmt.cpp:7-120 | The same for the items of a block, where items after one that ends the block are not emitted. |
| `Cfg.GeneratedWellFormed` | lib/CodeGen/MLIRGenControlFlow.cpp:42-252 | Every block of a generated function that is not erased ends in its only terminator; every branch goes to a block that exists and has not been erased, never to the entry block; an erased block is empty. |
| `DominanceOfCode.DefinitionsDominateUses` | lib/CodeGen/MLIRGen.cpp:57-60 | Generated code is in SSA form: each value is defined at most once, entry arguments never again, and each operand is an entry argument, or defined earlier in its block, or defined in another block that lies on every path of branches from the entry. |
| `ParameterStorage.ParametersLiveInStorage` | lib/CodeGen/MLIRGenMemory.cpp:99-113 | No operation outside the entry block reads an integer argument: from there parameters are reached through their slots. |
| `ParameterSlots.ParametersHaveOneSlot` | lib/CodeGen/MLIRGenMemory.cpp:58-74 | Each scalar parameter that has a slot got it in the entry block, by an allocation followed at once by the store of its own argument; parameters' slots differ; and if control leaves the entry block, every scalar parameter has one. The allocations of the whole function are exactly these slots and, apart from them, one for each declaration that control can reach, so there is no second slot for a parameter and none shared with a local. |
| `Allocations.EverythingAccounted` | lib/CodeGen/MLIRGenMemory.cpp:4-16 | Generated code allocates one value for each parameter that has a slot and one more for each declaration that control can reach, all different, and nothing else. |
| `Acceptance.AcceptedExactlyWhenSupported` | lib/CodeGen/MLIRGenStmt.cpp:7-120 | For units without floating types: a definition is accepted if and only if every construct that control can reach is supported and control cannot run off the end of a function that returns something. No diagnostic about a jump outside a loop, or about types that do not match, is among the conditions, except where a pointer is converted to another pointee and where a called function was declared without a prototype. |
| `MlirGen.MLIRGen.EmitExpr` | lib/CodeGen/MLIRGenExpr.cpp:7-160 | Appends exactly the operations that Lowering.EmitExpr describes and returns its value, or refuses when it does. |
| `MlirGen.MLIRGen.EmitLValue` | lib/CodeGen/MLIRGenMemory.cpp:18-74 | Appends the operations of Lowering.EmitPlace, updating the storage map, and returns the slot. |
| `MlirGen.MLIRGen.EmitAssign` | lib/CodeGen/MLIRGenBinary.cpp:6-21 | Address first, then value, then the store; the state afterwards is that of Lowering.EmitAssign. |
| `MlirGen.MLIRGen.EmitComparison` | lib/CodeGen/MLIRGenBinary.cpp:23-95 | Both operands, the comparison and its extension to int, as in Lowering.EmitExpr. |
| `MlirGen.MLIRGen.EmitArithmetic` | lib/CodeGen/MLIRGenBinary.cpp:97-147 | Both operands and one operation of the type's width, as in Lowering.EmitExpr. |
| `MlirGen.MLIRGen.EmitConversion` | lib/CodeGen/MLIRGenExpr.cpp:85-142 | The conversion between two integer types, as in Lowering.EmitConversion. |
| `MlirGen.MLIRGen.EmitCondition` | lib/CodeGen/MLIRGenControlFlow.cpp:6-40 | Leaves a one-bit value, as in Lowering.EmitCondition. |
| `MlirGen.MLIRGen.EmitCall` | lib/CodeGen/MLIRGenFunction.cpp:72-117 | Emits the arguments in a loop and the call, as in Lowering.EmitCall; refuses an indirect call, a wrong number of arguments or a type that differs. |
| `MlirGen.MLIRGen.MaterializeParameters` | lib/CodeGen/MLIRGenMemory.cpp:99-113 | Visits the parameters in the map's order, skips pointers and those with a slot, and gives each other one its slot, as in Lowering.MaterializeParameters. |
| `MlirGen.MLIRGen.EmitBlock` | lib/CodeGen/MLIRGenStmt.cpp:7-120 | Emits items until one of them terminates the block; the state afterwards is that of Lowering.EmitItems. |
| `MlirGen.MLIRGen.EmitVar` | lib/CodeGen/MLIRGenStmt.cpp:14-42 | Allocates a local before its initializer is emitted, then stores the value, as in Lowering.EmitVar. |
| `MlirGen.MLIRGen.EmitReturn` | lib/CodeGen/MLIRGenStmt.cpp:93-112 | Emits the value and the return, or refuses one that does not fit the function, as in Lowering.EmitReturn. |
| `MlirGen.MLIRGen.EmitIf` | lib/CodeGen/MLIRGenControlFlow.cpp:42-116 | Parameters, condition, two or three blocks, the arms, and a merge block that is erased when nothing reaches it, as in Lowering.EmitIf. |
| `MlirGen.MLIRGen.EmitWhile` | lib/CodeGen/MLIRGenControlFlow.cpp:118-170 | Creates the loop's blocks, pushes and pops its targets around the body, as in Lowering.EmitWhile. |
| `MlirGen.MLIRGen.EmitFor` | lib/CodeGen/MLIRGenControlFlow.cpp:172-252 | The same with initializer and increment block, as in Lowering.EmitFor. |
| `MlirGen.MLIRGen.EmitFunction` | lib/CodeGen/MLIRGenFunction.cpp:6-70 | The blocks after emitting a definition are those of Lowering.EmitFunction, with the implicit return of void functions and of main. |
| `Frontend.SelectFunctions` | lib/CodeGen/MLIRGen.cpp:24-45 | Collects exactly one declaration for each function of the unit, in order of first declaration: the definition if there is one, otherwise the last with a prototype, otherwise the first; refuses any declaration that is neither a function nor a typedef. |
| `Frontend.AnalyzedIsAccepted` | lib/Sema/Sema.cpp:8-34 | A definition that semantic analysis lets through is generated if and only if its reachable constructs are supported, a condition without types when all functions have prototypes. |
| `Frontend.AnalyzedRunsAsWritten` | lib/Sema/Sema.cpp:8-34 | Analysis, generation and running composed: an analyzed definition with supported constructs is generated, and the generated code gives the answer, the calls and the objects that the analyzed tree means, by the evaluator of TypedSemantics, which reads operators, conversions and statements off that tree. |
| `TypedAgreement.EvaluateAgrees` | lib/CodeGen/MLIRGenExpr.cpp:7-160 | Every expression that satisfies the contract means the same before and after it is handed to code generation: the same value and the same objects, or no meaning in both. Before, each operator and conversion has its own case, over values reduced to the width of the type. |
| `TypedAgreement.ExecuteAgrees` | lib/CodeGen/MLIRGenStmt.cpp:7-120 | The same for statements, for every amount of fuel: the same outcome with the same objects, and the same declarations in scope. |
| `TypedAgreement.RunAgrees` | lib/CodeGen/MLIRGenFunction.cpp:6-70 | The same for a call of a whole definition: the same answer after the same calls. |
| `CValues.WrapReduces` | lib/CodeGen/MLIRGenExpr.cpp:85-142 | The conversions of code generation's source language give the one value of the target type that is congruent modulo 2 to its width, or for _Bool whether the value is zero, with ranges taken from the widths alone. |
| `PPGrammar.EvaluatesExactly` | lib/Lex/PPExpression.cpp:20-268 | For every token list: the evaluator gives truth value b if and only if the list derives from C's conditional-expression within the nesting limit, with a tree whose meaning is defined and has truth value b. The grammar is one predicate for each nonterminal, with its own operators and operands, and the meaning evaluates its logical and conditional operators lazily, wraps at 64 bits, divides truncating towards zero and shifts signed values arithmetically. |
| `PPGrammar.LevelsAreNonterminals` | lib/Lex/PPExpression.cpp:55-77 | The precedence numbers are C's grammar: a tree of precedence at least k whose operators associate to the left is an expression of exactly the k-th nonterminal, from unary to conditional expressions. |
| `PPGrammar.EvaluatesToMeaning` | lib/Lex/PPExpression.cpp:111-268 | Every derivable list is answered with the meaning of its tree, its value or its first fault. |
| `PPGrammar.MeaningIsUnique` | lib/Lex/PPExpression.cpp:55-77 | Two derivations of one list have the same meaning, so the precedence table leaves no ambiguity that matters. |
| `PPGrammar.UnevaluatedCannotFault` | lib/Lex/PPExpression.cpp:164-250 | Read from its tokens, a conjunction with a zero left side is false, a disjunction with a non-zero left side true, and a conditional is accepted when the chosen branch has a value, whatever the operand that is not evaluated divides or shifts by. |
| `PPGrammar.ReportedProblemStays` | lib/Lex/PPExpression.cpp:42-48 | Only the first problem is kept: evaluation after a reported problem answers with it. |
| `PPValues.ApplyMeans` | lib/Lex/PPExpression.cpp:164-233 | The evaluator's operations on 64-bit patterns compute C's results on values of either signedness, including the shift, division and overflow errors. |
| `PPExpression.Expression.EvaluateAll` | lib/Lex/PPExpression.cpp:20-26 | The class, which advances a position and a depth counter through the tokens, answers what the function Evaluate specifies. |
| `PPExpression.Expression.UnaryOperand` | lib/Lex/PPExpression.cpp:111-162 | Leaves the position, depth and reported problem that the specification function gives for unary operands. |
| `PPExpression.Expression.BinaryExpression` | lib/Lex/PPExpression.cpp:235-250 | The same for the precedence-climbing loop, whose precedences LevelsAreNonterminals ties to C's grammar. |
| `PPExpression.Expression.ConditionalExpression` | lib/Lex/PPExpression.cpp:252-268 | The same for conditionals. |
| `MacroDefinition.DefineKeepsTable` | lib/Lex/Preprocessor.cpp:541-634 | Every definition that #define accepts is one that substitution relies on: in a function-like macro # stands before a parameter, each ## has a token on both sides, parameters are distinct identifiers, __VA_ARGS__ occurs only in variadic macros; and the table of macros stays so. |
| `MacroDefinition.WrittenParametersAreRead` | lib/Lex/Preprocessor.cpp:557-588 | A list of distinct names, possibly ended by an ellipsis, is read as that list. |
| `MacroDefinition.ReadParametersAreWritten` | lib/Lex/Preprocessor.cpp:557-588 | Conversely, whatever is read as a parameter list was written as one, so nothing else is accepted. |
| `MacroDefinition.DefinesExactly` | lib/Lex/Preprocessor.cpp:541-634 | A #define is accepted if and only if the name may be defined and the replacement list is in order, and then the table maps the name to the macro that is written, with its parameters and replacement list as they stand, and every other name to what it was. |
| `MacroDefinition.DefinedIsWritten` | lib/Lex/Preprocessor.cpp:541-634 | Whatever #define accepts is written as some macro, so the previous statement covers all of it. |
| `MacroArguments.CollectsExactly` | lib/Lex/Preprocessor.cpp:352-388 | Collection answers with an invocation if and only if that is how the pending tokens split: arguments with balanced parentheses, joined by their commas, up to the matching parenthesis. So no token is lost, repeated or reordered. |
| `MacroArguments.MatchConserves` | lib/Lex/Preprocessor.cpp:389-407 | Matching gives one argument for each parameter, and the arguments rejoined with their commas are still every token between the parentheses. |
| `MacroExpansion.StringizeNamesParameter` | lib/Lex/Preprocessor.cpp:431-438 | In an accepted definition # is always followed by a parameter, so that stringizing never looks outside the arguments. |
| `MacroExpansion.ShapedIsPasteable` | lib/Lex/Preprocessor.cpp:472-523 | In the parts substituted for an accepted definition each paste has an operand on both sides, a placemarker when an argument is empty, and no ## that came from an argument acts as a paste; the fold never runs off either end. |
| `MacroExactness.ContributesExactly` | lib/Lex/Preprocessor.cpp:414-470 | For every k: a replacement token spelled like parameter k is replaced by argument k, completely expanded, or as it is written beside ##, or as the string literal of its spelling after #; every other token stands for itself. Names and arguments are paired by position in the parameter list. |
| `MacroExactness.SubstitutesExactly` | lib/Lex/Preprocessor.cpp:425-470 | The substituted list is the contributions of all replacement tokens in order, and nothing else is. |
| `MacroExactness.PastesExactly` | lib/Lex/Preprocessor.cpp:472-523 | The loop over the parts joins what stands on the two sides of each ##, the first ## first, into the one token that their spellings form, and gives up exactly where that cannot be done. |
| `MacroExactness.FitsExactly` | lib/Lex/Preprocessor.cpp:389-407 | The arguments that are matched are the ones that fit: one for each parameter, the variadic one taking the rest with their commas, none for empty parentheses and no parameters. |
| `MacroExactness.ExpansionIsMeaning` | lib/Lex/Preprocessor.cpp:308-539 | For every table that #define can build and every input: if expansion answers, its answer is related to the input by the meaning of macro replacement, and no other list is; if it fails for another reason than a limit, no list is. The meaning is a relation without a scan, a counter or a table of prepared arguments, over whole invocations: arguments by name, hidden names, pasting and rescanning with what follows. |
| `MacroTermination.BodyHides` | lib/Lex/Preprocessor.cpp:409-537 | Every token pushed back by an object-like expansion carries exactly the name just expanded and what hid it. |
| `MacroTermination.BodyIsLighter` | lib/Lex/Preprocessor.cpp:409-537 | Expanding a token strictly decreases the weight of the pending tokens, where a token with k names left to expand weighs 1 + L times one with k - 1. |
| `MacroTermination.ScanIsFree` | lib/Lex/Preprocessor.cpp:308-346 | For object-like tables of at most 128 macros: the scan with its three limits agrees with a scan that has none, unless it runs out of expansions, and then the weight of its input exceeds what was left; the limit on hide sets is never what stops it. |
| `MacroTermination.ExpansionIsFree` | lib/Lex/Preprocessor.cpp:308-539 | Within the budget of expansions, object-like expansion is the unlimited expansion. |
| `MacroTermination.ExpansionSettles` | lib/Lex/Preprocessor.cpp:308-346 | Every identifier that expansion leaves is hidden from itself, undefined and not predefined, or the name of a function-like macro. |
| `MacroTermination.EmittedIsSettled` | lib/Lex/Preprocessor.cpp:316-341 | The step that emits it: a function-like macro's name is emitted only where no opening parenthesis follows it, and any other identifier only when there is nothing to expand. |
| `MacroTermination.ExpansionIsIdempotent` | lib/Lex/Preprocessor.cpp:308-539 | For object-like tables, expanding the result again changes nothing, and spends no expansion. |
| `Preprocessor.Preprocessor.Expand` | lib/Lex/Preprocessor.cpp:308-539 | The class, with its pending tokens, output and counter of expansions, computes the expansion that the theorems are about, and its answer is the meaning of the input, the only one. |
| `Preprocessor.Preprocessor.CollectArguments` | lib/Lex/Preprocessor.cpp:352-388 | The loop over the pending tokens returns the specified invocation. |
| `Preprocessor.Preprocessor.SubstituteArguments` | lib/Lex/Preprocessor.cpp:425-470 | The loop over the replacement list, expanding each argument at most once, returns the specified parts, which ContributesExactly and SubstitutesExactly tie to the names of the parameters. |
| `Preprocessor.Preprocessor.PasteParts` | lib/Lex/Preprocessor.cpp:472-523 | The paste loop returns the specified tokens or the paste that fails. |
| `Preprocessor.Preprocessor.DefineMacro` | lib/Lex/Preprocessor.cpp:541-634 | Updates the table of macros as the function Define specifies, and refuses exactly when it does. |
| `Preprocessor.Preprocessor.EvaluateCondition` | lib/Lex/Preprocessor.cpp:636-662 | Replaces defined, expands the rest and evaluates it, as the function Condition specifies. |
| `Preprocessor.Preprocessor.ProcessTokens` | lib/Lex/Preprocessor.cpp:729-856 | Splits tokens into lines and runs the stack machine over them; output, macros and problem are those of the function Process. |
| `Directives.LineKeepsStack` | lib/Lex/Preprocessor.cpp:755-811 | Every line keeps the stack of conditionals sound: each frame's parentActive is the active of the frame below, and an active frame is taken and inside an active one. |
| `ConditionalGroups.ProcessIsGroupEvaluation` | lib/Lex/Preprocessor.cpp:729-856 | The stack machine on the lines of properly nested groups gives the tokens, macros and problems of a recursive evaluation that processes at most one group of each section and expands each text under the macros left by the directives before it. |
| `ConditionalGroups.OnlyGroupsAreAccepted` | lib/Lex/Preprocessor.cpp:777-855 | Any lines the stack machine accepts are the lines of properly nested groups, so the previous statement covers every accepted input. |
| `ConditionalGroups.SkippedGroupIsInert` | lib/Lex/Preprocessor.cpp:812-813 | A skipped group leaves output, macros and the count of expansions as they were; it can fail only at a malformed nested #ifdef or #ifndef. |
| `ConditionalGroups.SkippedBranchesAreInert` | lib/Lex/Preprocessor.cpp:784-810 | The same for all branches after the one that was processed, and for all of a skipped section. |
| `DefinedNames.IfdefAsksTheLast` | lib/Lex/Preprocessor.cpp:269-272 | After any lines of text and directives without conditionals and includes, #ifdef selects its group, and #ifndef does not, if and only if the name is predefined, or the last line that defined or undefined it defined it, or there is none and it was defined before. |
| `DefinedNames.DefinedIsIfdef` | lib/Lex/Preprocessor.cpp:636-662 | #if defined X and #if defined ( X ) select their group exactly when #ifdef X does. |
| `DefinedNames.ConditionIsMeaning` | lib/Lex/Preprocessor.cpp:636-662 | A decided condition without defined selects its group exactly when its complete expansion, by the meaning of macro replacement, derives from C's grammar with a meaning other than zero. |
| `TextLines.TextIsExpanded` | lib/Lex/Preprocessor.cpp:745-756 | What is put out for lines of text is the meaning of all of them as one list, after what was waiting, so that an invocation may go on over several lines; nothing is left waiting. |
| `TextLines.SkippedTextIsDropped` | lib/Lex/Preprocessor.cpp:745-753 | Lines of text in a group that is skipped change nothing. |
| `Locations.AddSource` | lib/Basic/Diagnostic.cpp:64-77 | The table has the start of each line, in order, for any mix of CR, LF and CR LF. |
| `Locations.Normalize` | lib/Lex/Preprocessor.cpp:57-86 | One location for each byte kept, each the line and column of the byte it came from; the bytes come in increasing order, and those left out are exactly the splices and the LF of each CR LF. |
| `Locations.LocationsResolve` | lib/Basic/Diagnostic.cpp:104-118 | Looking up a location of normalization in the separately computed table of line starts gives back the byte. |
| `Relexing.QuoteText` | lib/Lex/Preprocessor.cpp:18-30 | The loop writes the quoted text as the function Quote specifies. |
| `Relexing.QuoteIsReadBack` | lib/Lex/Lexer.cpp:224-281 | Lexing a quoted text as a string literal decodes it to that text if it has no NUL, and is refused if it has one. |
| `Relexing.StringizedIsReadBack` | lib/Lex/Preprocessor.cpp:32-49 | Lexing a stringized argument decodes it to the spelling of its tokens with single spaces, for arguments without NULs or line ends and without backslashes or quotes outside literals. |
| `OutputText.WriteText` | lib/Lex/Preprocessor.cpp:896-913 | Writes the tokens with a line end where the line or file changes, a space elsewhere, and a last line end. |
| `OutputText.TextIsReadBack` | lib/Lex/Preprocessor.cpp:867-913 | Lexing the preprocessed text gives the tokens it was written from, whenever each of them alone is lexed as one token; no two neighbours ever merge. |
| `Lexers.Lexer.NextToken` | lib/Lex/Lexer.cpp:506-529 | The cursor class reads the token that the function Next gives and stops right after it, or refuses where it does. |
| `Lexers.Lexer.LexString` | lib/Lex/Lexer.cpp:224-281 | The same for string literals and their decoded contents. |
| `Lexers.Lexer.LexNumber` | lib/Lex/Lexer.cpp:113-163 | The same for numbers, with digits, point, exponent and suffix. |
| `Lexers.Lexer.LexChar` | lib/Lex/Lexer.cpp:165-222 | The same for character constants. |
| `Lexers.Lexer.SkipWhiteSpaceAndComments` | lib/Lex/Lexer.cpp:71-99 | Moves to where the function Skip says, or refuses a comment that does not end. |
| `Lexers.Lexer.TokenizeAll` | lib/Lex/Lexer.cpp:539-548 | All tokens to the end of the source, as the function Tokens gives them. |
| `TokenRules.StringStandsForText` | lib/Lex/Lexer.cpp:224-281 | Every text, with any characters in it, can be written as a string literal with the escapes that C and the lexer share, and the literal is decoded to the text. |
| `TokenRules.ConstantStandsForCharacter` | lib/Lex/Lexer.cpp:165-222 | The same for every character and its constant, NUL written as backslash and zero among them. |
| `TokenRules.OtherEscapesRefused` | lib/Lex/Lexer.cpp:172-212 | A literal with any other character after a backslash is refused. |
| `TokenRules.LongestPunctuator` | lib/Lex/Lexer.cpp:283-504 | A punctuator that is read is one of C's, and as long as any that the text goes on with; none is read exactly where there is none. |
| `TokenRules.IdentifierIsLongest` | lib/Lex/Lexer.cpp:101-111 | An identifier is the longest run of letters, digits and underscores. |
| `ExprRoundTrip.ParsesExactly` | lib/Parse/ParseExpr.cpp:8-55 | For every token list and tree e: the parser takes the whole list as e if and only if the list derives from the grammar of C99 section 6.5 as e, by a derivation whose operands of sizeof are plain. Each nonterminal lists its own operators and the nonterminals of its operands, so precedence and associativity are the standard's. |
| `ExprRoundTrip.DerivationIsRead` | lib/Parse/ParseExpr.cpp:8-311 | Every such derivation, with any parentheses, is read as the tree it stands for, to its end. |
| `ExprRoundTrip.TreeIsUnique` | lib/Parse/ParseExpr.cpp:315-381 | Two such derivations of one list stand for the same tree. |
| `ExprRoundTrip.SizeofStopsEarly` | lib/Parse/ParseExpr.cpp:148-180 | A concrete failure: sizeof (a)[0] derives from C's grammar, and the parser stops after the parenthesis. |
| `ExprGrammar.LevelsAreNonterminals` | lib/Parse/ParseExpr.cpp:315-381 | The numbers of the two tables are C's grammar: the trees that the parser's levels and associativities allow at level k are exactly those of one nonterminal, from postfix to comma expressions. |
| `ExprRoundTrip.RoundTrip` | lib/Parse/ParseExpr.cpp:8-381 | For every tree of binary, assignment, comma, conditional, prefix, postfix, call, index, member and sizeof nodes and every minimum level up to that of postfix expressions: written with only the parentheses that the grammar needs, it is read back as the same tree, and parsing stops right after it. |
| `ParseExpr.Parser.Expression` | lib/Parse/ParseExpr.cpp:8-55 | The parser with its cursor and loop returns the tree of the function ParseExpression and stops where it does; ParsesExactly says which tree that is. |
| `ParseExpr.Parser.UnaryExpression` | lib/Parse/ParseExpr.cpp:57-187 | The same for prefix operators and sizeof. |
| `ParseExpr.Parser.Postfix` | lib/Parse/ParseExpr.cpp:245-311 | The same for the loop over postfix operators, calls, indexes and members. |
| `DeclaratorRoundTrip.RoundTrip` | lib/Parse/ParseDecl.cpp:232-377 | For every type built from qualified pointers, arrays and functions to any depth, named or not: its declarator is read back as that type, and reading stops right after it. |
| `ParseDecl.WriteThenParse` | lib/Parse/ParseDecl.cpp:262-295 | The same on the heap: parsing the written declarator builds new nodes that show exactly the layers of the type around the given base. |
| `ParseDecl.DeclaratorParser.ParseDeclarator` | lib/Parse/ParseDecl.cpp:262-295 | For any tokens, the parser builds on fresh nodes what the function ParseDeclarator reads and stops where it does, or refuses where it does. |
| `ParseDecl.ReplacePlaceholder` | lib/Parse/ParseDecl.cpp:241-260 | Patches in place: the chain that ended in the placeholder ends in the replacement, with the same nodes and layers; only nodes of the chain change. |
| `ParseDecl.ReachedOnce` | lib/Parse/ParseDecl.cpp:270-294 | A node that is not part of a chain is reached from it exactly once, from its innermost node, if it is where the chain ends; so a placeholder occurs once before it is patched and not afterwards. |
| `SemaTypes.CompatibleReflexive` | lib/Sema/SemaDecl.cpp:6-44 | Every type is compatible with itself. |
| `SemaTypes.CompatibleSymmetric` | lib/Sema/SemaDecl.cpp:6-44 | Compatibility is symmetric. |
| `SemaTypes.ChainsExactlyThroughDefinite` | lib/Sema/SemaDecl.cpp:6-44 | Compatibility can be chained through a type if and only if every array in it has a size and every function a prototype. |
| `SemaTypes.UnknownSizeLinksSizes` | lib/Sema/SemaDecl.cpp:13-16 | A concrete failure of transitivity: int[2], int[] and int[3]. |
| `SemaConversions.CommonKindIsLeast` | lib/Sema/SemaConversions.cpp:82-104 | The common kind of two promoted kinds fits both, and is below every kind that does. |
| `SemaConversions.CommonKindIsJoin` | lib/Sema/SemaConversions.cpp:82-104 | The usual arithmetic conversions are idempotent, commutative and associative on promoted kinds, for every target with int, long and long long of growing width; OperatorTyping.IntegralOperands says that operands are brought to this kind. |
| `SemaConversions.CommonKindKeepsValues` | lib/Sema/SemaConversions.cpp:82-104 | Converting an operand to the common kind keeps its value, except that a negative value becomes congruent modulo 2 to the width when the common kind is unsigned. |
| `SemaConversions.PromotionKeepsValuesExactly` | lib/Sema/SemaConversions.cpp:12-18 | Promotion keeps all values of a kind if and only if it is not an unsigned kind below int that is as wide as int. |
| `SemaConversions.PromotionKeepsOnShippedTargets` | lib/Basic/TargetInfo.cpp:3-34 | On the three targets that ship, promotion keeps every value of every kind. |
| `SemaConversions.WideShortIsLost` | lib/Sema/SemaConversions.cpp:12-18 | A concrete failure: with a 16-bit int, 65535 of type unsigned short becomes -1. |
| `SemaConversions.LiteralHasFirstType` | lib/Sema/SemaConversions.cpp:67-79 | An integer literal gets the first type of its list that can represent it, and is refused if and only if none can. |
| `SemaConversions.CommonPointerConverts` | lib/Sema/SemaConversions.cpp:139-181 | Both operands convert to a common pointer type, whatever they look like as constants, and its pointee has the qualifiers of both. |
| `SemaConversions.PointeeQualifiersKept` | lib/Sema/SemaConversions.cpp:162-181 | A pointer converted to a pointer type keeps every qualifier of its pointee. |
| `SemaExpr.OperandsConvert` | lib/Sema/SemaExpr.cpp:59-126 | For well-formed operand types, the conversions of a binary operator's operands, whose results nobody looks at, succeed whenever the operator has a rule. |
| `SemaExpr.ConditionalConverts` | lib/Sema/SemaExpr.cpp:156-183 | The same for the branches of a conditional and their common type. |
| `OperatorTyping.IntegralOperands` | lib/Sema/SemaExpr.cpp:59-126 | For integral operands of promoted kinds j and k, every multiplicative, additive, bitwise, relational and equality operator brings both to the first kind that admits j and k, in the order int, unsigned int, long and so on: one of no lower rank that, if it is signed, has all their values. The result has that kind, or is an int for comparisons, and every operand value is kept, or 2 to the width is added to it where it is negative and the kind unsigned. |
| `OperatorTyping.FloatingOperands` | lib/Sema/SemaExpr.cpp:59-126 | With a floating operand both are brought to the largest floating type among them, which is the type of the result except for comparisons. |
| `OperatorTyping.ConditionalOperands` | lib/Sema/SemaExpr.cpp:156-183 | The same for the two values of a conditional, whose type is the common one. |
| `OperatorTyping.ShiftOperands` | lib/Sema/SemaExpr.cpp:110-117 | The operands of a shift are promoted each on its own, and the result has the left one's type. |
| `OperatorTyping.SequencedOperands` | lib/Sema/SemaExpr.cpp:69-73 | The logical operators take scalars and give an int; a comma expression has the type of its right operand. |
| `OperatorTyping.PointerOperands` | lib/Sema/SemaExpr.cpp:96-109 | An offset is promoted and the pointer keeps its type; the difference of two pointers has the signed integer type as wide as a pointer. |
| `OperatorTyping.AcceptedExactlyWhenPermitted` | lib/Sema/SemaExpr.cpp:59-126 | Every operator but assignments is accepted if and only if its operands' values satisfy the constraint that C gives for it. |
| `OperatorTyping.CompoundOperands` | lib/Sema/SemaExpr.cpp:128-154 | A compound assignment is accepted where its operation is, its left operand modifiable and the result assignable; it converts its right operand as the operation does, computes in the operation's type and has its left operand's type. |
| `OperatorTyping.AssignedOperand` | lib/Sema/SemaExpr.cpp:134-140 | A number assigned to an arithmetic object is brought to the object's type, which is the type of the assignment. |
| `OperatorTyping.ConvertsExactly` | lib/Sema/SemaConversions.cpp:162-181 | A value converts to a type if and only if C allows it to be assigned to an object of that type, in the way the two types call for, and not at all between compatible types. |
| `OperatorTyping.UnaryOperand` | lib/Sema/SemaExpr.cpp:38-56 | The unary arithmetic operators promote integral operands and keep floating ones, ~ takes only integral ones, and ! gives an int for any scalar. |
| `OperatorTyping.ValueOfExpression` | lib/Sema/SemaConversions.cpp:115-126 | Taking the value of an expression makes a pointer to its first element of an array and a pointer to it of a function, and reads an lvalue, whose value has no qualifiers. |
| `OperatorTyping.PlaceOperand` | lib/Sema/SemaExpr.cpp:22-44 | & is accepted for functions and lvalues that are no register variables and gives a pointer to the operand's type; * is accepted for pointers but those to void and gives an lvalue of what is pointed to, unless that is a function. |
| `OperatorTyping.StepOperand` | lib/Sema/SemaExpr.cpp:31-37 | Increments and decrements are accepted exactly for modifiable lvalues that are numbers or pointers to objects. |
| `OperatorTyping.IndexOperands` | lib/Sema/SemaExpr.cpp:252-270 | A subscript is accepted exactly for a pointer to an object and an integer, in either order; the integer is promoted, and the result is an lvalue of the pointee's type. |
| `OperatorTyping.SizeOperand` | lib/Sema/SemaExpr.cpp:290-301 | sizeof is accepted exactly for operands of a valid and complete type, and has the unsigned integer type as wide as a pointer. |
| `OperatorTyping.CallOperands` | lib/Sema/SemaExpr.cpp:225-254 | A call is accepted if and only if the callee is a function, the number of arguments suits its prototype, each argument converts to its own parameter and the result is void or complete; arguments beyond the parameters are promoted, and each argument is passed as it was converted. |
| `OperatorTyping.DefaultPromotions` | lib/Sema/SemaConversions.cpp:183-190 | An argument without a parameter is passed as a double if it is a float, promoted if it is integral, and as it is otherwise. |
| `OperatorTyping.LiteralTyped` | lib/Sema/SemaConversions.cpp:26-80 | An integer literal has the lowest type, in the order of the usual conversions, that its base and suffix leave open and that can hold its value, and is refused if and only if there is none. |
| `SemaSoundness.BinaryAcceptedByRule` | lib/Sema/SemaExpr.cpp:128-154 | A binary expression is accepted if and only if its operands are and the operator has a rule for them, with no assumption about types. |
| `SemaSoundness.ConditionalAcceptedByType` | lib/Sema/SemaExpr.cpp:156-183 | A conditional is accepted if and only if its parts are, its condition is scalar and its branches have a common type. |
| `SemaSoundness.AnalyzedWellFormed` | lib/Sema/SemaExpr.cpp:185-317 | The type of every analyzed expression is well formed, which is what the unchecked conversions rest on. |
| `SemaSoundness.OnlyAdds` | lib/Sema/SemaExpr.cpp:185-317 | Leaving out the types, declarations and conversions that analysis adds gives back the parsed tree. |
| `SemaSoundness.AnalyzedSound` | lib/Sema/SemaExpr.cpp:185-317 | Every accepted expression is fully typed and resolved, and the types that code generation compares agree: operands of comparisons and arithmetic, both sides of assignments, arguments of calls through prototypes. |
| `SymbolTables.BoundIsFound` | include/cc1/Sema/SymbolTable.hpp:10-22 | After binding a name it means the new declaration, and every other name means what it did. |
| `SymbolTables.InnerScopeHides` | include/cc1/Sema/SymbolTable.hpp:8-17 | Declarations of an inner scope hide outer ones and are gone with it. |
| `SymbolTables.SymbolTable.Find` | include/cc1/Sema/SymbolTable.hpp:10-17 | The loop from the innermost scope outwards finds what the function Lookup gives. |
| `SymbolTables.SymbolTable.Bind` | include/cc1/Sema/SymbolTable.hpp:22-22 | Changes the innermost scope at that name and nothing else. |
| `SemaUnit.AcceptedIsTogether` | lib/Sema/SemaDecl.cpp:171-223 | A function declaration that is compatible with the one currently bound, under the rules for redeclaring, agrees with every earlier declaration of the function, although compatibility is not transitive. |
| `SemaUnit.ContextAgrees` | lib/Sema/SemaDecl.cpp:171-223 | The one declaration that code generation selects for a function has the result and parameter types of every declaration of it. |
| `SemaUnit.BoundAgrees` | lib/Sema/SemaDecl.cpp:221-224 | While a unit is analyzed, what is bound at file scope agrees with the signatures of the whole unit. |
| `SemaTags.TagsAreConsistent` | lib/Sema/SemaDecl.cpp:53-64 | A type's tags are accepted if and only if one assignment of kinds to tags serves the tags known so far and the type; the tags known afterwards are the least such assignment, so the order of uses does not matter. |
| `DeclarationRules.VariableIsDeclared` | lib/Sema/SemaDecl.cpp:130-225 | A variable or parameter is accepted if and only if C's rules for it hold: a sound type, tags used as what they are, an object type that is complete where it has to be, a storage class for its scope, and, if the name is there already, a declaration that may follow. What is bound, with which type and number, and that no other name changes, is stated too. |
| `DeclarationRules.TypeNameIsDeclared` | lib/Sema/SemaDecl.cpp:130-225 | The same for type names, which may be declared again for a compatible type. |
| `DeclarationRules.FunctionIsDeclared` | lib/Sema/SemaDecl.cpp:159-224 | The same for functions without a body: parameter names, storage class, compatibility, and old-style definitions beside prototypes; a prototype is not forgotten for a declaration without one. |
| `DeclarationRules.LoopStarts` | lib/Sema/SemaStmt.cpp:74-104 | A for statement begins with nothing, an expression or the declaration of an automatic object. |
| `Linkage.LinkageJudgedExactly` | lib/Sema/SemaDecl.cpp:180-196 | Declarations of an int at file scope, with any storage classes in turn, are accepted exactly when C gives them one linkage, if and only if they do not forget that the name was static: static ones, an extern one, and later static ones or ones without a storage class but not both. |
| `Linkage.FunctionLinkageJudgedExactly` | lib/Sema/SemaDecl.cpp:180-196 | The same for prototypes of a function; there what is forgotten shows when a static one comes after others that follow static ones. |
| `Linkage.StaticIsForgotten` | lib/Sema/SemaDecl.cpp:184-186 | A concrete failure: static int x; extern int x; static int x; has one linkage in C, and is refused. |
| `Semantics.Sema.EnterTags` | lib/Sema/SemaDecl.cpp:46-89 | Walking a type reports a tag known as another kind exactly where TagsAfter gives None, and otherwise leaves the known tags it gives. |
| `Semantics.Sema.AnalyzeNode` | lib/Sema/SemaStmt.cpp:12-113 | A statement is reported if and only if the rules of SemaRules do not allow it where it stands, although analysis goes on after an error; if nothing is reported, scopes and variable numbers are left as the rules say, and the analyzed statement is the parsed one with additions and satisfies the contract of code generation. |
| `Semantics.Sema.AnalyzeBlock` | lib/Sema/SemaStmt.cpp:3-10 | The same for the items of a block; a nested block's declarations are gone afterwards. |
| `Semantics.Sema.DeclareVariable` | lib/Sema/SemaDecl.cpp:130-225 | A variable or parameter is accepted if and only if its tags are used as the kinds they are known as, its type is valid for an object and it may follow an earlier declaration in the same scope; it is bound with its own number. |
| `Semantics.Sema.AnalyzeFor` | lib/Sema/SemaStmt.cpp:74-104 | A for statement is reported if and only if the rules do not allow it: its variable is in scope in test, increment and body, only automatic variables may be declared, and its scope is gone afterwards. |
| `Semantics.Sema.DeclareFunction` | lib/Sema/SemaDecl.cpp:130-225 | A function declaration is accepted if and only if its tags, type, parameter names and storage class are in order and it may follow the earlier ones; then the file scope and the table of definitions change as specified. |
| `Semantics.Sema.AnalyzeFunction` | lib/Sema/Sema.cpp:36-57 | A definition is reported if and only if the rules do not allow it; if nothing is, its body is sound for code generation in the scope of its parameters, and the scopes are as before. |
| `Semantics.Sema.AnalyzeUnit` | lib/Sema/Sema.cpp:8-34 | A unit is accepted if and only if the rules allow each of its declarations after the ones before it. Then its function declarations are consistent, every definition has been analyzed in order with only additions to its body, and each satisfies the contract of code generation: typed, resolved, returns that match, jumps inside loops. |

## Findings

Four properties that one would expect of the code are false of it. Each is stated with an input on which it fails and
with the exact condition under which it holds.

- Compatibility is not transitive (`lib/Sema/SemaDecl.cpp:6-44`): an array of unknown size is compatible with arrays
  of two different sizes, and a function without a prototype with functions of different parameters.
  `SemaTypes.ChainsExactlyThroughDefinite` proves for which types `b` compatibility can be chained through `b`:
  exactly those that leave nothing open, in which no array lacks its size and no function its prototype.
  `SemaTypes.UnknownSizeLinksSizes` is a failure: `int[2]`, `int[]` and `int[3]`.
- Integer promotion does not keep values on every target (`lib/Sema/SemaConversions.cpp:12-18`): it goes to `int`
  whatever the widths are, so that an `unsigned short` as wide as `int` loses its upper half.
  `SemaConversions.PromotionKeepsValuesExactly` proves that a kind keeps all its values exactly when it is not an
  unsigned kind below `int` of the same width as `int`. `SemaConversions.WideShortIsLost` is a failure on a target
  given by its widths: 65535 where `int` has 16 bits. None of the three targets that ship is like that:
  `SemaConversions.PromotionKeepsOnShippedTargets` proves that promotion keeps every value on them.
- Not every expression of C's grammar is parsed (`lib/Parse/ParseExpr.cpp:148-180`): what stands in parentheses after
  `sizeof` is taken for the whole operand. `ExprRoundTrip.ParsesExactly` proves that a list is taken exactly when it
  has a derivation in which no operand of `sizeof` starts with a parenthesis and goes on after it, and none is a
  parenthesis that starts with the name of a type. `ExprRoundTrip.SizeofStopsEarly` is a failure: `sizeof (a)[0]`. On
  the left of an assignment the parser takes any conditional expression, where C's grammar has a unary one; analysis
  refuses what is not an lvalue.
- Linkage is forgotten (`lib/Sema/SemaDecl.cpp:180-196`): a declaration is compared with the storage class of the one
  before it, although one with `extern` keeps the linkage of a static one. `Linkage.LinkageJudgedExactly` and, for
  functions, `Linkage.FunctionLinkageJudgedExactly` prove for which lists of declarations acceptance is what C's rule
  gives. `Linkage.StaticIsForgotten` is a failure: `static int x; extern int x; static int x;`.

## Left out

- Floating types: `Floating` stands for them in code generation, where the source copies floating objects and the
  model has none; `Acceptance.AcceptedExactlyWhenSupported` and the theorems of `Frontend` are about units without
  them.
- Relexing.StringizedIsReadBack: arguments with a backslash or a quote outside a literal are left out; C does not
  define what stringizing makes of them.
- DefinedNames.IfdefAsksTheLast: the lines it is about hold no conditionals and include no files; what those do is in
  `ConditionalGroups`.
- Linkage.LinkageJudgedExactly: the declarations all have type `int`, so that nothing but linkage decides; those of
  `Linkage.FunctionLinkageJudgedExactly` are one prototype.
- MLIR and LLVM: blocks and operations stand in for them. The verifier that `generate` runs at the end is represented
  by the rules proved in `Cfg` and `DominanceOfCode`.
- Volatile objects have no meaning in the model; code generation refuses them, and `Other` is their type there.
- The order in which a hash map visits parameters is a parameter of the generator, any order of any length being
  allowed.
- Signed overflow, uninitialized reads and the order of evaluation are fixed to what the generated operations do.
- Static and extern linkage of generated functions, and the visibility set for them.
- Struct, union and enum bodies, member types, explicit casts and `sizeof` of a type name; the identity of types
  without a tag.
- Functions declared inside blocks, and completion of an earlier array declaration by a later one.
- Array bounds that are not integer literals, typedef names in declarators, declaration specifiers, statements and
  recovery from errors in the parsers.
- Diagnostics are a kind of problem or a refusal; their texts, notes, counters and the rendering of a source line are
  not modelled, and neither are the line and column counters of the lexer.
- Tokenizing preprocessing tokens, joining pasted text into one, reading digits into numbers and the punctuators of
  `#if` into operators, predefined macros and what `#include` finds are functions that the model takes as parameters.
- Locations attached to tokens by expansion, `__LINE__`, `#pragma once` by file identity, include search and the limit
  on the nesting of includes.
- Macro tables of the termination bound hold object-like macros; with function-like macros termination of the model
  follows from the limit on expansions and the length of what is pending.
- Enumerated keyword and operator name tables, the AST dump, the driver, options, and the Tensorium dialect.
