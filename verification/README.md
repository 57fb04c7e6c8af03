# Verified models of the clang front end

This project models the parts of an early clang that compute something hard, and proves
what they are for.  Each component follows the source's own form: what the source updates
in place is a class whose methods are proved against a specification, and what the source
computes by recursion is a function; the promises of the source are lemmas about those
specifications.

* **Control-flow graphs** (the `Cfg` modules).  The builder walks a statement
  backwards and creates blocks that are filled last to first, reversed, terminated, linked
  and backpatched.  `CfgSyntax` gives programs a meaning of their own, as prefix-closed sets
  of finite traces of evaluated elements and decisions, by continuations; `CfgGraph` gives a
  graph the traces of its walks.  The class `CFGBuilder` (`CfgBuilder`) is proved to produce
  a graph with exactly the traces of the program, in both directions, with every goto
  resolved and every element and label placed once.  `CfgMatch` relates code to a place in a graph,
  `CfgSim` proves that related code and places have the same traces, `CfgDraft` and
  `CfgVisit` hold the invariants of the builder.  `CfgReach` says where a program gets step by
  step, and `CfgModes` and `CfgLoops` prove exactly when the meaning the builder gives a
  program is the one C gives it.
* **Constant expressions** (`MachineInts`, `ConstExpr`, `ConstSound`, `ConstComplete`,
  `ConstEvaluator`, `IceChecker`).  Folding with its flag for dropped side effects, against a
  meaning of expressions in an arbitrary execution environment (any order of operands, any
  effects) and against what can be told of an expression with unknown operands, both ways;
  and the three-valued checker, against folding and against the forms of expression that
  section 6.6 of C99 makes constant.
* **Types**.  Uniquing and canonical types in a table with re-entrant insertion (`Qualifiers`,
  `TypeGraph`, `TypeContext`), merging of compatible types (`TypeMerge`), record layout (`RecordLayout`),
  the string encoding of types (`TypeEncoding`) and a reader of it (`TypeDecoding`).
* **Name lookup** (`LookupTable`, `DeclContexts`, `NameLookup`).  Tables made on demand and
  then kept up to date, against the walk over the declarations.
* **Delta debugging** (`DeltaSets`, `DeltaDebugging`).
* **Analyzer state** (`BasicStore`, `DeadBindings`, `ValueInterning`, `ConstraintManager`).
  A store with a mark-and-sweep of dead bindings, interned integers, and equality and
  disequality constraints on symbols.

Things outside the model come in as parameters: the test of delta debugging is a
deterministic function, an execution environment says what opaque expressions do, and a
value asked for where there is none is an arbitrary pattern.

## What the code does that its description does not say

Each of these is modelled as the code has it, with an input that shows it and the exact
condition for the code to do as described.

* A branch or loop body for which the builder gets no block is bypassed, and with a loop
  body the increment (`lib/AST/CFG.cpp:582-619`, `lib/AST/CFG.cpp:777-778`); a `for` without
  a condition can end (`lib/AST/CFG.cpp:786-788`).  The builder's reading of a program is the
  mode `AsBuilt`.  For a program that is one loop or one `if` it is C's exactly when that is
  regular (`LoopAgreesIff`, `IfAgreesIff`; `BypassedBodyDiffers`, `NoConditionDiffers` and
  `BypassedArmDiffers` give the traces).  A whole program of distinct nodes is read right if
  and only if every choice it can come to is regular (`ProgramsAgreeIff`), and then its graph
  is right (`GraphIsRightIff`); what is never reached does not count.  A caller can check the
  stronger condition that all its loops and branches are regular (`ProgramsAgree`).
* A branch, loop body or program that begins with an empty compound in front of other code
  leaves a block under construction that nobody reports or finishes, exactly when `Keeps` is
  false of it (`GivenUpIff`); `{ {} a; b; }` is one (`EmptyFirstGivesUp`).
* Signed overflow folds to the wrapped value instead of not folding (`OverflowFolds`); folding
  decides an expression exactly when its arithmetic is defined (`FoldDecides`).
* The checker asks for a divisor that has no value, as in `1/(1/0)`
  (`lib/AST/Expr.cpp:1189-1190`); `AsksInVainIff` says exactly where, and the verdict never
  depends on the answer (`VerdictIsDetermined`).
* The mask that rounds an offset up has 32 bits: rounding is right if and only if
  offset + alignment does not exceed 2^32 (`RoundUpIff`).
* Merging a function type without prototype with one that has a prototype uses the missing
  left prototype (`lib/AST/ASTContext.cpp:2902-2904`, `MissingPrototype`).  It does so exactly
  where `NeedsPrototype` holds: all parameters are as promoted, no ellipsis, the results merge,
  and the merged result is not that of the right type.  Merging is defined exactly for
  compatible types of which this is false (`MergesIffCompatible`).  For compatible types the two
  orders agree exactly when it is true of both or of neither (`MergeIsSymmetric`); with
  prototypes throughout it is of neither (`PrototypedNeedsNone`).
* Merging two pointers builds a pointer without its qualifiers when neither pointee is the
  merged one (`QualifierLost`); a merged type merges back with its parts if and only if that
  did not happen (`MergedMergesBack`).
* A constructor whose parts are canonical nodes, one of them an array that itself carries
  qualifiers, takes the new node to be canonical.  Its invariant holds afterwards exactly when
  the parts are not such or the key was there before (`GetUniqued`,
  `UnsettledIsNotRecorded`), and there are two canonical nodes for one structure whichever
  comes first (`UnsettledPartsBreak`, `UnsettledFirst`); `PointerToQualifiedArray` is a case.
* A declaration added to a context in front of later declarations of its name is entered last
  but met first, as in `EnumeratorTooLate`.  The tables are still those a walk makes exactly
  when it is in place in each of them (`AddDecl`, `InPlaceIff`).  It is when its name is not
  declared later on, so at an open end always (`InPlaceAtTheEnd`); with one later
  namesake, exactly when neither replaces the other and they go to different places or one
  goes before the other, a tag, in any case (`FilledTooLate`, `PassesIff`).
* Assuming that a symbol of known value is below or above a constant is refused only where no
  integer of the type is, or for the constant itself (`lib/Analysis/BasicConstraintManager.cpp:141-171`);
  so a symbol known to be 5 can be assumed less than 3 (`OrderIsNotChecked`).  `FeasibleIff` says
  for every comparison exactly when it is feasible.
* For an empty list of changes `run` can call the test twice on the empty set, because
  passing results are not cached.  No set is repeated exactly when there are changes, the run
  is forced, or the test of the empty set fails (`Run`).

## Model

| member | source | states |
|---|---|---|
| CfgBuilder.CFGBuilder.BuildCFG | lib/AST/CFG.cpp:182-252 | no graph exactly for a stray break or continue; otherwise the walks of the graph from its entry are exactly the behaviours of the program as built, every goto leads to its label's block, and the elements of the blocks and their labels are exactly those of the program, each in one place |
| CfgBuilder.CFGBuilder.BuildBlocks | lib/AST/CFG.cpp:185-203 | the blocks built match the program from the first block to the exit, all of them finished, all labels known |
| CfgBuilder.CFGBuilder.Backpatch | lib/AST/CFG.cpp:204-218 | only successors are added, and the gotos still pending are those without a label |
| CfgBuilder.CFGBuilder.PatchGoto | lib/AST/CFG.cpp:206-217 | a pending goto is linked exactly when its label is known |
| CfgBuilder.CFGBuilder.CreateBlock | lib/AST/CFG.cpp:256-260 | a new open block, running into the successor if asked for; everything else unchanged |
| CfgBuilder.CFGBuilder.FinishBlock | lib/AST/CFG.cpp:262-267 | the elements are reversed once and the block can no longer grow |
| CfgBuilder.CFGBuilder.AddStmt | lib/AST/CFG.cpp:276-279 | the expression is put in front of the current position, creating a block when there is none |
| CfgBuilder.CFGBuilder.WalkAST | lib/AST/CFG.cpp:284-480 | the code in front of the current position matches the expression and runs into where the code began before |
| CfgBuilder.CFGBuilder.WalkConditional | lib/AST/CFG.cpp:286-336 | a conditional: condition, two arms, one confluence that holds the value |
| CfgBuilder.CFGBuilder.WalkLogical | lib/AST/CFG.cpp:427-455 | a short circuit: which edge skips the right operand depends on the operator |
| CfgBuilder.CFGBuilder.WalkComma | lib/AST/CFG.cpp:457-461 | left operand, right operand and then the comma |
| CfgBuilder.CFGBuilder.WalkChildren | lib/AST/CFG.cpp:514-521 | the operands are matched last to first |
| CfgBuilder.CFGBuilder.VisitCompound | lib/AST/CFG.cpp:550-560 | a list visited from its end; what is reported is the block of its first statement, or none |
| CfgBuilder.CFGBuilder.VisitIf | lib/AST/CFG.cpp:562-634 | both branches meet where the code began before, the true edge first |
| CfgBuilder.CFGBuilder.VisitReturn | lib/AST/CFG.cpp:636-656 | the code leads to the exit; what follows is kept, unreached |
| CfgBuilder.CFGBuilder.VisitMark | lib/AST/CFG.cpp:658-684 | a labelled, case or default statement begins a block of its own, known under its name and labelled with the statement |
| CfgBuilder.CFGBuilder.VisitGoto | lib/AST/CFG.cpp:686-704 | the successor is the label's block if known and is left to backpatching if not |
| CfgBuilder.CFGBuilder.VisitFor | lib/AST/CFG.cpp:706-804 | a for loop with its targets, back edge, increment and initialisation |
| CfgBuilder.CFGBuilder.VisitWhile | lib/AST/CFG.cpp:904-981 | a while loop, the condition of which may span several blocks |
| CfgBuilder.CFGBuilder.VisitDo | lib/AST/CFG.cpp:1002-1077 | a do loop, entered at its body |
| CfgBuilder.CFGBuilder.VisitBody | lib/AST/CFG.cpp:743-785 | break and continue targets hold inside the body and are restored after it |
| CfgBuilder.CFGBuilder.VisitJump | lib/AST/CFG.cpp:1079-1116 | the jump's single successor is the current target; without one the graph is given up |
| CfgBuilder.CFGBuilder.VisitSwitch | lib/AST/CFG.cpp:1118-1165 | the arms of the switch in its successors, the default or fall-out edge last |
| CfgBuilder.CFGBuilder.AddCase | lib/AST/CFG.cpp:1167-1192 | a case label's block becomes a successor of the innermost switch |
| CfgBuilder.CFGBuilder.Register | lib/AST/CFG.cpp:1194-1218 | a case, default or label is known at its block, and nothing else changes |
| CfgBuilder.CFGBuilder.Visit | lib/AST/CFG.cpp:532-548 | the new code matches the statement and runs into where the code began before, with its names, elements and stray jumps accounted for |
| CfgSim.Simulation | lib/AST/CFG.cpp:182-252 | a continuation and a place in the graph that match have the same behaviours, both ways |
| CfgSim.FindMatch | lib/AST/CFG.cpp:658-684 | the place found by name in the program is where the block registered under that name begins |
| CfgSim.JumpMatch | lib/AST/CFG.cpp:1079-1116 | a break or continue leaves or continues the innermost enclosing construct, and a goto goes to its label, in the graph as in the program |
| CfgSim.AtSelect | lib/AST/CFG.cpp:1118-1165 | selecting an arm of a switch leads where the program's arm is, and without one through the last successor |
| CfgMatch.MatchSMono | lib/AST/CFG.cpp:262-267 | code that matches a statement still does after blocks are added, extended or linked elsewhere |
| CfgMatch.MatchEMono | lib/AST/CFG.cpp:284-480 | the same for expressions |
| CfgDraft.ReverseInOrder | lib/AST/CFG.cpp:262-267 | reversing in place puts every element at its mirrored position |
| CfgVisit.Concluded | lib/AST/CFG.cpp:193-247 | the finished graph implements the program, resolves its gotos and holds exactly its elements and labels |
| CfgVisit.MovedTrans | lib/AST/CFG.cpp:276-282 | what one visit adds in names, elements and stray jumps adds up over a run of visits |
| CfgVisit.GivenUpIff | lib/AST/CFG.cpp:546-560 | exactly the statements that Keeps excludes leave a block under construction that is not reported, its elements in the order they were collected |
| CfgVisit.EmptyFirstGivesUp | lib/AST/CFG.cpp:550-560 | a compound that begins with an empty one, before two other statements, is such a statement |
| CfgReach.RunReaches | lib/AST/CFG.cpp:532-548 | what a program can do after a trace that leads to a continuation is what that continuation can do |
| CfgModes.ProgramsAgreeIff | lib/AST/CFG.cpp:562-804 | a program of distinct nodes has the behaviours C gives it exactly when no choice it can come to bypasses anything with an effect or is a loop without a condition |
| CfgModes.Diverges | lib/AST/CFG.cpp:562-804 | from wherever such a choice can be come to, there is a behaviour as built that C does not give |
| CfgModes.ChoiceDiffers | lib/AST/CFG.cpp:582-619 | at such a choice itself there is one |
| CfgBuilder.GraphIsRightIff | lib/AST/CFG.cpp:182-252 | the walks of the graph of a program of distinct nodes are the behaviours C gives it exactly under that condition |
| CfgModes.ProgramsAgree | lib/AST/CFG.cpp:777-788 | a program whose loops all have conditions, and in which nothing with an effect is bypassed, has the behaviours C gives it |
| CfgLoops.LoopAgreesIff | lib/AST/CFG.cpp:777-788 | for a program that is one loop the built and the C behaviours agree exactly when the loop is regular |
| CfgLoops.IfAgreesIff | lib/AST/CFG.cpp:562-634 | for a program that is one `if` the built and the C behaviours agree exactly when both branches are regular |
| CfgLoops.BypassedArmDiffers | lib/AST/CFG.cpp:582-619 | every `if` with a bypassed branch that has an effect has the behaviour of condition, branch and end as built, and not in C |
| CfgLoops.NoConditionDiffers | lib/AST/CFG.cpp:786-788 | every for without a condition has a behaviour as built that C does not give it |
| CfgLoops.BypassedBodyDiffers | lib/AST/CFG.cpp:777-778 | so has every loop whose bypassed body has an effect or whose bypassed increment is there |
| CfgModes.FirstOfStmt | lib/AST/CFG.cpp:546-560 | in C the first event of a statement is its own unless it is silent |
| CfgLoops.LeastExpr | lib/AST/CFG.cpp:284-480 | every completed run through an expression takes at least as many events as its shortest path |
| ConstSound.FoldSound | lib/AST/ExprConstant.cpp:1627-1652 | if an expression folds, every execution that yields a value yields the folded one |
| ConstSound.FoldDecides | lib/AST/ExprConstant.cpp:1662-1665 | if it folds with no effect dropped, every execution yields that value with no effect, exactly when all the arithmetic on the way is defined |
| ConstSound.OverflowFolds | lib/AST/ExprConstant.cpp:958-963 | adding one to the largest int folds to the smallest although C gives no value |
| ConstExpr.OnValuesSound | lib/AST/ExprConstant.cpp:958-993 | each operation on folded patterns gives the pattern of C's result wherever C gives one |
| ConstExpr.ShiftSound | lib/AST/ExprConstant.cpp:975-985 | shifts agree with C on in-range amounts although the amount is clamped |
| ConstExpr.CompareSound | lib/AST/ExprConstant.cpp:987-992 | comparisons of patterns are comparisons of values, signed or not |
| ConstExpr.OnValueSound | lib/AST/ExprConstant.cpp:1086-1137 | the same for unary operators |
| ConstExpr.CastSound | lib/AST/ExprConstant.cpp:122-131 | converting a pattern converts its value, to `_Bool` included |
| ConstExpr.EnumSound | lib/AST/ExprConstant.cpp:674-685 | an enumerator folds to its value in its own type |
| MachineInts.DivLow | lib/AST/ExprConstant.cpp:967-970 | dividing patterns truncates toward zero, wrapped to the width |
| MachineInts.RemLow | lib/AST/ExprConstant.cpp:971-974 | the remainder of patterns has the sign of the dividend |
| MachineInts.MulLow | lib/AST/ExprConstant.cpp:961 | multiplying patterns multiplies values modulo the width |
| MachineInts.LessIsLess | lib/AST/ExprConstant.cpp:987-992 | comparing patterns by sign and bits compares values |
| ConstExpr.OnValuesWraps | lib/AST/ExprConstant.cpp:958-993 | defined by C or not, every operation but division by zero gives the low bits of its exact result |
| ConstComplete.FoldTells | lib/AST/ExprConstant.cpp:1627-1652 | an expression folds exactly when its value can be told with opaque operands unknown, either operand of a short circuit deciding, and to that value |
| ConstComplete.SeenFolds | lib/AST/ExprConstant.cpp:1662-1665 | whatever has a value in some execution without anything opaque being run folds to it with a clear flag |
| ConstComplete.EvaluatableIff | lib/AST/ExprConstant.cpp:1662-1665 | where nothing opaque has a value, an expression has one exactly when it folds with a clear flag and its arithmetic is defined |
| ConstComplete.RightDecides | lib/AST/ExprConstant.cpp:798-812 | a right operand whose value decides makes the whole fold whatever the left one is, and the flag says whether that would fold |
| ConstComplete.CommaKeepsRight | lib/AST/ExprConstant.cpp:771-781 | a comma folds to its right operand whatever the left one is, with the same flag |
| MachineInts.BitsAre | lib/AST/ExprConstant.cpp:964-966 | and, exclusive or and or of patterns are the connectives on each bit |
| ConstEvaluator.IntExprEvaluator.Visit | lib/AST/ExprConstant.cpp:589-660 | the visitor reports success, result and effects flag as the specification of folding says |
| ConstEvaluator.IntExprEvaluator.VisitLogical | lib/AST/ExprConstant.cpp:776-816 | a deciding right operand is used although the left one does not fold, at the price of the flag; succeeds exactly when the value can be told |
| ConstEvaluator.IntExprEvaluator.VisitBinaryOperator | lib/AST/ExprConstant.cpp:770-993 | comma, short circuit, comparison and arithmetic on folded operands |
| ConstEvaluator.IntExprEvaluator.VisitUnaryOperator | lib/AST/ExprConstant.cpp:1086-1137 | unary operators on a folded operand |
| ConstEvaluator.IntExprEvaluator.VisitCastExpr | lib/AST/ExprConstant.cpp:1139-1165 | conversions to integer types, through truth for `_Bool` |
| ConstEvaluator.HandleConversionToBool | lib/AST/ExprConstant.cpp:61-67 | the truth of what an operand folds to |
| ConstEvaluator.Evaluate | lib/AST/ExprConstant.cpp:1627-1652 | computes folding and its flag; succeeds exactly when the value can be told, and with the flag untouched for what has a value without anything opaque |
| ConstEvaluator.IsEvaluatable | lib/AST/ExprConstant.cpp:1662-1665 | answers exactly whether folding succeeds with the flag clear |
| IceChecker.AcceptedFolds | lib/AST/Expr.cpp:1091-1284 | an accepted expression folds with no effect dropped, so the three assertions of the query hold |
| IceChecker.AcceptedMeans | lib/AST/Expr.cpp:1289-1303 | an accepted expression has, in every execution, the folded value or none |
| IceChecker.AcceptedIff | lib/AST/Expr.cpp:1091-1284 | acceptance is exactly being a constant expression by its form, with unevaluated parts that are only admitted, and divisions whose quotient exists; toleration is exactly being admitted |
| IceChecker.FormedIsAccepted | lib/AST/Expr.cpp:1091-1284 | everything built from literals, enumerators, sizes, casts and operators but the comma, and in C++ from constants so initialized, is accepted if no divisor is zero or minus one |
| IceChecker.IsIntegerConstantExpr | lib/AST/Expr.cpp:1289-1303 | true exactly for constant expressions, with the folded value, which is the one every execution gives; otherwise the place of the checker's objection |
| IceChecker.VerdictIsDetermined | lib/AST/Expr.cpp:1189-1190 | no verdict depends on what is answered where there is no value |
| IceChecker.AsksInVainIff | lib/AST/Expr.cpp:1187-1197 | exactly the divisions with a divisor, or a dividend of minus one, that does not fold ask in vain, and only when an operand is constant only unevaluated |
| IceChecker.NestedDivisionAsksInVain | lib/AST/Expr.cpp:1189-1190 | `1/(1/0)` is one of them |
| IceChecker.PlaceIsDetermined | lib/AST/Expr.cpp:1091-1284 | where nothing asks in vain the place of the objection is determined too |
| IceChecker.RejectionIsPlaced | lib/AST/Expr.cpp:1091-1284 | every rejection names a node below that is to blame for it |
| TypeGraph.CanonicalIsUnique | lib/AST/ASTContext.cpp:1642-1665 | two canonical types are one node with the same qualifiers exactly when their structures are equal |
| TypeGraph.NormCarries | lib/AST/ASTContext.cpp:1642-1665 | the structure of a type has const, restrict or volatile exactly when the type has it itself or takes it from what a typedef names or from its elements |
| TypeGraph.Appended | lib/AST/ASTContext.cpp:926-950 | inserting a node for a new key keeps every node of the table unique and its canonical type right |
| TypeGraph.NormStable | lib/AST/ASTContext.cpp:926-950 | a type means the same after the table grows |
| TypeContext.ASTContext.GetUniqued | lib/AST/ASTContext.cpp:926-950 | the node of a key, one only, with its canonical type, unless the key is new and its parts are canonical nodes with a qualified array among them: exactly then the new node breaks the invariant |
| TypeContext.ASTContext.GetCanonicalParts | lib/AST/ASTContext.cpp:1293-1301 | the canonical types of the parts of a type |
| TypeContext.ASTContext.GetCanonicalType | lib/AST/ASTContext.cpp:1642-1676 | the canonical type of a type, qualifiers of arrays pushed onto their elements; canonical types are their own and insert nothing |
| TypeContext.ASTContext.GetPointerType | lib/AST/ASTContext.cpp:926-950 | the one pointer type to a type |
| TypeContext.ASTContext.GetComplexType | lib/AST/ASTContext.cpp:889-911 | the one complex type of a type |
| TypeContext.ASTContext.GetConstantArrayType | lib/AST/ASTContext.cpp:1078-1107 | the one array type of an element type, size, modifier and index qualifiers |
| TypeContext.ASTContext.GetIncompleteArrayType | lib/AST/ASTContext.cpp:1147-1178 | the same without a size |
| TypeContext.ASTContext.GetFunctionNoProtoType | lib/AST/ASTContext.cpp:1244-1269 | the one function type without prototype |
| TypeContext.ASTContext.GetFunctionType | lib/AST/ASTContext.cpp:1273-1321 | the one function type with a result and parameters |
| TypeContext.ASTContext.GetTypedefType | lib/AST/ASTContext.cpp:1357-1364 | a typedef's type, with the canonical type of what it names |
| TypeContext.ASTContext.SameType | lib/AST/ASTContext.cpp:1642-1665 | comparing canonical types by address and qualifiers decides equality of structure |
| TypeContext.NeverInserted | lib/AST/ASTContext.cpp:936-946 | building the canonical type never inserts the key being built |
| TypeContext.RecursionIsRight | lib/AST/ASTContext.cpp:936-946 | the type of the canonical parts is the canonical type to record |
| TypeContext.ArrayIsRight | lib/AST/ASTContext.cpp:1649-1665 | pushing the qualifiers of an array onto its element gives its canonical type |
| TypeContext.SameCanonicalIff | lib/AST/ASTContext.cpp:1642-1665 | over any growth of the table two types have identical canonical types exactly when they mean the same |
| TypeContext.CanonicalCarries | lib/AST/ASTContext.cpp:1646 | canonicalizing neither drops nor adds a qualifier |
| TypeContext.CanonicalIsIdempotent | lib/AST/ASTContext.cpp:1642-1665 | the canonical type of a canonical type is itself |
| TypeContext.ConstructorsAreInjective | lib/AST/ASTContext.cpp:889-1321 | two constructor calls return one node exactly when they were given the same key |
| TypeContext.UnsettledPartsBreak | lib/AST/ASTContext.cpp:1770-1778 | the node made for a key with an array part that carries qualifiers itself is a second canonical one beside the type there is |
| TypeContext.UnsettledFirst | lib/AST/ASTContext.cpp:1770-1778 | when it is made first, the type of the canonical parts becomes the second one |
| TypeContext.UnsettledIsNotRecorded | lib/AST/ASTContext.cpp:926-950 | a node for such a key breaks the invariant of every table |
| TypeContext.PointerToQualifiedArray | lib/AST/ASTContext.cpp:1770-1778 | a table in which that happens |
| LookupTable.EntriesAreDeclared | include/clang/AST/DeclContextInternals.h:159-215 | whatever a table lists under a name was declared with it |
| LookupTable.DeclaredAreEntries | include/clang/AST/DeclContextInternals.h:159-215 | a declaration is listed under its name unless a later one replaced it |
| LookupTable.PutHolds | lib/AST/Decl.cpp:235-258 | entering a declaration lists it, drops at most one it replaces and keeps the others |
| LookupTable.SettlesIff | lib/AST/DeclBase.cpp:639-670 | entering a declaration last gives the table of a walk that meets it earlier exactly when it does for the later declarations of its name |
| LookupTable.PassesIff | lib/AST/Decl.cpp:235-258 | two declarations of one name can be entered in either order exactly when neither replaces the other and their places differ, or one is a tag that goes after the other anyway |
| LookupTable.OneEntryOfEach | lib/AST/Decl.cpp:228-257 | no list holds two declarations of one kind other than functions and methods |
| LookupTable.ListedIff | lib/AST/Decl.cpp:228-257 | exactly the last of each chain of redeclarations is listed: one kind, or functions each of which has the other for its previous declaration; methods always |
| LookupTable.TagIsLast | include/clang/AST/DeclContextInternals.h:192-209 | a name that is a tag and something else has the tag at the end of its list |
| DeclContexts.MetIff | lib/AST/DeclBase.cpp:549-565 | a walk meets exactly what is declared in the contexts it comes to |
| DeclContexts.Enclosed | lib/AST/DeclBase.cpp:377-388 | enumerators and members of linkage specifications and anonymous records are met from the enclosing context, and from outside nothing else but other parts of a namespace |
| DeclContexts.AddedIsPlaced | lib/AST/DeclBase.cpp:529-547 | a walk that meets a context meets a declaration added to it after what it met up to the end of that context and before the rest |
| DeclContexts.NothingLater | lib/AST/DeclBase.cpp:529-547 | after the end of an open context nothing is met |
| DeclContexts.OriginalSees | lib/AST/DeclBase.cpp:390-430 | the walk from the original namespace meets every later part |
| NameLookup.DeclContextTable.AddDecl | lib/AST/DeclBase.cpp:529-547 | the declaration is appended and entered into every table whose context sees it; the tables are those a walk makes exactly when it is in place in each of these |
| NameLookup.DeclContextTable.MakeDeclVisibleInContext | lib/AST/DeclBase.cpp:614-637 | the tables of all enclosing contexts that see the declaration are brought up to date |
| NameLookup.DeclContextTable.MakeDeclVisibleInContextImpl | lib/AST/DeclBase.cpp:639-670 | one table gets one entry |
| NameLookup.DeclContextTable.BuildLookup | lib/AST/DeclBase.cpp:549-565 | the table filled with the walk through later parts and transparent contexts |
| NameLookup.DeclContextTable.Lookup | lib/AST/DeclBase.cpp:567-591 | the entries a walk would make, whenever the table was made: exactly the last of each chain of redeclarations |
| NameLookup.DeclContextTable.ReopenNamespace | lib/AST/DeclBase.cpp:390-441 | a later part of a namespace shares the table of the first |
| NameLookup.LookupIsSound | lib/AST/DeclBase.cpp:567-591 | a lookup returns declarations of that name met in the context |
| NameLookup.LookupIsComplete | lib/AST/DeclBase.cpp:567-591 | a lookup misses none that was not replaced |
| NameLookup.LookupIsExact | lib/AST/DeclBase.cpp:567-591 | a lookup finds exactly the last of each chain of redeclarations met, once, and no two of one kind |
| NameLookup.InPlaceIff | lib/AST/DeclBase.cpp:614-637 | the table with the declaration entered is the one a walk makes exactly when it is in place |
| NameLookup.EnteredIff | lib/AST/DeclBase.cpp:614-637 | all tables together are, exactly when it is in place in all that got it |
| NameLookup.InPlaceAtTheEnd | lib/AST/DeclBase.cpp:614-637 | whatever is added to a context that is open at its end is in place |
| NameLookup.FilledTooLate | lib/AST/DeclBase.cpp:614-637 | with one later declaration of its name, a declaration makes table and walk differ exactly unless the two can be entered in either order |
| NameLookup.EnumeratorTooLate | lib/AST/DeclBase.cpp:614-637 | an enumerator after a variable of its name in the enclosing unit is a case |
| DeltaDebugging.DeltaAlgorithm.GetTestResult | utils/token-delta.py:20-31 | the result of the test, called only on sets not known to fail |
| DeltaDebugging.DeltaAlgorithm.Run | utils/token-delta.py:33-46 | the result is part of the input, passes and is 1-minimal; at most 4n^2-4n+2 calls of the test for n > 0 changes, the exact calls for none, and no set repeated exactly when there are changes, the run is forced or the test of the empty set fails |
| DeltaDebugging.DeltaAlgorithm.Delta | utils/token-delta.py:63-80 | ends, with a 1-minimal result and within its budget of calls |
| DeltaDebugging.DeltaAlgorithm.Search | utils/token-delta.py:82-93 | a smaller passing result, or every piece and complement fails |
| DeltaSets.CutIsSublist | utils/token-delta.py:85-92 | pieces and complements keep the order of the input and are smaller |
| DeltaSets.SublistIsItsSet | utils/token-delta.py:20-31 | lists in the order of the input are determined by their sets, so caching sets is sound |
| DeltaSets.Refined | utils/token-delta.py:48-61 | splitting all pieces keeps their concatenation, and makes no new piece only when all are single |
| DeltaDebugging.BudgetShrinks | utils/token-delta.py:63-93 | a round of a search and what follows fit in the budget |
| DeltaDebugging.NothingLeft | utils/token-delta.py:63-80 | when nothing can be split and every piece is needed the list is 1-minimal |
| DeltaDebugging.PieceIsSmaller | utils/token-delta.py:82-87 | the measure decreases when a piece passes |
| DeltaDebugging.ComplementIsSmaller | utils/token-delta.py:89-93 | the measure decreases when a complement passes |
| BasicStore.ReadAfterWrite | lib/Analysis/BasicStore.cpp:302-374 | a write is read back where it is kept, through views, and changes no other read |
| BasicStore.ReadAfterRemove | lib/Analysis/BasicStore.cpp:376-390 | a removed binding reads as unknown, and no other read changes |
| BasicStore.SymbolsIff | lib/Analysis/SVals.cpp:106-121 | the symbols of a symbolic expression are exactly those found by going down its operands |
| DeadBindings.RemoveDeadBindings | lib/Analysis/BasicStore.cpp:393-473 | exactly the reachable bindings stay; exactly the symbols found alive are alive, and exactly the dropped ones that are not are dead |
| DeadBindings.MarkReachable | lib/Analysis/BasicStore.cpp:422-457 | the worklist ends with exactly the reachable regions marked |
| DeadBindings.SweepUnmarked | lib/Analysis/BasicStore.cpp:459-470 | exactly the unmarked bindings go, and their symbols may be dead |
| DeadBindings.AnchorRoots | lib/Analysis/BasicStore.cpp:402-420 | the roots: live variables, ivars and the regions given |
| DeadBindings.SweepKeepsReads | lib/Analysis/BasicStore.cpp:393-473 | no read of a reachable region changes |
| DeadBindings.LiveLoadsKept | lib/Analysis/BasicStore.cpp:393-473 | any number of loads by way of a live variable, an ivar or a given region finds the same value after the sweep, and the symbols in it are found alive |
| DeadBindings.SymbolReaper.MaybeDead | lib/Analysis/SymbolManager.cpp:186-192 | a symbol becomes dead unless it is live |
| DeadBindings.SymbolReaper.MarkLive | lib/Analysis/SymbolManager.cpp:181-184 | a live symbol is no longer dead |
| ValueInterning.BasicValueFactory.GetValue | lib/Analysis/BasicValueFactory.cpp:62-77 | the one node of an integer, made when there is none |
| ValueInterning.BasicValueFactory.GetValueOfWidth | lib/Analysis/BasicValueFactory.cpp:79-98 | the node of a number truncated to a width |
| ValueInterning.BasicValueFactory.EvaluateAPSInt | lib/Analysis/BasicValueFactory.cpp:119-195 | the node of an operation's result, none for a shift out of range |
| ValueInterning.AddressIsValue | lib/Analysis/BasicValueFactory.cpp:62-77 | addresses are equal exactly when width, signedness and value are |
| ValueInterning.RequestsAgree | lib/Analysis/BasicValueFactory.cpp:62-98 | over any run two requests return one address exactly when they ask for one integer |
| ValueInterning.MembershipIsValueMembership | lib/Analysis/BasicConstraintManager.cpp:236-267 | membership by address is membership by value |
| ValueInterning.EvaluatedSound | lib/Analysis/BasicValueFactory.cpp:119-195 | an operation has C's result wherever C gives one |
| ValueInterning.EvaluatedIff | lib/Analysis/BasicValueFactory.cpp:119-195 | exactly the shifts by less than nothing or more than the width have no result; every other result is the exact one wrapped |
| ConstraintManager.AssumeSound | lib/Analysis/BasicConstraintManager.cpp:97-227 | a valuation of the state that satisfies the assumption makes it feasible and satisfies the new state |
| ConstraintManager.AssumeRefines | lib/Analysis/BasicConstraintManager.cpp:97-251 | assuming only ever narrows the valuations |
| ConstraintManager.EqualityIsExact | lib/Analysis/BasicConstraintManager.cpp:97-139 | for == and != the new state describes exactly the valuations that satisfy the assumption, and infeasible means there are none |
| ConstraintManager.StepSays | lib/Analysis/BasicConstraintManager.cpp:141-227 | what exactly each assumption is remembered as |
| ConstraintManager.FeasibleIff | lib/Analysis/BasicConstraintManager.cpp:97-227 | exactly when each comparison is feasible, for a symbol of known value and for any other |
| ConstraintManager.OrderIsNotChecked | lib/Analysis/BasicConstraintManager.cpp:141-171 | of a symbol known to be 5 it is feasible to assume that it is less than 3 |
| ConstraintManager.OneSideIsFeasible | lib/Analysis/BasicConstraintManager.cpp:97-227 | a condition and its negation are never both infeasible |
| ConstraintManager.AssumeKeepsWellFormed | lib/Analysis/BasicConstraintManager.cpp:97-251 | no symbol's value is ever among the values it is unequal to |
| ConstraintManager.NeverEqualAndUnequal | lib/Analysis/BasicConstraintManager.cpp:229-251 | the same in terms of the integers themselves |
| ConstraintManager.RunSound | lib/Analysis/BasicConstraintManager.cpp:97-227 | over a whole run of assumptions a valuation that satisfies all of them survives |
| ConstraintManager.MinMax | lib/Analysis/BasicConstraintManager.cpp:141-170 | the extreme patterns are the extreme values of the type |
| ConstraintManager.RemoveDeadConstraints | lib/Analysis/BasicConstraintManager.cpp:279-302 | exactly the constraints of live symbols stay, and the others' symbols are dead |
| ConstraintManager.SweepSound | lib/Analysis/BasicConstraintManager.cpp:279-302 | dropping constraints keeps the state well-formed and every valuation |
| RecordLayout.RoundUpIff | lib/AST/ASTContext.cpp:569-607 | the mask rounds up right exactly up to 2^32 |
| RecordLayout.MaskIsMod | lib/AST/ASTContext.cpp:569-607 | masking with ones from one bit up to another is a difference of remainders |
| RecordLayout.FieldIsPlaced | lib/AST/ASTContext.cpp:532-622 | a field is at the first aligned place after those before it, a bit-field no wider than its type does not straddle a boundary of it, and union fields are at 0 |
| RecordLayout.StructFieldsInOrder | lib/AST/ASTContext.cpp:532-622 | fields of a structure are in order and do not overlap |
| RecordLayout.FieldsFit | lib/AST/ASTContext.cpp:613-618 | every field ends within the record |
| RecordLayout.SizeIsRounded | include/clang/AST/RecordLayout.h:50-54 | the size is the least multiple of the alignment that holds the fields |
| RecordLayout.AlignmentServesAll | lib/AST/ASTContext.cpp:620-621 | the alignment is a multiple of that of every named field |
| RecordLayout.AlignedAsAsked | lib/AST/ASTContext.cpp:532-622 | an unpacked field is at a multiple of its type's alignment and one with its own alignment at a multiple of that |
| RecordLayout.PackingLimits | lib/AST/ASTContext.cpp:532-622 | no field is moved as far as its packing, or its type's alignment |
| RecordLayout.PackedHasNoPadding | lib/AST/ASTContext.cpp:532-622 | in a packed structure of whole bytes every offset is the sum of the sizes before it |
| RecordLayout.ASTRecordLayout.LayoutField | lib/AST/ASTContext.cpp:532-622 | one field is laid out as specified, in place |
| RecordLayout.GetASTRecordLayout | lib/AST/ASTContext.cpp:752-790 | the whole record is |
| TypeMerge.MergeIsSymmetric | lib/AST/ASTContext.cpp:2912-3106 | merging is defined in one order exactly when it is in the other, except for compatible types that use a missing left prototype in just one order |
| TypeMerge.MergesIffCompatible | lib/AST/ASTContext.cpp:2912-3106 | merging is defined exactly for compatible types that do not need the missing left prototype, and uses that exactly where it is needed |
| TypeMerge.FunctionsMergeIffCompatible | lib/AST/ASTContext.cpp:2831-2910 | the same for function types, with and without prototypes |
| TypeMerge.PrototypedNeedsNone | lib/AST/ASTContext.cpp:2902-2904 | a left type with prototypes throughout never uses the missing one |
| TypeMerge.MissingPrototype | lib/AST/ASTContext.cpp:2902-2904 | two types for which it is |
| TypeMerge.MergedCovers | lib/AST/ASTContext.cpp:2912-3106 | a merged type says all that either part says: sizes of arrays and prototypes, at every depth |
| TypeMerge.MergedMergesBack | lib/AST/ASTContext.cpp:2912-3106 | a merged type merges with each of its parts exactly when no pointer lost its qualifiers in between |
| TypeMerge.QualifierLost | lib/AST/ASTContext.cpp:3038-3050 | two types for which one did |
| TypeEncoding.EncodingBuffer.GetObjCEncodingForType | lib/AST/ASTContext.cpp:2229-2237 | encoding ends on every type whose records do not contain themselves by value, and appends the specified code |
| TypeEncoding.EncodingBuffer.EncodeType | lib/AST/ASTContext.cpp:2249-2466 | each step decreases the two expansion flags, the rank of containment and the size of the type, lexicographically |
| TypeEncoding.EncodingBuffer.EncodePointer | lib/AST/ASTContext.cpp:2313-2400 | pointers, with the placing of the mark for read-only ones |
| TypeEncoding.EncodingBuffer.EncodeFields | lib/AST/ASTContext.cpp:2438-2457 | the fields of a record, bit-fields and field names included |
| TypeEncoding.BodiesAreNested | lib/AST/ASTContext.cpp:2398-2459 | inside open bodies no open record is expanded again |
| TypeEncoding.NoBodyWithinItself | lib/AST/ASTContext.cpp:2229-2459 | the same for a whole type |
| TypeEncoding.BracketsMatch | lib/AST/ASTContext.cpp:2401-2459 | brackets, braces and parentheses of the code match |
| TypeDecoding.CodeReadsBack | lib/AST/ASTContext.cpp:2249-2466 | the code of a type can be read back: kinds and widths of scalars, sizes of arrays, pointers, and the members of expanded records in order with names and bit-field widths |
| TypeDecoding.CodeIsWritten | lib/AST/ASTContext.cpp:2249-2466 | what the encoder appends is the notation of what it says of the type |

## Left out

- Declarations, statement expressions, GNU `?:`, indirect goto, `__builtin_choose_expr`, block expressions, sizeof of a variable-length array and all Objective-C statements in the graph builder.
- CfgBuilder.CFGBuilder.BuildCFG: requires `CfgVisit.Proper`. It excludes a branch, loop body or program that begins with an empty compound in front of straight-line code, where the builder gives an unfinished block up and its elements stay in reverse order (`GivenUpIff`); and labels defined twice, case labels twice in one switch or outside of any, which semantic analysis rejects.
- CfgModes.ProgramsAgreeIff: asks for programs of distinct nodes; with a node in two places the trace of a bypassed statement can be that of what comes next. The other direction, `SoundIfRegular`, asks for nothing.
- CfgLoops.LoopAgreesIff: one loop with a regular body whose nodes are not those of its condition.
- NameLookup.FilledTooLate: with several later declarations of the name the condition is `Settles` on these alone, which is computed from their list.
- Lexical contexts that differ from semantic ones in name lookup: a declaration is added to the context it belongs to.
- The evaluation order of operands inside one element: an operator's operands appear in the order the builder walks them, last to first.
- Predecessor lists of blocks, printing of graphs, and the numbering of block-level expressions.
- Floating-point, complex, vector, pointer and lvalue folding, the locations of diagnostics, and C++ expressions.
- A const variable whose initializer refers to itself: initializers are finite trees here.
- Division by zero in the factory of interned integers, which its callers rule out.
- Qualified and address-space types, variable-length and vector arrays, references, member pointers and templates in the uniquing of types.
- The linked lists of declarations and the one-entry form of table lists, which are sequences here; contexts with an external source; anonymous records that become named or the reverse; forward declarations of transparent contexts.
- The files, processes and logs of the delta debugger: the test is a parameter.
- The creation of initial stores, evaluation of whole conditions, casts of regions, and constants of another type than their symbol's.
- Objective-C interfaces, external layouts and the sizes of basic types in record layout: sizes and alignments of fields are parameters.
- Objective-C, vector, reference and variable-length array types in merging.
- TypeDecoding.CodeReadsBack: for names of records and fields without punctuation; the mark of a read-only pointer in front is not part of the code that is read.
- Objective-C objects, properties, vectors and method signatures in encoding.
