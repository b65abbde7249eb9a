# MiniJava checker and register allocator, modelled in Dafny

This project models two pipelines of the `mini_java` compiler.

**Register-allocation backend.**
- `LivenessImplementation` computes live-in and live-out sets of temporaries over a flow graph.
  `Liveness.dfy` models it as a class whose `ins`/`outs` maps are filled by the same loops. A
  specification function `Sweep(g, k)` gives the sets after the first `k` nodes have been visited.
- `SimpleRegAlloc` colours the interference graph. It simplifies the graph into an elimination
  order, rebuilds the graph, and colours the temps in that order. For each temp it tries the colour
  of a move partner, then the register palette, then an existing spill slot, then a fresh spill slot.
  `RegAlloc.dfy` models it as a class with `colorMap`, `spilled` and `spillColors` fields. The
  specification functions `Elimination` (simplify) and `Step`/`ColorAll` (select) describe what the
  methods compute.

**MiniJava front end.**
- `Ast.dfy` holds the abstract syntax, the symbol-table entries (`ClassType`, `MethodType`) and the
  reported errors.
- `SymbolTable.dfy` is phase 1 (`BuildSymbolTableVisitor`). It builds the main table, the class
  table and each method's formal and local tables, using `def` (duplicates reported, old binding
  kept) and `override`. The class `SymbolTableBuilder` keeps the scope fields of the visitor. Each of
  its visit methods is proved equal to a pure function (`BuildMethod`, `BuildClass`, `BuildProgram`).
- `TypeCheck.dfy` is phase 2 (`TypeCheckVisitor`). The typing rules are the pure functions `ExpType`,
  `CheckErrs` and `StmtErrs` over a `Scope`. The class `TypeChecker` performs the same walks with
  the source's loops: `lookup` climbs the superclass chain, and both `check` overloads walk from
  the actual type's class. Each method is proved to report exactly the errors the rules give, in
  order.

The error report is modelled as a sequence that the visitors append to. Phase 1 writes the entries
it builds onto the AST nodes (`n.type`); these are returned as values (`ClassAnnot`) and handed to
phase 2.

Textbook liveness iterates the dataflow equations to a fixpoint. `calculateLiveness` makes one
pass in node order, and `addAll` and `remove` are modelled as a one-time union and difference of
the sets as they stand (see "Left out"). `SuccessorsFirstGivesFixpoint` states when the modelled
pass nevertheless satisfies the dataflow equations. `SinglePassMissesLaterSuccessor` gives a graph
on which the modelled pass does not.

A textbook allocator counts a temp as spilled only when it needs a spill slot of its own. `color`
appends it to `spilled` as soon as register colouring fails, even when it then reuses an existing
slot. The model follows the code.

## Model

| member | source | states |
|---|---|---|
| `Liveness.Empty` | backend/src/main/java/analysis/implementation/LivenessImplementation.java:38-41 | before the pass every node has an entry, and every entry is the empty set |
| `Liveness.Sweep` | backend/src/main/java/analysis/implementation/LivenessImplementation.java:43-46 | after the first k nodes are visited every node still has an entry, and the nodes not yet visited still have empty in- and out-sets |
| `Liveness.VisitElsewhere` | backend/src/main/java/analysis/implementation/LivenessImplementation.java:49-60 | visiting node i changes neither set of any other node |
| `Liveness.SweepStable` | backend/src/main/java/analysis/implementation/LivenessImplementation.java:43-46 | once node j has been visited, later visits of the pass never change its in- or out-set |
| `Liveness.UnionInsMember` | backend/src/main/java/analysis/implementation/LivenessImplementation.java:51-53 | a temp is in the union of the successors' in-sets iff some successor's in-set holds it |
| `Liveness.LiveOutFromEarlierSuccessors` | backend/src/main/java/analysis/implementation/LivenessImplementation.java:49-54 | the final out-set of n holds a temp iff the final in-set of some successor that comes before n holds it; later successors and n itself contribute nothing |
| `Liveness.LiveInEquation` | backend/src/main/java/analysis/implementation/LivenessImplementation.java:56-60 | the final in-set of n is use[n] ∪ (out[n] − def[n]) |
| `Liveness.DefinedLiveInOnlyIfUsed` | backend/src/main/java/analysis/implementation/LivenessImplementation.java:58-59 | a temp defined at n is live into n only if n also uses it |
| `Liveness.SuccessorsFirstGivesFixpoint` | backend/src/main/java/analysis/implementation/LivenessImplementation.java:43-60 | if every successor precedes its node, both dataflow equations hold at every node |
| `Liveness.SinglePassMissesLaterSuccessor` | backend/src/main/java/analysis/implementation/LivenessImplementation.java:43-54 | in the model, on a two-node graph whose successor comes later, a temp live into the successor is missing from the first node's out-set, so the modelled result is not a fixpoint |
| `Liveness.LivenessImplementation.constructor` | backend/src/main/java/analysis/implementation/LivenessImplementation.java:21-26 | creating the analysis leaves in `ins`/`outs` exactly the result of the single pass |
| `Liveness.LivenessImplementation.LiveOut` | backend/src/main/java/analysis/implementation/LivenessImplementation.java:28-31 | `liveOut(n)` is the computed out-set of n, i.e. the final in-sets of n's earlier successors |
| `Liveness.LivenessImplementation.LiveIn` | backend/src/main/java/analysis/implementation/LivenessImplementation.java:33-35 | `liveIn(n)` is the computed in-set of n, and it equals use[n] ∪ (out[n] − def[n]) |
| `Liveness.LivenessImplementation.CalculateLiveness` | backend/src/main/java/analysis/implementation/LivenessImplementation.java:37-47 | the empty-set loop and then one loop over the nodes (out-set, then in-set) leave the maps equal to the single-pass result |
| `Liveness.LivenessImplementation.CalculateLivenessOut` | backend/src/main/java/analysis/implementation/LivenessImplementation.java:49-54 | only out[n] changes, and it gains the current in-sets of all successors of n |
| `Liveness.LivenessImplementation.CalculateLivenessIn` | backend/src/main/java/analysis/implementation/LivenessImplementation.java:56-60 | only in[n] changes, and it gains use[n] and out[n] − def[n] |
| `RegAlloc.Delete` | backend/src/main/java/analysis/implementation/SimpleRegAlloc.java:183-190 | `delete` removes exactly one occurrence of the node, so the list becomes one shorter when the node is present |
| `RegAlloc.RemoveNode` | backend/src/main/java/analysis/implementation/SimpleRegAlloc.java:185-192 | `rmNode(n)` removes n and every edge at n; every other node keeps its neighbours other than n; the node list loses n and the moves are unchanged |
| `RegAlloc.Uncolored` | backend/src/main/java/analysis/implementation/SimpleRegAlloc.java:173-176 | the list to colour holds exactly the nodes that have no colour, and without repetition when the nodes are distinct |
| `RegAlloc.FirstLowDegree` | backend/src/main/java/analysis/implementation/SimpleRegAlloc.java:179-186 | the scan stops at the first node whose degree is below the register count; every node before it has at least that degree |
| `RegAlloc.EliminationIsPermutation` | backend/src/main/java/analysis/implementation/SimpleRegAlloc.java:178-194 | each pass removes exactly one node, so the elimination order holds every node of the list exactly as often as the list did |
| `RegAlloc.SimplifyOrdersUncolored` | backend/src/main/java/analysis/implementation/SimpleRegAlloc.java:174-194 | the ordering holds every node without a precolour exactly once and no precoloured node |
| `RegAlloc.ResidueNodes` | backend/src/main/java/analysis/implementation/SimpleRegAlloc.java:178-194 | whatever order the passes take, the graph simplify leaves has the nodes of the input that were not removed, without repetition, and the input's moves |
| `RegAlloc.ResidueEdge` | backend/src/main/java/analysis/implementation/SimpleRegAlloc.java:185-192 | after all passes, a node of the input that was not removed is still there and keeps exactly those neighbours that were not removed |
| `RegAlloc.ResidueEdges` | backend/src/main/java/analysis/implementation/SimpleRegAlloc.java:178-194 | the graph simplify leaves is the input graph without the removed temps and without every edge at one of them |
| `RegAlloc.FirstOKIsFirst` | backend/src/main/java/analysis/implementation/SimpleRegAlloc.java:138-144 | the colour-list loop picks the first acceptable colour in list order, and fails only when no colour of the list is acceptable |
| `RegAlloc.MoveColorIsFirst` | backend/src/main/java/analysis/implementation/SimpleRegAlloc.java:121-136 | the move loop takes the colour of the first move, in move order, whose partner's colour is acceptable for t, and finds none only when no move offers an acceptable colour |
| `RegAlloc.TryColorOrder` | backend/src/main/java/analysis/implementation/SimpleRegAlloc.java:119-145 | a move partner's acceptable colour wins over the colour list; `tryToColor` fails exactly when no move offers an acceptable colour and no colour of the list is acceptable |
| `RegAlloc.MoveColorSound` | backend/src/main/java/analysis/implementation/SimpleRegAlloc.java:121-136 | a move gives t a colour only if the colour is acceptable and t's partner in that move (source when t is the destination, destination when t is the source) has it |
| `RegAlloc.TryColorIsOK` | backend/src/main/java/analysis/implementation/SimpleRegAlloc.java:119-151 | whatever colour `tryToColor` gives t, no neighbour of t has it |
| `RegAlloc.FreshSlotIsOK` | backend/src/main/java/analysis/implementation/SimpleRegAlloc.java:109-114 | a newly created spill slot is acceptable for any temp, so colouring never fails |
| `RegAlloc.FirstOKFromSlots` | backend/src/main/java/analysis/implementation/SimpleRegAlloc.java:104-106 | a slot reused from `spillColors` is one of the spill slots created so far |
| `RegAlloc.StepKeepsInv` | backend/src/main/java/analysis/implementation/SimpleRegAlloc.java:95-115 | one temp's colouring keeps the colouring invariant, colours exactly that temp, keeps all earlier colours, appends the temp to `spilled` exactly when register colouring failed, and then gives it a spill slot |
| `RegAlloc.ColorAllKeepsInv` | backend/src/main/java/analysis/implementation/SimpleRegAlloc.java:95-117 | colouring a list keeps the invariant, colours exactly the temps of the list and never recolours a temp |
| `RegAlloc.ColorAllSpills` | backend/src/main/java/analysis/implementation/SimpleRegAlloc.java:103-107 | colouring a list only appends to `spilled`, only temps of the list, and each of them ends in a spill slot |
| `RegAlloc.Palette` | backend/src/main/java/analysis/implementation/SimpleRegAlloc.java:81-83 | the colour list has one register colour per register, in register order |
| `RegAlloc.InvGivesProper` | backend/src/main/java/analysis/implementation/SimpleRegAlloc.java:119-151 | a state that keeps the invariant and colours every node without a precolour is a proper colouring |
| `RegAlloc.AllocateKeepsInv` | backend/src/main/java/analysis/implementation/SimpleRegAlloc.java:89-92 | after select the invariant holds, and `colorMap` holds exactly the nodes without a precolour |
| `RegAlloc.AllocateSpills` | backend/src/main/java/analysis/implementation/SimpleRegAlloc.java:103-107 | every spilled temp is a node without a precolour, and its colour is a spill slot |
| `RegAlloc.AllocateIsProper` | backend/src/main/java/analysis/implementation/SimpleRegAlloc.java:74-93 | the allocation colours every node, colours the two ends of every edge differently unless both are precoloured, and spills only nodes without a precolour, each into a spill slot |
| `RegAlloc.SimpleRegAlloc.constructor` | backend/src/main/java/analysis/implementation/SimpleRegAlloc.java:74-93 | build, simplify, build and colour leave the state the allocation specifies; the result is a proper, total colouring with well-placed spills |
| `RegAlloc.SimpleRegAlloc.Build` | backend/src/main/java/analysis/implementation/SimpleRegAlloc.java:156-160 | building restores the interference graph of the procedure body |
| `RegAlloc.SimpleRegAlloc.GetColor` | backend/src/main/java/analysis/implementation/SimpleRegAlloc.java:230-236 | a precolour always wins over any colour-map entry; without one, the colour-map entry (or none) is the colour |
| `RegAlloc.SimpleRegAlloc.IsColored` | backend/src/main/java/analysis/implementation/SimpleRegAlloc.java:213-215 | a temp is coloured iff it is precoloured or has a colour-map entry |
| `RegAlloc.SimpleRegAlloc.SetColor` | backend/src/main/java/analysis/implementation/SimpleRegAlloc.java:221-224 | the temp must have no colour yet; only its own entry is added |
| `RegAlloc.SimpleRegAlloc.IsColorOK` | backend/src/main/java/analysis/implementation/SimpleRegAlloc.java:147-151 | the result is true iff no neighbour of t currently has colour c |
| `RegAlloc.SimpleRegAlloc.Simplify` | backend/src/main/java/analysis/implementation/SimpleRegAlloc.java:168-211 | the returned ordering is the elimination order of the uncoloured nodes, with the last-removed temp at the head, and `ig` is left as the input graph with every one of those passes applied |
| `RegAlloc.SimpleRegAlloc.UncoloredNodes` | backend/src/main/java/analysis/implementation/SimpleRegAlloc.java:173-176 | the loop collects the uncoloured nodes in node order |
| `RegAlloc.SimpleRegAlloc.SimplifyPass` | backend/src/main/java/analysis/implementation/SimpleRegAlloc.java:179-193 | one pass picks the node the scan gives, takes exactly it out of the list (`delete`) and out of the graph (`rmNode`), and that node goes after the order of what remains |
| `RegAlloc.SimpleRegAlloc.ScanPass` | backend/src/main/java/analysis/implementation/SimpleRegAlloc.java:179-193 | the scan picks the first node with degree below the register count, or else the last node |
| `RegAlloc.SimpleRegAlloc.TryToColor` | backend/src/main/java/analysis/implementation/SimpleRegAlloc.java:119-145 | it reports success exactly when a move partner's colour or a colour of the list is acceptable; on success it records that colour for t and nothing else |
| `RegAlloc.SimpleRegAlloc.Color` | backend/src/main/java/analysis/implementation/SimpleRegAlloc.java:95-117 | colouring the list, head first, gives the state the step-by-step specification gives |
| `SymbolTable.Def` | frontend/src/main/java/typechecker/implementation/BuildSymbolTableVisitor.java:395-401 | a new name is bound; an old name keeps its binding and exactly one duplicate-definition error is appended |
| `SymbolTable.Override` | frontend/src/main/java/typechecker/implementation/BuildSymbolTableVisitor.java:405-407 | the name is bound to the new value, no other binding changes, and nothing is reported |
| `SymbolTable.DefVarsKeepsBindings` | frontend/src/main/java/typechecker/implementation/BuildSymbolTableVisitor.java:350-365 | after a list of declarations the table holds the old names and the declared ones, and no old binding is replaced |
| `SymbolTable.DefVarsFirstWins` | frontend/src/main/java/typechecker/implementation/BuildSymbolTableVisitor.java:395-401 | a name not bound beforehand ends bound to the type of its first declaration |
| `SymbolTable.DefVarsReportsDuplicates` | frontend/src/main/java/typechecker/implementation/BuildSymbolTableVisitor.java:395-401 | declarations only append to the report, and only duplicate-definition errors for declared names |
| `SymbolTable.DefVarsCleanIff` | frontend/src/main/java/typechecker/implementation/BuildSymbolTableVisitor.java:395-401 | a list of declarations reports nothing iff its names are distinct and none is already bound |
| `SymbolTable.DefVarsReportsRedeclared` | frontend/src/main/java/typechecker/implementation/BuildSymbolTableVisitor.java:283-294 | declaring a name that is already bound (such as an inherited field) is reported as a duplicate |
| `SymbolTable.OverrideIsSilent` | frontend/src/main/java/typechecker/implementation/BuildSymbolTableVisitor.java:331-340 | a method whose name the current superclass has replaces any binding, even an earlier one of the same class, and adds no error |
| `SymbolTable.ClassInheritsSuper` | frontend/src/main/java/typechecker/implementation/BuildSymbolTableVisitor.java:274-296 | a class whose superclass is defined has every superclass field with its type and every superclass method name; a redeclared field is a duplicate |
| `SymbolTable.BuildMethodsKeepNames` | frontend/src/main/java/typechecker/implementation/BuildSymbolTableVisitor.java:331-340 | method declarations never unbind a method name |
| `SymbolTable.BuildMethodsKeepErrors` | frontend/src/main/java/typechecker/implementation/BuildSymbolTableVisitor.java:310-345 | method declarations only append to the report |
| `SymbolTable.MissingSuperCopiesNothing` | frontend/src/main/java/typechecker/implementation/BuildSymbolTableVisitor.java:274-276 | a superclass not yet in the table is reported as undefined; the class's fields are only its own, and the previous `thisSuperClass` stays current |
| `SymbolTable.ClassesKeyedByName` | frontend/src/main/java/typechecker/implementation/BuildSymbolTableVisitor.java:298-302 | every declared class is in the class table, and each entry carries the name it is bound under |
| `SymbolTable.ClassesKeepMain` | frontend/src/main/java/typechecker/implementation/BuildSymbolTableVisitor.java:262-308 | class declarations never change the main table |
| `SymbolTable.ProgramTables` | frontend/src/main/java/typechecker/implementation/BuildSymbolTableVisitor.java:47-52 | the result pairs a main table that binds the main class to an empty entry with a class table that holds every class under its own name |
| `SymbolTable.SuperClassCarriesOver` | frontend/src/main/java/typechecker/implementation/BuildSymbolTableVisitor.java:304-307 | `thisSuperClass` is never cleared: in `class A {m}`, `class B extends A {}`, `class C {m m}` the second `m` of C is an override and no duplicate is reported |
| `SymbolTable.SymbolTableBuilder.constructor` | frontend/src/main/java/typechecker/implementation/BuildSymbolTableVisitor.java:28-38 | the visitor starts with empty tables, an empty report and no open scope |
| `SymbolTable.SymbolTableBuilder.VisitVarDecl` | frontend/src/main/java/typechecker/implementation/BuildSymbolTableVisitor.java:350-365 | a declaration is `def`'d into the table its kind names; the other tables do not change |
| `SymbolTable.SymbolTableBuilder.VisitVarDecls` | frontend/src/main/java/typechecker/implementation/BuildSymbolTableVisitor.java:367-372 | a list of declarations is `def`'d in order |
| `SymbolTable.SymbolTableBuilder.VisitMethodDecl` | frontend/src/main/java/typechecker/implementation/BuildSymbolTableVisitor.java:310-345 | fresh formal and local tables are built and the method is bound (override or def) as the specification says; the method scope is closed afterwards |
| `SymbolTable.SymbolTableBuilder.VisitClassDecl` | frontend/src/main/java/typechecker/implementation/BuildSymbolTableVisitor.java:262-308 | visiting a class yields the state and the recorded entry that the specification of one class gives |
| `SymbolTable.SymbolTableBuilder.EnterClass` | frontend/src/main/java/typechecker/implementation/BuildSymbolTableVisitor.java:263-294 | the class scope opens with the superclass copies and then the class's own fields |
| `SymbolTable.SymbolTableBuilder.EnterSuperClass` | frontend/src/main/java/typechecker/implementation/BuildSymbolTableVisitor.java:266-292 | new tables are empty, or copies of a defined superclass's members with that superclass made current; an undefined superclass is reported |
| `SymbolTable.SymbolTableBuilder.ExitClass` | frontend/src/main/java/typechecker/implementation/BuildSymbolTableVisitor.java:298-307 | the finished class is `def`'d into the class table and the class scope is closed |
| `SymbolTable.SymbolTableBuilder.VisitMethodDecls` | frontend/src/main/java/typechecker/implementation/BuildSymbolTableVisitor.java:296 | the methods are visited in order, and the entry recorded for each is returned |
| `SymbolTable.SymbolTableBuilder.CopySuperMembers` | frontend/src/main/java/typechecker/implementation/BuildSymbolTableVisitor.java:280-290 | the copy loops make the new tables equal to the superclass's, with no error |
| `SymbolTable.SymbolTableBuilder.CopySuperFields` | frontend/src/main/java/typechecker/implementation/BuildSymbolTableVisitor.java:283-286 | the field loop defines every superclass field, with no error |
| `SymbolTable.SymbolTableBuilder.CopySuperMethods` | frontend/src/main/java/typechecker/implementation/BuildSymbolTableVisitor.java:287-290 | the method loop defines every superclass method, with no error |
| `SymbolTable.SymbolTableBuilder.VisitMainClass` | frontend/src/main/java/typechecker/implementation/BuildSymbolTableVisitor.java:252-260 | the main class is `def`'d into the main table with an empty entry |
| `SymbolTable.SymbolTableBuilder.VisitProgram` | frontend/src/main/java/typechecker/implementation/BuildSymbolTableVisitor.java:48-52 | the main class and then the classes are visited; the main table and the class table are returned |
| `SymbolTable.SymbolTableBuilder.VisitClassDecls` | frontend/src/main/java/typechecker/implementation/BuildSymbolTableVisitor.java:367-372 | the class declarations are visited in order |
| `TypeCheck.ReachesIff` | frontend/src/main/java/typechecker/implementation/TypeCheckVisitor.java:112-119 | the walk in `check` succeeds iff a class within the step bound up the chain carries the expected name |
| `TypeCheck.FieldInNearest` | frontend/src/main/java/typechecker/implementation/TypeCheckVisitor.java:76-91 | the superclass walk in `lookup` returns the nearest declaring class's field type and misses only when no class up the chain declares the field |
| `TypeCheck.ConformPrimitive` | frontend/src/main/java/typechecker/implementation/TypeCheckVisitor.java:123-125 | against a type that is not a class type only the same type passes; otherwise exactly one type error is reported |
| `TypeCheck.ConformTransitive` | frontend/src/main/java/typechecker/implementation/TypeCheckVisitor.java:112-119 | in an acyclic table keyed by class name, a subclass of a subclass of C conforms to C |
| `TypeCheck.CheckIff` | frontend/src/main/java/typechecker/implementation/TypeCheckVisitor.java:109-126 | `check` is silent iff the visit reports nothing and the actual type conforms to the expected one |
| `TypeCheck.ArithmeticRule` | frontend/src/main/java/typechecker/implementation/TypeCheckVisitor.java:237-259 | Plus, Minus and Times have type int and are error-free iff both operands are error-free ints |
| `TypeCheck.LessThanRule` | frontend/src/main/java/typechecker/implementation/TypeCheckVisitor.java:210-216 | LessThan has type boolean and is error-free iff both operands are error-free ints |
| `TypeCheck.BooleanRules` | frontend/src/main/java/typechecker/implementation/TypeCheckVisitor.java:435-441 | And (and Not, lines 277-282) have type boolean and are error-free iff their operands are error-free booleans |
| `TypeCheck.ArrayRules` | frontend/src/main/java/typechecker/implementation/TypeCheckVisitor.java:443-456 | ArrayLookup and ArrayLength have type int and are error-free iff the array is an error-free `int[]` (and the index an error-free int) |
| `TypeCheck.AllocationRules` | frontend/src/main/java/typechecker/implementation/TypeCheckVisitor.java:475-486 | NewArray has type `int[]` and is error-free iff the size is an error-free int; NewObject has the named class type and reports nothing |
| `TypeCheck.IdentifierRule` | frontend/src/main/java/typechecker/implementation/TypeCheckVisitor.java:267-275 | a defined identifier has its declared type; an undefined one has the unknown type and reports exactly one undefined-identifier error |
| `TypeCheck.ResolveOrder` | frontend/src/main/java/typechecker/implementation/TypeCheckVisitor.java:53-96 | `lookup` prefers locals, then formals; it misses iff no local, formal, own field or field up the superclass chain has the name |
| `TypeCheck.ThisRule` | frontend/src/main/java/typechecker/implementation/TypeCheckVisitor.java:464-473 | `this` outside a class reports `undefinedId("this")` with the unknown type; inside a class it has that class's type |
| `TypeCheck.KnownCallRule` | frontend/src/main/java/typechecker/implementation/TypeCheckVisitor.java:306-326 | a call of a known method has its return type; after the receiver's errors comes one arity error exactly when the counts differ, then the argument checks |
| `TypeCheck.ExtraArgumentsIgnored` | frontend/src/main/java/typechecker/implementation/TypeCheckVisitor.java:319-325 | arguments beyond the last formal are never visited: adding more changes nothing the argument checks report |
| `TypeCheck.UnknownCallRule` | frontend/src/main/java/typechecker/implementation/TypeCheckVisitor.java:306-337 | a receiver that is not an object adds no error; a missing class or method adds one undefined-identifier error; each case has the unknown type |
| `TypeCheck.PrintRule` | frontend/src/main/java/typechecker/implementation/TypeCheckVisitor.java:186-196 | print is error-free iff its argument is an error-free int or boolean; anything else adds one error listing both types |
| `TypeCheck.AssignRule` | frontend/src/main/java/typechecker/implementation/TypeCheckVisitor.java:198-208 | an undefined target reports only its name and the value is not visited; otherwise the value must conform to the target's type |
| `TypeCheck.ArrayAssignAsWrittenRule` | frontend/src/main/java/typechecker/implementation/TypeCheckVisitor.java:425-433 | an array assignment is error-free iff its target is defined, whatever its type, and the index and value are error-free ints; an undefined target reports only its name |
| `TypeCheck.ArrayAssignAcceptsNonArray` | frontend/src/main/java/typechecker/implementation/TypeCheckVisitor.java:425-433 | `x[0] = 1` with `x` a local int reports nothing, while the corrected rule reports one type error on `x` |
| `TypeCheck.ArrayAssignRule` | frontend/src/main/java/typechecker/implementation/TypeCheckVisitor.java:443-449 | under the corrected rule (see Findings), an array assignment is error-free iff the target is an `int[]` and the index and value are error-free ints, as for `ArrayLookup` |
| `TypeCheck.ArrayAssignCorrection` | frontend/src/main/java/typechecker/implementation/TypeCheckVisitor.java:425-433 | the corrected rule agrees with the code on an undefined or `int[]` target; on any other defined target it adds exactly one type error on the target before the code's errors |
| `TypeCheck.ConditionalRule` | frontend/src/main/java/typechecker/implementation/TypeCheckVisitor.java:218-225 | a conditional has its second operand's type, and is error-free iff the test is an error-free boolean, both branches are error-free and the third conforms to the second |
| `TypeCheck.BlockIsConcatenation` | frontend/src/main/java/typechecker/implementation/TypeCheckVisitor.java:404-408 | a block reports what its statements report, in order |
| `TypeCheck.PhaseOneBuildsCycle` | frontend/src/main/java/typechecker/implementation/BuildSymbolTableVisitor.java:270-302 | `class A extends B {}` then `class B extends A {}`: phase 1 reports B as undefined once, yet records A's superclass as B, so the class table it builds is cyclic |
| `TypeCheck.SuperClassCarriesOverToLookup` | frontend/src/main/java/typechecker/implementation/TypeCheckVisitor.java:353-378 | `thisSuperClass` is not reset after a class: after `class B extends A {}`, a `return f;` in an unrelated class C finds A's field `f` and C is accepted |
| `TypeCheck.TypeChecker.constructor` | frontend/src/main/java/typechecker/implementation/TypeCheckVisitor.java:98-102 | the checker keeps the two tables phase 1 built, with an empty report and no open scope |
| `TypeCheck.TypeChecker.Lookup` | frontend/src/main/java/typechecker/implementation/TypeCheckVisitor.java:53-96 | the result is the resolution the scope rules give; a miss appends exactly one undefined-identifier error |
| `TypeCheck.TypeChecker.Compare` | frontend/src/main/java/typechecker/implementation/TypeCheckVisitor.java:131-145 | the superclass walk and the equality test append exactly the conformance errors |
| `TypeCheck.TypeChecker.Check` | frontend/src/main/java/typechecker/implementation/TypeCheckVisitor.java:109-126 | `check` appends the expression's own errors, then the conformance error if any |
| `TypeCheck.TypeChecker.VisitExp` | frontend/src/main/java/typechecker/implementation/TypeCheckVisitor.java:210-486 | each expression visit returns the type the typing rules give and appends exactly their errors, in order |
| `TypeCheck.TypeChecker.VisitOperands` | frontend/src/main/java/typechecker/implementation/TypeCheckVisitor.java:237-259 | both operands are checked against the operand type, left first |
| `TypeCheck.TypeChecker.VisitConditional` | frontend/src/main/java/typechecker/implementation/TypeCheckVisitor.java:218-225 | the test, both branches and the comparison report in that order; the type is the second operand's |
| `TypeCheck.TypeChecker.VisitCall` | frontend/src/main/java/typechecker/implementation/TypeCheckVisitor.java:298-337 | the call visit returns the rules' type and appends receiver, arity and argument errors as the rules give |
| `TypeCheck.TypeChecker.VisitArguments` | frontend/src/main/java/typechecker/implementation/TypeCheckVisitor.java:319-325 | the loop over all arguments checks exactly those that have a formal, in order |
| `TypeCheck.TypeChecker.VisitStmt` | frontend/src/main/java/typechecker/implementation/TypeCheckVisitor.java:404-433 | each statement visit appends exactly the errors the statement rules give |
| `TypeCheck.TypeChecker.VisitBlock` | frontend/src/main/java/typechecker/implementation/TypeCheckVisitor.java:404-408 | the statements of a block are visited in order |
| `TypeCheck.TypeChecker.VisitPrint` | frontend/src/main/java/typechecker/implementation/TypeCheckVisitor.java:186-196 | print appends the argument's errors and, for a type other than int or boolean, one error listing both |
| `TypeCheck.TypeChecker.VisitAssign` | frontend/src/main/java/typechecker/implementation/TypeCheckVisitor.java:198-208 | assignment appends the lookup miss, or the value's errors and its conformance to the target type |
| `TypeCheck.TypeChecker.VisitArrayAssign` | frontend/src/main/java/typechecker/implementation/TypeCheckVisitor.java:425-433 | array assignment appends the lookup miss, or else the index and value checks; the target's type is not examined |
| `TypeCheck.TypeChecker.VisitArrayChecks` | frontend/src/main/java/typechecker/implementation/TypeCheckVisitor.java:428-431 | for a defined target: the index check, then the value check, both against int |
| `TypeCheck.TypeChecker.VisitMethodDecl` | frontend/src/main/java/typechecker/implementation/TypeCheckVisitor.java:380-392 | the method's tables are in scope for its statements and its return check, and they are closed afterwards |
| `TypeCheck.TypeChecker.VisitClassDecl` | frontend/src/main/java/typechecker/implementation/TypeCheckVisitor.java:353-378 | a class visit takes the state where the specification of one class says; the class scope closes but `thisSuperClass` stays |
| `TypeCheck.TypeChecker.EnterClass` | frontend/src/main/java/typechecker/implementation/TypeCheckVisitor.java:355-368 | the class tables are opened; a superclass missing from the table is reported under its declared name, and a defined one becomes `thisSuperClass` |
| `TypeCheck.TypeChecker.ExitClass` | frontend/src/main/java/typechecker/implementation/TypeCheckVisitor.java:372-376 | the class scope is closed, except for `thisSuperClass` |
| `TypeCheck.TypeChecker.VisitMethodDecls` | frontend/src/main/java/typechecker/implementation/TypeCheckVisitor.java:370 | the methods are checked in order, each with its recorded entry |
| `TypeCheck.TypeChecker.VisitMainClass` | frontend/src/main/java/typechecker/implementation/TypeCheckVisitor.java:344-351 | the main statement is checked with `this` naming the main class; `thisClass` is reset afterwards |
| `TypeCheck.TypeChecker.VisitProgram` | frontend/src/main/java/typechecker/implementation/TypeCheckVisitor.java:161-166 | the main class and then the classes are checked |
| `TypeCheck.TypeChecker.VisitClassDecls` | frontend/src/main/java/typechecker/implementation/TypeCheckVisitor.java:153-159 | the class declarations are checked in order, each after the state the previous one left |

## Left out

- File output, the trace string, `dump` and the dot-file export of both backend classes (`SimpleRegAlloc.java` lines 45-68 and 197-206, `LivenessImplementation.java` lines 62-119): diagnostics only, with file I/O and floating point.
- The static `incarnation` counter and the `iteration` number: they only name diagnostic output.
- Building the flow graph and the interference graph (`FlowGraph.build`, `getInterferenceGraph`): that code is not part of this model. Both graphs are inputs. `build()` therefore yields the same graph each time it is called.
- The interference graph: it is assumed undirected, without self-edges, and with moves between its own nodes (`RegAlloc.WellFormed`). Nodes are identified with their temps.
- The flow graph: node n is position n of `g.nodes()`, and successors are positions.
- `ActiveSet` is not part of this model. Its `addAll` is modelled as a one-time union, and its `remove` as a set difference that returns a new set. Any propagation of later additions from one `ActiveSet` to another is not modelled. With such propagation, the one pass could reach the fixpoint that `SinglePassMissesLaterSuccessor` shows the modelled pass missing.
- `util.List`, `Node` and `ImpTable` are modelled as sequences, sets and maps. Iterating over a set (`node.succ()` in `isColorOK`, the entry iterators in the superclass copy loops) takes the elements in an unspecified order; none of these results depends on the order.
- Precolours: they are taken as register colours (`pre: map<Temp, nat>`), and the palette is the precolours of the frame's registers. `Frame` and `SpillColor` are not part of this model. A fresh spill slot is numbered by the count of slots so far.
- `RegAlloc.SimpleRegAlloc.SetColor`: the source's Java `assert` (that t has no colour yet) is a precondition.
- A temp coloured through a move whose partner sits in a spill slot gets that slot without being added to `spilled`. The model keeps this behaviour of the code.
- `getSpilled` and `getColorMap` are plain getters; the model exposes the fields `spilled` and `colorMap` directly.
- The spill-rewrite and retry driver around the allocator is not part of this model.
- Cyclic class hierarchies: the superclass walks of `lookup` and `check` have no cycle guard. Phase 2 requires an acyclic class table (`TypeCheck.Acyclic`). Phase 1 can itself build a cyclic table (`TypeCheck.PhaseOneBuildsCycle`). Phase 2's `lookup` of an undefined name inside such a class would then loop forever. This case is outside the model; it has not been executed.
- Class-table entries are always `ClassType`s in the model, so the unchecked casts (`TypeCheckVisitor.java` lines 79 and 360, `BuildSymbolTableVisitor.java` line 275) cannot fail.
- A class entry without a name (only the main entry has none, and it is not in the class table) never matches in the `check` walk. The source would call `equals` on null there.
- Type equality (`equals` of `ClassType`, `MethodType` and the AST types) is datatype equality.
- The `n.setType` annotations of phase 2 are not modelled. Their values are the types the visit methods return.
- Phase 1's annotations (`n.type`) are returned as values (`ClassAnnot`, `MethodType`) and passed to phase 2, rather than stored on the AST.
- `thisSuperFields` and `thisSuperMethods` of phase 2 are set and cleared as in the source, but nothing reads them.
- Phase 1 visits each method's statements and return expression (`BuildSymbolTableVisitor.java` lines 323-324). Statement and expression visits of phase 1 only descend into their children and change nothing, so they are left out.
- The `FunctionDecl`/`globals`/`functions` parts of both visitors belong to another language of the repository and are left out.
- `SymbolTable.SymbolTableBuilder.VisitProgram` and its callers: the parser's guarantee that fields, formals and locals have the kind their position says (`Ast.WellKinded`) is a precondition. For the same reason the unreachable `default` branch of `visit(VarDecl)` is left out.

## Findings

| source | as written | input that shows it | evidently intended | confidence | as-written member | corrected member |
|---|---|---|---|---|---|---|
| frontend/src/main/java/typechecker/implementation/TypeCheckVisitor.java:425-433 | `visit(ArrayAssign)` looks up the target, then checks only the index and the value; the target's type is never compared with `int[]` | an `int x` assigned with `x[0] = 1`: nothing is reported | a defined target must have type `int[]`, as `visit(ArrayLookup)` (line 445) requires of an indexed array | high; not executed | `TypeCheck.ArrayAssignAsWritten`, shown by `TypeCheck.ArrayAssignAcceptsNonArray` | `TypeCheck.ArrayAssignErrs`, proved by `TypeCheck.ArrayAssignRule` and related to the code by `TypeCheck.ArrayAssignCorrection`; `StmtErrs` and `TypeCheck.TypeChecker.VisitArrayAssign` keep the code's behaviour (`TypeCheck.ArrayAssignAsWrittenRule`) |
