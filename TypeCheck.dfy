/**
 * Phase 2 of the MiniJava checker (`TypeCheckVisitor`): with the tables phase 1 built, reports
 * undefined identifiers, type errors and wrong argument counts. The typing rules are the pure
 * functions below; the visitor class computes the same types and errors with the source's
 * loops and scope fields.
 */
module TypeCheck {
  import opened Util
  import opened Ast
  import SymbolTable

  type Classes = map<string, ClassType>

  // ---------------------------------------------------------------------------------------
  // Superclass chains

  /** The superclass chain starting at `start` leaves the table (a missing name or no
    * superclass) within `fuel` steps. */
  predicate EndsWithin(classes: Classes, start: Option<string>, fuel: nat)
    decreases fuel
  {
    start.None? || start.value !in classes
    || (fuel > 0 && EndsWithin(classes, classes[start.value].superClass, fuel - 1))
  }

  /** No class is its own ancestor: every chain ends within as many steps as there are
    * classes. */
  predicate Acyclic(classes: Classes) {
    forall k {:trigger Rooted(classes, k)} :: k in classes ==> Rooted(classes, k)
  }

  /** The chain from class `k` ends within as many steps as there are classes. */
  predicate Rooted(classes: Classes, k: string) {
    EndsWithin(classes, Some(k), |classes|)
  }

  /** In an acyclic table every chain ends within as many steps as there are classes. */
  lemma AcyclicEnds(classes: Classes, start: Option<string>)
    requires Acyclic(classes)
    ensures EndsWithin(classes, start, |classes|)
  {
    if start.Some? && start.value in classes {
      assert Rooted(classes, start.value);
    }
  }

  /** Phase 1 can build a cyclic table itself: `class A extends B {}` before `B` is defined is
    * reported, yet A's entry still names B as its superclass, and `class B extends A {}` closes
    * the cycle. */
  lemma PhaseOneBuildsCycle()
    ensures var a := ClassDecl("A", Some("B"), [], []);
      var b := ClassDecl("B", Some("A"), [], []);
      var r := SymbolTable.BuildClasses(SymbolTable.Phase1([], map[], map[], None), [a, b]);
      && r.st.errors == [UndefinedId("B")]
      && r.st.classes.Keys == {"A", "B"}
      && r.st.classes["A"].superClass == Some("B") && r.st.classes["B"].superClass == Some("A")
      && !Acyclic(r.st.classes)
  {
    var a := ClassDecl("A", Some("B"), [], []);
    var b := ClassDecl("B", Some("A"), [], []);
    var st0 := SymbolTable.Phase1([], map[], map[], None);
    var s1 := SymbolTable.BuildClass(st0, a);
    assert s1.st.classes == map["A" := ClassType(Some("A"), Some("B"), map[], map[])];
    var s2 := SymbolTable.BuildClass(s1.st, b);
    assert [a, b][1..] == [b] && [b][1..] == [];
    assert SymbolTable.BuildClasses(s2.st, []).st == s2.st;
    assert SymbolTable.BuildClasses(s1.st, [b]).st == s2.st;
    assert SymbolTable.BuildClasses(st0, [a, b]).st == s2.st;
    var classes := s2.st.classes;
    assert classes.Keys == {"A", "B"};
    assert !EndsWithin(classes, Some("A"), 0);
    assert !EndsWithin(classes, Some("B"), 1);
    assert !Rooted(classes, "A");
  }

  /** The name `n` superclass steps up the chain from `start`, while the chain stays in the
    * table. */
  function Ancestor(classes: Classes, start: Option<string>, n: nat): Option<string>
    decreases n
  {
    if n == 0 then start
    else if start.None? || start.value !in classes then None
    else Ancestor(classes, classes[start.value].superClass, n - 1)
  }

  /** The class `n` steps up the chain from `start` is in the table and carries the name `target`. */
  predicate NamedAt(classes: Classes, start: Option<string>, n: nat, target: string) {
    var a := Ancestor(classes, start, n);
    a.Some? && a.value in classes && classes[a.value].name == Some(target)
  }

  /** The type of field `x` in the class `n` steps up the chain from `start`, if that class
    * declares it. */
  function FieldAt(classes: Classes, start: Option<string>, n: nat, x: string): Option<Type> {
    var a := Ancestor(classes, start, n);
    if a.Some? && a.value in classes && x in classes[a.value].fields then Some(classes[a.value].fields[x]) else None
  }

  /** The walk of `check`: does a class on the chain from `start` carry the name `target`? */
  function Reaches(classes: Classes, start: Option<string>, target: string, fuel: nat): bool
    decreases fuel
  {
    if start.None? || start.value !in classes || fuel == 0 then false
    else classes[start.value].name == Some(target) || Reaches(classes, classes[start.value].superClass, target, fuel - 1)
  }

  /** The walk of `lookup`: the first class on the chain from `start` that declares field `x`
    * gives its type. */
  function FieldIn(classes: Classes, start: Option<string>, x: string, fuel: nat): Option<Type>
    decreases fuel
  {
    if start.None? || start.value !in classes || fuel == 0 then None
    else
      var ct := classes[start.value];
      if x in ct.fields then Some(ct.fields[x]) else FieldIn(classes, ct.superClass, x, fuel - 1)
  }

  /** One step up the chain. */
  lemma AncestorStep(classes: Classes, start: Option<string>, n: nat)
    requires start.Some? && start.value in classes
    ensures Ancestor(classes, start, n + 1) == Ancestor(classes, classes[start.value].superClass, n)
  {
  }

  /** The walk of `check` succeeds exactly when some class within `fuel` steps up the chain
    * carries the target name. */
  lemma {:induction false} ReachesIff(classes: Classes, start: Option<string>, target: string, fuel: nat)
    ensures Reaches(classes, start, target, fuel) <==> exists n :: 0 <= n < fuel && NamedAt(classes, start, n, target)
    decreases fuel
  {
    if fuel == 0 {
    } else if start.None? || start.value !in classes {
      forall n | 0 <= n < fuel ensures !NamedAt(classes, start, n, target) {
        if n > 0 { assert Ancestor(classes, start, n) == None; }
      }
    } else {
      var next := classes[start.value].superClass;
      ReachesIff(classes, next, target, fuel - 1);
      if Reaches(classes, start, target, fuel) {
        if classes[start.value].name == Some(target) {
          assert NamedAt(classes, start, 0, target);
        } else {
          var n :| 0 <= n < fuel - 1 && NamedAt(classes, next, n, target);
          AncestorStep(classes, start, n);
          assert NamedAt(classes, start, n + 1, target);
        }
      }
      if exists n :: 0 <= n < fuel && NamedAt(classes, start, n, target) {
        var n :| 0 <= n < fuel && NamedAt(classes, start, n, target);
        if n > 0 {
          AncestorStep(classes, start, n - 1);
          assert NamedAt(classes, next, n - 1, target);
        }
      }
    }
  }

  /** The walk of `lookup` returns the type from the nearest class up the chain that declares
    * the field: one within `fuel` steps, with no nearer class declaring it; and it misses only
    * when no class within `fuel` steps declares the field. */
  lemma {:induction false} FieldInNearest(classes: Classes, start: Option<string>, x: string, fuel: nat)
    ensures FieldIn(classes, start, x, fuel).Some? ==>
      exists n :: 0 <= n < fuel && FieldAt(classes, start, n, x) == FieldIn(classes, start, x, fuel)
        && forall m :: 0 <= m < n ==> FieldAt(classes, start, m, x).None?
    ensures FieldIn(classes, start, x, fuel).None? ==> forall n :: 0 <= n < fuel ==> FieldAt(classes, start, n, x).None?
    decreases fuel
  {
    if start.None? || start.value !in classes || fuel == 0 {
      forall n | 0 <= n < fuel ensures FieldAt(classes, start, n, x).None? {
        if n > 0 { assert Ancestor(classes, start, n) == None; }
      }
    } else {
      var ct := classes[start.value];
      var next := ct.superClass;
      FieldInNearest(classes, next, x, fuel - 1);
      if x in ct.fields {
        assert FieldAt(classes, start, 0, x) == Some(ct.fields[x]);
      } else {
        assert FieldAt(classes, start, 0, x).None?;
        forall n | 0 <= n < fuel - 1 ensures FieldAt(classes, start, n + 1, x) == FieldAt(classes, next, n, x) {
          AncestorStep(classes, start, n);
        }
        if FieldIn(classes, start, x, fuel).Some? {
          var n :| 0 <= n < fuel - 1 && FieldAt(classes, next, n, x) == FieldIn(classes, next, x, fuel - 1)
            && forall m :: 0 <= m < n ==> FieldAt(classes, next, m, x).None?;
          assert FieldAt(classes, start, n + 1, x) == FieldIn(classes, start, x, fuel);
          forall m | 0 <= m < n + 1 ensures FieldAt(classes, start, m, x).None? {
            if m > 0 { assert FieldAt(classes, start, m, x) == FieldAt(classes, next, m - 1, x); }
          }
        } else {
          forall n | 0 <= n < fuel ensures FieldAt(classes, start, n, x).None? {
            if n > 0 { assert FieldAt(classes, start, n, x) == FieldAt(classes, next, n - 1, x); }
          }
        }
      }
    }
  }

  /** A chain that ends within `fuel` steps has no class in the table `fuel` or more steps up. */
  lemma {:induction false} ChainBound(classes: Classes, start: Option<string>, fuel: nat, n: nat)
    requires EndsWithin(classes, start, fuel)
    requires Ancestor(classes, start, n).Some? && Ancestor(classes, start, n).value in classes
    ensures n < fuel
    decreases n
  {
    if n > 0 {
      AncestorStep(classes, start, n - 1);
      ChainBound(classes, classes[start.value].superClass, fuel - 1, n - 1);
    }
  }

  /** Walking `n` steps and then `m` more is walking `n + m` steps. */
  lemma {:induction false} AncestorAdd(classes: Classes, start: Option<string>, n: nat, m: nat)
    ensures Ancestor(classes, start, n + m) == Ancestor(classes, Ancestor(classes, start, n), m)
    decreases n
  {
    if n > 0 && start.Some? && start.value in classes {
      AncestorStep(classes, start, n - 1 + m);
      AncestorStep(classes, start, n - 1);
      AncestorAdd(classes, classes[start.value].superClass, n - 1, m);
    } else if n > 0 {
      AncestorNone(classes, m);
    }
  }

  /** Only a class in the table has anything up its chain. */
  lemma AncestorInTable(classes: Classes, start: Option<string>, n: nat)
    requires n > 0 && Ancestor(classes, start, n).Some?
    ensures start.Some? && start.value in classes
  {
  }

  /** Nothing is up the chain from a missing class. */
  lemma {:induction false} AncestorNone(classes: Classes, m: nat)
    ensures Ancestor(classes, None, m) == None
  {
  }

  // ---------------------------------------------------------------------------------------
  // Scopes and the two `check` overloads

  /** What `lookup` and `This` see: the class table and the scope fields of the visitor. */
  datatype Scope = Scope(classes: Classes, thisClass: Option<string>, thisSuperClass: Option<string>,
                         fields: Option<map<string, Type>>, formals: Option<map<string, Type>>,
                         locals: Option<map<string, Type>>)

  /** `lookup`: locals, then formals, then the class's fields, then the fields up the chain
    * from `thisSuperClass`. */
  function Resolve(sc: Scope, x: string): Option<Type> {
    if sc.locals.Some? && x in sc.locals.value then Some(sc.locals.value[x])
    else if sc.formals.Some? && x in sc.formals.value then Some(sc.formals.value[x])
    else if sc.fields.Some? && x in sc.fields.value then Some(sc.fields.value[x])
    else if sc.thisSuperClass.Some? then FieldIn(sc.classes, sc.thisSuperClass, x, |sc.classes|)
    else None
  }

  /** Both `check` overloads after the actual type is known: silent when the actual type's
    * class or one of its ancestors has the expected name, otherwise one type error unless the
    * types are equal. */
  function Conform(classes: Classes, e: Expr, expected: Type, actual: Type): seq<Error> {
    if expected.ObjectType? && actual.ObjectType? && Reaches(classes, Some(actual.name), expected.name, |classes|) then []
    else if expected == actual then []
    else [TypeError(e, [expected], actual)]
  }

  /** Against a type that is not a class type, only the same type conforms. */
  lemma ConformPrimitive(classes: Classes, e: Expr, expected: Type, actual: Type)
    requires !expected.ObjectType?
    ensures Conform(classes, e, expected, actual) == [] <==> actual == expected
    ensures actual != expected ==> Conform(classes, e, expected, actual) == [TypeError(e, [expected], actual)]
  {
  }

  /** In a table keyed by class name with no cycles, conformance of class types is
    * transitive: a subclass of a subclass of C conforms to C. */
  lemma ConformTransitive(classes: Classes, e: Expr, a: string, b: string, c: string)
    requires Acyclic(classes) && SymbolTable.KeyedByName(classes)
    requires Conform(classes, e, ObjectType(b), ObjectType(a)) == []
    requires Conform(classes, e, ObjectType(c), ObjectType(b)) == []
    ensures Conform(classes, e, ObjectType(c), ObjectType(a)) == []
  {
    var F := |classes|;
    if a != b && b != c {
      ReachesIff(classes, Some(a), b, F);
      ReachesIff(classes, Some(b), c, F);
      var n :| 0 <= n < F && NamedAt(classes, Some(a), n, b);
      var m :| 0 <= m < F && NamedAt(classes, Some(b), m, c);
      assert Ancestor(classes, Some(a), n) == Some(b);
      assert n != 0;
      AncestorInTable(classes, Some(a), n);
      AncestorAdd(classes, Some(a), n, m);
      assert NamedAt(classes, Some(a), n + m, c);
      AcyclicEnds(classes, Some(a));
      ChainBound(classes, Some(a), F, n + m);
      ReachesIff(classes, Some(a), c, F);
    }
  }

  // ---------------------------------------------------------------------------------------
  // Typing rules

  /** The type an expression's visit returns and the errors it reports, in order. */
  datatype Typed = Typed(ty: Type, errs: seq<Error>)

  /** Visiting an expression. */
  function ExpType(sc: Scope, e: Expr): Typed
    decreases e, 1
  {
    match e
    case And(e1, e2) => Typed(BoolType, CheckErrs(sc, e1, BoolType) + CheckErrs(sc, e2, BoolType))
    case LessThan(e1, e2) => Typed(BoolType, CheckErrs(sc, e1, IntType) + CheckErrs(sc, e2, IntType))
    case Plus(e1, e2) => Typed(IntType, CheckErrs(sc, e1, IntType) + CheckErrs(sc, e2, IntType))
    case Minus(e1, e2) => Typed(IntType, CheckErrs(sc, e1, IntType) + CheckErrs(sc, e2, IntType))
    case Times(e1, e2) => Typed(IntType, CheckErrs(sc, e1, IntType) + CheckErrs(sc, e2, IntType))
    case ArrayLookup(a, i) => Typed(IntType, CheckErrs(sc, a, IntArrayType) + CheckErrs(sc, i, IntType))
    case ArrayLength(a) => Typed(IntType, CheckErrs(sc, a, IntArrayType))
    case Call(r, name, rands) =>
      var rt := ExpType(sc, r);
      if !rt.ty.ObjectType? then Typed(UnknownType, rt.errs)
      else if rt.ty.name !in sc.classes then Typed(UnknownType, rt.errs + [UndefinedId(rt.ty.name)])
      else if name !in sc.classes[rt.ty.name].methods then Typed(UnknownType, rt.errs + [UndefinedId(name)])
      else
        var mt := sc.classes[rt.ty.name].methods[name];
        var arity := if |rands| != |mt.formals| then [WrongNumberOfArguments(|mt.formals|, |rands|)] else [];
        Typed(mt.returnType, rt.errs + arity + ArgErrs(sc, e, mt.formals, 0))
    case IntegerLiteral(_) => Typed(IntType, [])
    case BooleanLiteral(_) => Typed(BoolType, [])
    case IdentifierExp(x) =>
      var t := Resolve(sc, x);
      if t.None? then Typed(UnknownType, [UndefinedId(x)]) else Typed(t.value, [])
    case This => if sc.thisClass.None? then Typed(UnknownType, [UndefinedId("this")]) else Typed(ObjectType(sc.thisClass.value), [])
    case NewArray(size) => Typed(IntArrayType, CheckErrs(sc, size, IntType))
    case NewObject(n) => Typed(ObjectType(n), [])
    case Not(e1) => Typed(BoolType, CheckErrs(sc, e1, BoolType))
    case Conditional(c1, c2, c3) =>
      var t2 := ExpType(sc, c2);
      var t3 := ExpType(sc, c3);
      Typed(t2.ty, CheckErrs(sc, c1, BoolType) + t2.errs + t3.errs + Conform(sc.classes, e, t2.ty, t3.ty))
  }

  /** `check(exp, expected)`: visit, then compare. */
  function CheckErrs(sc: Scope, e: Expr, expected: Type): seq<Error>
    decreases e, 2
  {
    var t := ExpType(sc, e);
    t.errs + Conform(sc.classes, e, expected, t.ty)
  }

  /** The argument checks of a call from position `i` on: each argument with a formal is
    * checked against the formal's type; arguments past the last formal are not visited. */
  function ArgErrs(sc: Scope, e: Expr, formals: seq<VarDecl>, i: nat): seq<Error>
    requires e.Call?
    decreases e, 0, |e.rands| - i
  {
    if i >= |e.rands| || i >= |formals| then []
    else CheckErrs(sc, e.rands[i], formals[i].ty) + ArgErrs(sc, e, formals, i + 1)
  }

  /** Visiting a statement. */
  function StmtErrs(sc: Scope, s: Stmt): seq<Error>
    decreases s, 1
  {
    match s
    case Block(_) => BlockErrs(sc, s, 0)
    case If(tst, thn, els) => CheckErrs(sc, tst, BoolType) + StmtErrs(sc, thn) + StmtErrs(sc, els)
    case While(tst, body) => CheckErrs(sc, tst, BoolType) + StmtErrs(sc, body)
    case Print(e) =>
      var t := ExpType(sc, e);
      t.errs + (if t.ty == IntType || t.ty == BoolType then [] else [TypeError(e, [IntType, BoolType], t.ty)])
    case Assign(x, v) =>
      var target := Resolve(sc, x);
      if target.None? then [UndefinedId(x)]
      else
        var t := ExpType(sc, v);
        t.errs + Conform(sc.classes, v, target.value, t.ty)
    case ArrayAssign(x, i, v) => ArrayAssignAsWritten(sc, x, i, v)
  }

  /** `a[i] = v` as written: the target must be defined, the index and the value must be
    * integers; the target's own type is not examined. */
  function ArrayAssignAsWritten(sc: Scope, x: string, i: Expr, v: Expr): seq<Error> {
    if Resolve(sc, x).None? then [UndefinedId(x)]
    else CheckErrs(sc, i, IntType) + CheckErrs(sc, v, IntType)
  }

  /** `a[i] = v` as evidently intended: additionally, a defined target must be an `int[]`. */
  function ArrayAssignErrs(sc: Scope, x: string, i: Expr, v: Expr): seq<Error> {
    var target := Resolve(sc, x);
    if target.None? then [UndefinedId(x)]
    else Conform(sc.classes, IdentifierExp(x), IntArrayType, target.value) + CheckErrs(sc, i, IntType) + CheckErrs(sc, v, IntType)
  }

  /** The statements of a block from position `i` on, in order. */
  function BlockErrs(sc: Scope, s: Stmt, i: nat): seq<Error>
    requires s.Block?
    decreases s, 0, |s.statements| - i
  {
    if i >= |s.statements| then [] else StmtErrs(sc, s.statements[i]) + BlockErrs(sc, s, i + 1)
  }

  // ---------------------------------------------------------------------------------------
  // Properties of the typing rules

  /** `check` against a type is silent exactly when the visit reports nothing and the actual
    * type conforms. */
  lemma CheckIff(sc: Scope, e: Expr, expected: Type)
    ensures CheckErrs(sc, e, expected) == [] <==>
      ExpType(sc, e).errs == [] && Conform(sc.classes, e, expected, ExpType(sc, e).ty) == []
  {
  }

  /** Plus, Minus and Times have type int, and are error-free exactly when both operands are
    * error-free ints. */
  lemma ArithmeticRule(sc: Scope, e: Expr)
    requires e.Plus? || e.Minus? || e.Times?
    ensures ExpType(sc, e).ty == IntType
    ensures ExpType(sc, e).errs == [] <==>
      ExpType(sc, e.e1) == Typed(IntType, []) && ExpType(sc, e.e2) == Typed(IntType, [])
  {
    ConformPrimitive(sc.classes, e.e1, IntType, ExpType(sc, e.e1).ty);
    ConformPrimitive(sc.classes, e.e2, IntType, ExpType(sc, e.e2).ty);
  }

  /** LessThan has type boolean, and is error-free exactly when both operands are error-free
    * ints. */
  lemma LessThanRule(sc: Scope, e1: Expr, e2: Expr)
    ensures ExpType(sc, LessThan(e1, e2)).ty == BoolType
    ensures ExpType(sc, LessThan(e1, e2)).errs == [] <==>
      ExpType(sc, e1) == Typed(IntType, []) && ExpType(sc, e2) == Typed(IntType, [])
  {
    ConformPrimitive(sc.classes, e1, IntType, ExpType(sc, e1).ty);
    ConformPrimitive(sc.classes, e2, IntType, ExpType(sc, e2).ty);
  }

  /** And and Not have type boolean, and are error-free exactly when their operands are
    * error-free booleans. */
  lemma BooleanRules(sc: Scope, e1: Expr, e2: Expr)
    ensures ExpType(sc, And(e1, e2)).ty == BoolType && ExpType(sc, Not(e1)).ty == BoolType
    ensures ExpType(sc, And(e1, e2)).errs == [] <==>
      ExpType(sc, e1) == Typed(BoolType, []) && ExpType(sc, e2) == Typed(BoolType, [])
    ensures ExpType(sc, Not(e1)).errs == [] <==> ExpType(sc, e1) == Typed(BoolType, [])
  {
    ConformPrimitive(sc.classes, e1, BoolType, ExpType(sc, e1).ty);
    ConformPrimitive(sc.classes, e2, BoolType, ExpType(sc, e2).ty);
  }

  /** ArrayLookup and ArrayLength need an `int[]` and have type int. */
  lemma ArrayRules(sc: Scope, a: Expr, i: Expr)
    ensures ExpType(sc, ArrayLookup(a, i)).ty == IntType && ExpType(sc, ArrayLength(a)).ty == IntType
    ensures ExpType(sc, ArrayLookup(a, i)).errs == [] <==>
      ExpType(sc, a) == Typed(IntArrayType, []) && ExpType(sc, i) == Typed(IntType, [])
    ensures ExpType(sc, ArrayLength(a)).errs == [] <==> ExpType(sc, a) == Typed(IntArrayType, [])
  {
    ConformPrimitive(sc.classes, a, IntArrayType, ExpType(sc, a).ty);
    ConformPrimitive(sc.classes, i, IntType, ExpType(sc, i).ty);
  }

  /** NewArray needs an int size and has type `int[]`; NewObject has the named class type and
    * never reports. */
  lemma AllocationRules(sc: Scope, size: Expr, n: string)
    ensures ExpType(sc, NewArray(size)).ty == IntArrayType
    ensures ExpType(sc, NewArray(size)).errs == [] <==> ExpType(sc, size) == Typed(IntType, [])
    ensures ExpType(sc, NewObject(n)) == Typed(ObjectType(n), [])
  {
    ConformPrimitive(sc.classes, size, IntType, ExpType(sc, size).ty);
  }

  /** An identifier has its declared type and reports nothing; an undefined one has the unknown
    * type and reports exactly one undefined-identifier error. */
  lemma IdentifierRule(sc: Scope, x: string)
    ensures Resolve(sc, x).Some? ==> ExpType(sc, IdentifierExp(x)) == Typed(Resolve(sc, x).value, [])
    ensures Resolve(sc, x).None? ==> ExpType(sc, IdentifierExp(x)) == Typed(UnknownType, [UndefinedId(x)])
    ensures ExpType(sc, IdentifierExp(x)).errs == [] <==> Resolve(sc, x).Some?
  {
  }

  /** `lookup` finds a local first, then a formal, then a field of the class; failing those,
    * a field from the nearest class up the chain from `thisSuperClass` that declares it;
    * and it misses exactly when none of these declares the name. */
  lemma ResolveOrder(sc: Scope, x: string)
    ensures sc.locals.Some? && x in sc.locals.value ==> Resolve(sc, x) == Some(sc.locals.value[x])
    ensures (sc.locals.None? || x !in sc.locals.value) && sc.formals.Some? && x in sc.formals.value
      ==> Resolve(sc, x) == Some(sc.formals.value[x])
    ensures Resolve(sc, x).None? <==>
      && (sc.locals.None? || x !in sc.locals.value)
      && (sc.formals.None? || x !in sc.formals.value)
      && (sc.fields.None? || x !in sc.fields.value)
      && forall n :: 0 <= n < |sc.classes| ==> FieldAt(sc.classes, sc.thisSuperClass, n, x).None?
  {
    FieldInNearest(sc.classes, sc.thisSuperClass, x, |sc.classes|);
    if sc.thisSuperClass.None? {
      forall n | 0 <= n < |sc.classes| ensures FieldAt(sc.classes, sc.thisSuperClass, n, x).None? {
        if n > 0 { AncestorNone(sc.classes, n); }
      }
    }
  }

  /** `This` outside any class reports `undefinedId("this")` and has the unknown type; inside
    * a class it has that class's type. */
  lemma ThisRule(sc: Scope)
    ensures sc.thisClass.None? ==> ExpType(sc, This) == Typed(UnknownType, [UndefinedId("this")])
    ensures sc.thisClass.Some? ==> ExpType(sc, This) == Typed(ObjectType(sc.thisClass.value), [])
  {
  }

  /** A call of a method the receiver's class has: its type is the method's return type, and
    * after the receiver's errors come one wrong-argument-count error exactly when the number
    * of arguments differs from the number of formals, then the argument checks. */
  lemma KnownCallRule(sc: Scope, r: Expr, name: string, rands: seq<Expr>)
    requires ExpType(sc, r).ty.ObjectType? && ExpType(sc, r).ty.name in sc.classes
    requires name in sc.classes[ExpType(sc, r).ty.name].methods
    ensures var mt := sc.classes[ExpType(sc, r).ty.name].methods[name];
      var t := ExpType(sc, Call(r, name, rands));
      && t.ty == mt.returnType
      && (|rands| == |mt.formals| ==> t.errs == ExpType(sc, r).errs + ArgErrs(sc, Call(r, name, rands), mt.formals, 0))
      && (|rands| != |mt.formals| ==>
            t.errs == ExpType(sc, r).errs + [WrongNumberOfArguments(|mt.formals|, |rands|)] + ArgErrs(sc, Call(r, name, rands), mt.formals, 0))
  {
  }

  /** Arguments past the last formal are never visited: appending more of them does not change
    * what the argument checks report. */
  lemma {:induction false} ExtraArgumentsIgnored(sc: Scope, r: Expr, name: string, rands: seq<Expr>, extra: seq<Expr>, formals: seq<VarDecl>, i: nat)
    requires |formals| <= |rands|
    ensures ArgErrs(sc, Call(r, name, rands + extra), formals, i) == ArgErrs(sc, Call(r, name, rands), formals, i)
    decreases |rands| - i
  {
    if i < |rands| && i < |formals| {
      assert (rands + extra)[i] == rands[i];
      ExtraArgumentsIgnored(sc, r, name, rands, extra, formals, i + 1);
    }
  }

  /** A call whose receiver is not of a class type has the unknown type and adds no error; a
    * receiver class missing from the table, or a method missing from the class, adds exactly
    * one undefined-identifier error and gives the unknown type. */
  lemma UnknownCallRule(sc: Scope, r: Expr, name: string, rands: seq<Expr>)
    ensures var rt := ExpType(sc, r);
      var t := ExpType(sc, Call(r, name, rands));
      && (!rt.ty.ObjectType? ==> t == Typed(UnknownType, rt.errs))
      && (rt.ty.ObjectType? && rt.ty.name !in sc.classes ==> t == Typed(UnknownType, rt.errs + [UndefinedId(rt.ty.name)]))
      && ((rt.ty.ObjectType? && rt.ty.name in sc.classes && name !in sc.classes[rt.ty.name].methods)
            ==> t == Typed(UnknownType, rt.errs + [UndefinedId(name)]))
  {
  }

  /** Print accepts an error-free int or boolean and nothing else; anything else adds exactly
    * one type error listing both accepted types. */
  lemma PrintRule(sc: Scope, e: Expr)
    ensures StmtErrs(sc, Print(e)) == [] <==>
      ExpType(sc, e).errs == [] && (ExpType(sc, e).ty == IntType || ExpType(sc, e).ty == BoolType)
    ensures ExpType(sc, e).ty != IntType && ExpType(sc, e).ty != BoolType ==>
      StmtErrs(sc, Print(e)) == ExpType(sc, e).errs + [TypeError(e, [IntType, BoolType], ExpType(sc, e).ty)]
  {
  }

  /** Assigning to an undefined name reports only that name, whatever the value; otherwise the
    * value must conform to the variable's declared type. */
  lemma AssignRule(sc: Scope, x: string, v: Expr)
    ensures Resolve(sc, x).None? ==> StmtErrs(sc, Assign(x, v)) == [UndefinedId(x)]
    ensures Resolve(sc, x).Some? ==>
      (StmtErrs(sc, Assign(x, v)) == [] <==>
        ExpType(sc, v).errs == [] && Conform(sc.classes, v, Resolve(sc, x).value, ExpType(sc, v).ty) == [])
  {
  }

  /** As written, `x[0] = 1` with `x` a local `int` reports nothing, where the corrected rule
    * reports the target. */
  lemma ArrayAssignAcceptsNonArray(classes: Classes)
    ensures var sc := Scope(classes, None, None, None, None, Some(map["x" := IntType]));
      && StmtErrs(sc, ArrayAssign("x", IntegerLiteral(0), IntegerLiteral(1))) == []
      && ArrayAssignErrs(sc, "x", IntegerLiteral(0), IntegerLiteral(1))
           == [TypeError(IdentifierExp("x"), [IntArrayType], IntType)]
  {
  }

  /** As written, an array assignment is error-free exactly when its target is defined, whatever
    * the target's type, and the index and the value are error-free ints. */
  lemma ArrayAssignAsWrittenRule(sc: Scope, x: string, i: Expr, v: Expr)
    ensures StmtErrs(sc, ArrayAssign(x, i, v)) == [] <==>
      && Resolve(sc, x).Some?
      && ExpType(sc, i) == Typed(IntType, []) && ExpType(sc, v) == Typed(IntType, [])
    ensures Resolve(sc, x).None? ==> StmtErrs(sc, ArrayAssign(x, i, v)) == [UndefinedId(x)]
  {
    ConformPrimitive(sc.classes, i, IntType, ExpType(sc, i).ty);
    ConformPrimitive(sc.classes, v, IntType, ExpType(sc, v).ty);
  }

  /** As intended, an error-free array assignment targets an `int[]` variable, with an integer
    * index and value. */
  lemma ArrayAssignRule(sc: Scope, x: string, i: Expr, v: Expr)
    ensures ArrayAssignErrs(sc, x, i, v) == [] <==>
      && Resolve(sc, x) == Some(IntArrayType)
      && ExpType(sc, i) == Typed(IntType, []) && ExpType(sc, v) == Typed(IntType, [])
  {
    if Resolve(sc, x).Some? {
      ConformPrimitive(sc.classes, IdentifierExp(x), IntArrayType, Resolve(sc, x).value);
    }
    ConformPrimitive(sc.classes, i, IntType, ExpType(sc, i).ty);
    ConformPrimitive(sc.classes, v, IntType, ExpType(sc, v).ty);
  }

  /** The correction differs from the code only on a defined target that is not an `int[]`:
    * there it reports one type error on the target before the code's own errors. */
  lemma ArrayAssignCorrection(sc: Scope, x: string, i: Expr, v: Expr)
    ensures Resolve(sc, x).None? || Resolve(sc, x) == Some(IntArrayType) ==>
      ArrayAssignErrs(sc, x, i, v) == ArrayAssignAsWritten(sc, x, i, v)
    ensures Resolve(sc, x).Some? && Resolve(sc, x) != Some(IntArrayType) ==>
      ArrayAssignErrs(sc, x, i, v)
        == [TypeError(IdentifierExp(x), [IntArrayType], Resolve(sc, x).value)] + ArrayAssignAsWritten(sc, x, i, v)
  {
    if Resolve(sc, x).Some? {
      ConformPrimitive(sc.classes, IdentifierExp(x), IntArrayType, Resolve(sc, x).value);
    }
  }

  /** A conditional has the type of its second operand; it is error-free exactly when the test
    * is an error-free boolean, both branches are error-free, and the third operand's type
    * conforms to the second's. */
  lemma ConditionalRule(sc: Scope, c1: Expr, c2: Expr, c3: Expr)
    ensures var e := Conditional(c1, c2, c3);
      && ExpType(sc, e).ty == ExpType(sc, c2).ty
      && (ExpType(sc, e).errs == [] <==>
            && ExpType(sc, c1) == Typed(BoolType, [])
            && ExpType(sc, c2).errs == [] && ExpType(sc, c3).errs == []
            && Conform(sc.classes, e, ExpType(sc, c2).ty, ExpType(sc, c3).ty) == [])
  {
    ConformPrimitive(sc.classes, c1, BoolType, ExpType(sc, c1).ty);
  }

  /** A block reports what its statements report, in order. */
  lemma {:induction false} BlockIsConcatenation(sc: Scope, ss: seq<Stmt>, i: nat)
    requires i <= |ss|
    ensures BlockErrs(sc, Block(ss), i) == StmtsErrs(sc, ss[i..])
    decreases |ss| - i
  {
    if i < |ss| {
      BlockIsConcatenation(sc, ss, i + 1);
      assert ss[i..] == [ss[i]] + ss[i + 1..];
    } else {
      assert ss[i..] == [];
    }
  }

  /** The errors of a list of statements, each visited in turn. */
  function StmtsErrs(sc: Scope, ss: seq<Stmt>): seq<Error>
    decreases |ss|
  {
    if ss == [] then [] else StmtErrs(sc, ss[0]) + StmtsErrs(sc, ss[1..])
  }

  // ---------------------------------------------------------------------------------------
  // Declarations

  /** A method body: statements, then the return expression against the return type, with the
    * method's formal and local tables in scope. */
  function MethodErrs(sc: Scope, m: MethodDecl, mt: MethodType): seq<Error> {
    var inner := sc.(formals := Some(mt.params), locals := Some(mt.locals));
    StmtErrs(inner, Block(m.statements)) + CheckErrs(inner, m.returnExp, m.returnType)
  }

  /** The methods of a class, each with its recorded entry, in order. */
  function MethodsErrs(sc: Scope, ms: seq<MethodDecl>, mts: seq<MethodType>): seq<Error>
    requires |ms| == |mts|
    decreases |ms|
  {
    if ms == [] then [] else MethodErrs(sc, ms[0], mts[0]) + MethodsErrs(sc, ms[1..], mts[1..])
  }

  /** What phase 2 carries from one class to the next: the report and `thisSuperClass`, which
    * is set by a class whose superclass is defined and never cleared. */
  datatype Phase2 = Phase2(errors: seq<Error>, superClass: Option<string>)

  /** Entering a class: a superclass its entry names but the table lacks is reported under the
    * declared name; a defined one becomes `thisSuperClass`. */
  function EnterCheck(classes: Classes, st: Phase2, c: ClassDecl, info: ClassType): Phase2 {
    if c.superName.None? then st
    else if info.superClass.None? || info.superClass.value !in classes then Phase2(st.errors + [UndefinedId(c.superName.value)], st.superClass)
    else Phase2(st.errors, c.superName)
  }

  /** Checking one class: its methods see the class's own field table and the current
    * `thisSuperClass`. */
  function CheckClass(classes: Classes, st: Phase2, c: ClassDecl, annot: ClassAnnot): Phase2
    requires |annot.methodTypes| == |c.methods|
  {
    var s := EnterCheck(classes, st, c, annot.info);
    var sc := Scope(classes, Some(c.name), s.superClass, Some(annot.info.fields), None, None);
    Phase2(s.errors + MethodsErrs(sc, c.methods, annot.methodTypes), s.superClass)
  }

  /** Every class declaration comes with one recorded entry per method. */
  predicate Annotated(cs: seq<ClassDecl>, annots: seq<ClassAnnot>) {
    |cs| == |annots| && forall i :: 0 <= i < |cs| ==> |annots[i].methodTypes| == |cs[i].methods|
  }

  function CheckClasses(classes: Classes, st: Phase2, cs: seq<ClassDecl>, annots: seq<ClassAnnot>): Phase2
    requires Annotated(cs, annots)
    decreases |cs|
  {
    if cs == [] then st else CheckClasses(classes, CheckClass(classes, st, cs[0], annots[0]), cs[1..], annots[1..])
  }

  /** The main class: its statement sees `this` as the main class and no fields. */
  function CheckMain(classes: Classes, st: Phase2, mc: MainClass): Phase2 {
    var sc := Scope(classes, Some(mc.className), st.superClass, None, None, None);
    Phase2(st.errors + StmtErrs(sc, mc.statement), st.superClass)
  }

  /** The whole program: the main class, then the classes. */
  function CheckProgram(classes: Classes, st: Phase2, p: Program, annots: seq<ClassAnnot>): Phase2
    requires Annotated(p.classes, annots)
  {
    CheckClasses(classes, CheckMain(classes, st, p.mainClass), p.classes, annots)
  }

  /** The methods from position i on are method i, then the methods after it. */
  lemma MethodsErrsStep(sc: Scope, ms: seq<MethodDecl>, mts: seq<MethodType>, i: nat)
    requires |ms| == |mts| && i < |ms|
    ensures MethodsErrs(sc, ms[i..], mts[i..]) == MethodErrs(sc, ms[i], mts[i]) + MethodsErrs(sc, ms[i + 1..], mts[i + 1..])
  {
    assert ms[i..][1..] == ms[i + 1..] && mts[i..][1..] == mts[i + 1..];
  }

  /** Checking classes one more declaration at a time. */
  lemma {:induction false} CheckClassesPrefix(classes: Classes, st: Phase2, cs: seq<ClassDecl>, annots: seq<ClassAnnot>, i: nat)
    requires Annotated(cs, annots) && i < |cs|
    ensures Annotated(cs[..i], annots[..i]) && Annotated(cs[..i + 1], annots[..i + 1])
    ensures CheckClasses(classes, st, cs[..i + 1], annots[..i + 1])
      == CheckClass(classes, CheckClasses(classes, st, cs[..i], annots[..i]), cs[i], annots[i])
    decreases i
  {
    if i > 0 {
      var s := CheckClass(classes, st, cs[0], annots[0]);
      CheckClassesPrefix(classes, s, cs[1..], annots[1..], i - 1);
      assert cs[1..][..i - 1] == cs[..i][1..] && cs[1..][..i] == cs[..i + 1][1..];
      assert annots[1..][..i - 1] == annots[..i][1..] && annots[1..][..i] == annots[..i + 1][1..];
    } else {
      assert cs[..1][1..] == [] && annots[..1][1..] == [];
    }
  }

  /** The `thisSuperClass` of one class stays current for the next: in `class A { int f; }`,
    * `class B extends A { }` and `class C { int m() { return f; } }`, the `f` in C resolves to
    * A's field, so C is accepted. */
  lemma SuperClassCarriesOverToLookup()
    ensures var ctA := ClassType(Some("A"), None, map["f" := IntType], map[]);
      var ctB := ClassType(Some("B"), Some("A"), map["f" := IntType], map[]);
      var mt := MethodType(map[], map[], [], IntType);
      var ctC := ClassType(Some("C"), None, map[], map["m" := mt]);
      var classes := map["A" := ctA, "B" := ctB, "C" := ctC];
      var m := MethodDecl(IntType, "m", [], [], [], IdentifierExp("f"));
      var b := ClassDecl("B", Some("A"), [], []);
      var c := ClassDecl("C", None, [], [m]);
      CheckClasses(classes, Phase2([], None), [b, c], [ClassAnnot(ctB, []), ClassAnnot(ctC, [mt])]) == Phase2([], Some("A"))
  {
    var ctA := ClassType(Some("A"), None, map["f" := IntType], map[]);
    var ctB := ClassType(Some("B"), Some("A"), map["f" := IntType], map[]);
    var mt := MethodType(map[], map[], [], IntType);
    var ctC := ClassType(Some("C"), None, map[], map["m" := mt]);
    var classes := map["A" := ctA, "B" := ctB, "C" := ctC];
    var m := MethodDecl(IntType, "m", [], [], [], IdentifierExp("f"));
    var b := ClassDecl("B", Some("A"), [], []);
    var c := ClassDecl("C", None, [], [m]);
    var s1 := CheckClass(classes, Phase2([], None), b, ClassAnnot(ctB, []));
    assert EnterCheck(classes, Phase2([], None), b, ctB) == Phase2([], Some("A"));
    assert s1 == Phase2([], Some("A"));
    var outer := Scope(classes, Some("C"), Some("A"), Some(map[]), None, None);
    var inner := Scope(classes, Some("C"), Some("A"), Some(map[]), Some(map[]), Some(map[]));
    FieldInDirect(classes, "A", "f");
    assert Resolve(inner, "f") == Some(IntType);
    assert ExpType(inner, IdentifierExp("f")) == Typed(IntType, []);
    assert StmtErrs(inner, Block([])) == [];
    assert MethodErrs(outer, m, mt) == [];
    assert MethodsErrs(outer, [m], [mt]) == [];
    assert EnterCheck(classes, s1, c, ctC) == s1;
    var s2 := CheckClass(classes, s1, c, ClassAnnot(ctC, [mt]));
    assert s2 == Phase2([], Some("A"));
    var annots := [ClassAnnot(ctB, []), ClassAnnot(ctC, [mt])];
    assert [b, c][1..] == [c] && annots[1..] == [ClassAnnot(ctC, [mt])];
    assert CheckClasses(classes, s1, [c], [ClassAnnot(ctC, [mt])]) == CheckClasses(classes, s2, [], []);
    assert CheckClasses(classes, Phase2([], None), [b, c], annots) == CheckClasses(classes, s1, [c], [ClassAnnot(ctC, [mt])]);
  }

  /** A field the class itself declares is found at once. */
  lemma FieldInDirect(classes: Classes, k: string, x: string)
    requires k in classes && x in classes[k].fields
    ensures FieldIn(classes, Some(k), x, |classes|) == Some(classes[k].fields[x])
  {
    assert |classes| > 0 by {
      assert classes != map[];
    }
  }


  // The three associativity lemmas below are hints for the solver at the visitor's call
  // sites; none of them states anything about the checker.

  /** Appending two reports one after the other is appending their concatenation. */
  lemma AppendAssoc(s: seq<Error>, a: seq<Error>, b: seq<Error>)
    ensures s + a + b == s + (a + b)
  {
  }

  /** Appending three reports one after another is appending their concatenation. */
  lemma AppendAssoc3(s: seq<Error>, a: seq<Error>, b: seq<Error>, c: seq<Error>)
    ensures s + a + b + c == s + (a + b + c)
  {
  }

  /** The same for four reports. */
  lemma AppendAssoc4(s: seq<Error>, a: seq<Error>, b: seq<Error>, c: seq<Error>, d: seq<Error>)
    ensures s + a + b + c + d == s + (a + b + c + d)
  {
  }

  // ---------------------------------------------------------------------------------------
  // The phase-2 visitor

  class TypeChecker {
    const main: Classes
    const classes: Classes
    var errors: seq<Error>
    var thisClass: Option<string>
    var thisSuperClass: Option<string>
    var thisFields: Option<map<string, Type>>
    var thisMethods: Option<map<string, MethodType>>
    var thisSuperFields: Option<map<string, Type>>
    var thisSuperMethods: Option<map<string, MethodType>>
    var thisFormals: Option<map<string, Type>>
    var thisLocals: Option<map<string, Type>>

    /** What the typing rules see of the visitor. */
    function CurrentScope(): Scope
      reads this`thisClass, this`thisSuperClass, this`thisFields, this`thisFormals, this`thisLocals
    {
      Scope(classes, thisClass, thisSuperClass, thisFields, thisFormals, thisLocals)
    }

    /** The state carried between classes. */
    function State(): Phase2
      reads this`errors, this`thisSuperClass
    {
      Phase2(errors, thisSuperClass)
    }

    /** No class or method is being visited. */
    predicate Idle()
      reads this`thisClass, this`thisFields, this`thisMethods, this`thisSuperFields, this`thisSuperMethods, this`thisFormals, this`thisLocals
    {
      thisClass.None? && thisFields.None? && thisMethods.None? && thisSuperFields.None? && thisSuperMethods.None?
      && thisFormals.None? && thisLocals.None?
    }

    constructor (mainTable: Classes, classTable: Classes)
      ensures main == mainTable && classes == classTable
      ensures State() == Phase2([], None) && Idle()
    {
      main := mainTable;
      classes := classTable;
      errors := [];
      thisClass := None;
      thisSuperClass := None;
      thisFields := None;
      thisMethods := None;
      thisSuperFields := None;
      thisSuperMethods := None;
      thisFormals := None;
      thisLocals := None;
    }

    /** `lookup`: the scope tables in order, then a walk up the superclass chain; a miss is
      * reported. */
    method Lookup(x: string) returns (t: Option<Type>)
      requires Acyclic(classes)
      modifies this`errors
      ensures t == Resolve(CurrentScope(), x)
      ensures errors == old(errors) + (if t.None? then [UndefinedId(x)] else [])
    {
      if thisLocals.Some? && x in thisLocals.value {
        return Some(thisLocals.value[x]);
      }
      if thisFormals.Some? && x in thisFormals.value {
        return Some(thisFormals.value[x]);
      }
      if thisFields.Some? && x in thisFields.value {
        return Some(thisFields.value[x]);
      }
      if thisSuperClass.Some? {
        var superType := Get(classes, thisSuperClass.value);
        ghost var cur := thisSuperClass;
        ghost var fuel: nat := |classes|;
        AcyclicEnds(classes, cur);
        while superType.Some?
          invariant cur.Some? && superType == Get(classes, cur.value)
          invariant EndsWithin(classes, cur, fuel)
          invariant FieldIn(classes, cur, x, fuel) == FieldIn(classes, thisSuperClass, x, |classes|)
          decreases fuel
        {
          var ct := superType.value;
          if x in ct.fields {
            return Some(ct.fields[x]);
          }
          var nextSuper := ct.superClass;
          if nextSuper.Some? {
            superType := Get(classes, nextSuper.value);
          } else {
            break;
          }
          cur := nextSuper;
          fuel := fuel - 1;
        }
      }
      errors := errors + [UndefinedId(x)];
      return None;
    }

    /** Both `check` overloads once the actual type is known: the walk from the actual type's
      * class looking for the expected name, then the equality test. */
    method Compare(e: Expr, expected: Type, actual: Type)
      requires Acyclic(classes)
      modifies this`errors
      ensures errors == old(errors) + Conform(classes, e, expected, actual)
    {
      if expected.ObjectType? && actual.ObjectType? {
        var classType := Get(classes, actual.name);
        ghost var cur: Option<string> := Some(actual.name);
        ghost var fuel: nat := |classes|;
        AcyclicEnds(classes, cur);
        while classType.Some?
          invariant cur.Some? && classType == Get(classes, cur.value)
          invariant EndsWithin(classes, cur, fuel)
          invariant Reaches(classes, cur, expected.name, fuel) == Reaches(classes, Some(actual.name), expected.name, |classes|)
          decreases fuel
        {
          if classType.value.name == Some(expected.name) {
            return;
          }
          var sup := classType.value.superClass;
          classType := if sup.Some? then Get(classes, sup.value) else None;
          if sup.None? {
            break;
          }
          cur := sup;
          fuel := fuel - 1;
        }
      }
      if expected != actual {
        errors := errors + [TypeError(e, [expected], actual)];
      }
    }

    /** `check(exp, expected)`. */
    method Check(e: Expr, expected: Type)
      requires Acyclic(classes)
      modifies this`errors
      ensures errors == old(errors) + CheckErrs(CurrentScope(), e, expected)
      decreases e, 2
    {
      var actual := VisitExp(e);
      Compare(e, expected, actual);
    }

    /** The expression `visit` rules. */
    method VisitExp(e: Expr) returns (t: Type)
      requires Acyclic(classes)
      modifies this`errors
      ensures t == ExpType(CurrentScope(), e).ty
      ensures errors == old(errors) + ExpType(CurrentScope(), e).errs
      decreases e, 1
    {
      match e {
        case And(_, _) =>
          VisitOperands(e, BoolType);
          t := BoolType;
        case LessThan(_, _) =>
          VisitOperands(e, IntType);
          t := BoolType;
        case Plus(_, _) =>
          VisitOperands(e, IntType);
          t := IntType;
        case Minus(_, _) =>
          VisitOperands(e, IntType);
          t := IntType;
        case Times(_, _) =>
          VisitOperands(e, IntType);
          t := IntType;
        case ArrayLookup(a, i) =>
          Check(a, IntArrayType);
          Check(i, IntType);
          t := IntType;
        case ArrayLength(a) =>
          Check(a, IntArrayType);
          t := IntType;
        case Call(_, _, _) =>
          t := VisitCall(e);
        case IntegerLiteral(_) =>
          t := IntType;
        case BooleanLiteral(_) =>
          t := BoolType;
        case IdentifierExp(x) =>
          var found := Lookup(x);
          t := if found.None? then UnknownType else found.value;
        case This =>
          if thisClass.None? {
            errors := errors + [UndefinedId("this")];
            t := UnknownType;
          } else {
            t := ObjectType(thisClass.value);
          }
        case NewArray(size) =>
          Check(size, IntType);
          t := IntArrayType;
        case NewObject(n) =>
          t := ObjectType(n);
        case Not(e1) =>
          Check(e1, BoolType);
          t := BoolType;
        case Conditional(_, _, _) =>
          t := VisitConditional(e);
      }
    }

    /** The two operands of a binary operator, each checked against the operand type. */
    method VisitOperands(e: Expr, operand: Type)
      requires (e.And? || e.LessThan? || e.Plus? || e.Minus? || e.Times?) && Acyclic(classes)
      modifies this`errors
      ensures errors == old(errors) + (CheckErrs(CurrentScope(), e.e1, operand) + CheckErrs(CurrentScope(), e.e2, operand))
      decreases e, 0
    {
      Check(e.e1, operand);
      Check(e.e2, operand);
    }

    /** `visit(Conditional)`: the test must be a boolean; the third operand is compared with the
      * second, whose type is the result. */
    method VisitConditional(e: Expr) returns (t: Type)
      requires e.Conditional? && Acyclic(classes)
      modifies this`errors
      ensures t == ExpType(CurrentScope(), e).ty
      ensures errors == old(errors) + ExpType(CurrentScope(), e).errs
      decreases e, 0
    {
      ghost var sc := CurrentScope();
      Check(e.c1, BoolType);
      var t2 := VisitExp(e.c2);
      var t3 := VisitExp(e.c3);
      Compare(e, t2, t3);
      t := t2;
      AppendAssoc4(old(errors), CheckErrs(sc, e.c1, BoolType), ExpType(sc, e.c2).errs, ExpType(sc, e.c3).errs,
        Conform(classes, e, t2, t3));
      assert ExpType(sc, e).errs == CheckErrs(sc, e.c1, BoolType) + ExpType(sc, e.c2).errs + ExpType(sc, e.c3).errs
        + Conform(classes, e, t2, t3);
    }

    /** `visit(Call)`: the receiver, then the method's entry from the receiver's class, the
      * argument count, and the arguments. */
    method VisitCall(e: Expr) returns (t: Type)
      requires e.Call? && Acyclic(classes)
      modifies this`errors
      ensures t == ExpType(CurrentScope(), e).ty
      ensures errors == old(errors) + ExpType(CurrentScope(), e).errs
      decreases e, 0
    {
      ghost var sc := CurrentScope();
      var receiver := VisitExp(e.receiver);
      if receiver.ObjectType? {
        var classType := Get(classes, receiver.name);
        if classType.Some? {
          var methodType := Get(classType.value.methods, e.name);
          if methodType.Some? {
            var mt := methodType.value;
            ghost var arity := if |e.rands| != |mt.formals| then [WrongNumberOfArguments(|mt.formals|, |e.rands|)] else [];
            if |e.rands| != |mt.formals| {
              errors := errors + [WrongNumberOfArguments(|mt.formals|, |e.rands|)];
            }
            assert errors == old(errors) + ExpType(sc, e.receiver).errs + arity;
            VisitArguments(e, mt.formals);
            AppendAssoc3(old(errors), ExpType(sc, e.receiver).errs, arity, ArgErrs(sc, e, mt.formals, 0));
            assert ExpType(sc, e).errs == ExpType(sc, e.receiver).errs + arity + ArgErrs(sc, e, mt.formals, 0);
            return mt.returnType;
          } else {
            errors := errors + [UndefinedId(e.name)];
          }
        } else {
          errors := errors + [UndefinedId(receiver.name)];
        }
      }
      t := UnknownType;
    }

    /** The arguments of a call, each checked against its formal's type; the loop runs over all
      * arguments but checks only those that have a formal. */
    method VisitArguments(e: Expr, formals: seq<VarDecl>)
      requires e.Call? && Acyclic(classes)
      modifies this`errors
      ensures errors == old(errors) + ArgErrs(CurrentScope(), e, formals, 0)
      decreases e, 0, 0
    {
      for i := 0 to |e.rands|
        invariant old(errors) + ArgErrs(CurrentScope(), e, formals, 0) == errors + ArgErrs(CurrentScope(), e, formals, i)
      {
        if i < |formals| {
          ghost var mid := errors;
          Check(e.rands[i], formals[i].ty);
          AppendAssoc(mid, CheckErrs(CurrentScope(), e.rands[i], formals[i].ty), ArgErrs(CurrentScope(), e, formals, i + 1));
        }
      }
      assert ArgErrs(CurrentScope(), e, formals, |e.rands|) == [];
    }

    /** The statement `visit` rules. */
    method VisitStmt(s: Stmt)
      requires Acyclic(classes)
      modifies this`errors
      ensures errors == old(errors) + StmtErrs(CurrentScope(), s)
      decreases s, 1
    {
      match s {
        case Block(_) =>
          VisitBlock(s);
        case If(tst, thn, els) =>
          Check(tst, BoolType);
          VisitStmt(thn);
          VisitStmt(els);
        case While(tst, body) =>
          Check(tst, BoolType);
          VisitStmt(body);
        case Print(e) =>
          VisitPrint(e);
        case Assign(x, v) =>
          VisitAssign(x, v);
        case ArrayAssign(x, i, v) =>
          VisitArrayAssign(x, i, v);
      }
    }

    /** `visit(Block)`: the statements in order. */
    method VisitBlock(s: Stmt)
      requires s.Block? && Acyclic(classes)
      modifies this`errors
      ensures errors == old(errors) + BlockErrs(CurrentScope(), s, 0)
      decreases s, 0
    {
      for i := 0 to |s.statements|
        invariant old(errors) + BlockErrs(CurrentScope(), s, 0) == errors + BlockErrs(CurrentScope(), s, i)
      {
        ghost var mid := errors;
        VisitStmt(s.statements[i]);
        AppendAssoc(mid, StmtErrs(CurrentScope(), s.statements[i]), BlockErrs(CurrentScope(), s, i + 1));
      }
      assert BlockErrs(CurrentScope(), s, |s.statements|) == [];
    }

    /** `visit(Print)`: the argument must be an int or a boolean. */
    method VisitPrint(e: Expr)
      requires Acyclic(classes)
      modifies this`errors
      ensures errors == old(errors) + StmtErrs(CurrentScope(), Print(e))
    {
      var actual := VisitExp(e);
      if actual != IntType && actual != BoolType {
        errors := errors + [TypeError(e, [IntType, BoolType], actual)];
      }
    }

    /** `visit(Assign)`: the target is looked up; only a defined target has its value visited and
      * compared with the target's type. */
    method VisitAssign(x: string, v: Expr)
      requires Acyclic(classes)
      modifies this`errors
      ensures errors == old(errors) + StmtErrs(CurrentScope(), Assign(x, v))
    {
      var toAssign := Lookup(x);
      if toAssign.Some? {
        var actual := VisitExp(v);
        Compare(v, toAssign.value, actual);
      }
    }

    /** `visit(ArrayAssign)`: the target is looked up; for a defined target the index and the
      * value must be ints, and the target's own type is not examined. */
    method VisitArrayAssign(x: string, i: Expr, v: Expr)
      requires Acyclic(classes)
      modifies this`errors
      ensures errors == old(errors) + ArrayAssignAsWritten(CurrentScope(), x, i, v)
    {
      var arrayType := Lookup(x);
      if arrayType.Some? {
        VisitArrayChecks(i, v);
      }
    }

    /** The checks of an array assignment whose target is defined: the index and the value
      * must be ints. */
    method VisitArrayChecks(i: Expr, v: Expr)
      requires Acyclic(classes)
      modifies this`errors
      ensures errors == old(errors) + (CheckErrs(CurrentScope(), i, IntType) + CheckErrs(CurrentScope(), v, IntType))
    {
      ghost var sc := CurrentScope();
      Check(i, IntType);
      Check(v, IntType);
      AppendAssoc(old(errors), CheckErrs(sc, i, IntType), CheckErrs(sc, v, IntType));
    }

    /** `visit(MethodDecl)`: the method's formal and local tables are in scope for its body and
      * return expression, and closed afterwards. */
    method VisitMethodDecl(m: MethodDecl, mt: MethodType)
      requires Acyclic(classes)
      modifies this`errors, this`thisFormals, this`thisLocals
      ensures thisFormals.None? && thisLocals.None?
      ensures errors == old(errors) + MethodErrs(old(CurrentScope()), m, mt)
    {
      ghost var e0 := errors;
      thisFormals := Some(mt.params);
      thisLocals := Some(mt.locals);
      ghost var inner := CurrentScope();
      assert inner == old(CurrentScope()).(formals := Some(mt.params), locals := Some(mt.locals));
      VisitStmt(Block(m.statements));
      Check(m.returnExp, m.returnType);
      AppendAssoc(e0, StmtErrs(inner, Block(m.statements)), CheckErrs(inner, m.returnExp, m.returnType));
      thisFormals := None;
      thisLocals := None;
    }

    /** `visit(ClassDecl)`: the class's field table is in scope, the superclass is looked up,
      * the methods are checked, and the class scope is closed; `thisSuperClass` stays. */
    method VisitClassDecl(c: ClassDecl, annot: ClassAnnot)
      requires Acyclic(classes) && Idle() && |annot.methodTypes| == |c.methods|
      modifies this`errors, this`thisClass, this`thisSuperClass, this`thisFields, this`thisMethods,
        this`thisSuperFields, this`thisSuperMethods, this`thisFormals, this`thisLocals
      ensures Idle()
      ensures State() == CheckClass(classes, old(State()), c, annot)
    {
      ghost var st0 := State();
      EnterClass(c, annot);
      ghost var s := State();
      ghost var sc := CurrentScope();
      assert sc == Scope(classes, Some(c.name), s.superClass, Some(annot.info.fields), None, None);
      VisitMethodDecls(c.methods, annot.methodTypes);
      assert State() == Phase2(s.errors + MethodsErrs(sc, c.methods, annot.methodTypes), s.superClass);
      ExitClass();
    }

    /** Opening a class scope: its field and method tables, and the superclass lookup. */
    method EnterClass(c: ClassDecl, annot: ClassAnnot)
      requires Idle()
      modifies this`errors, this`thisClass, this`thisSuperClass, this`thisFields, this`thisMethods,
        this`thisSuperFields, this`thisSuperMethods
      ensures State() == EnterCheck(classes, old(State()), c, annot.info)
      ensures thisClass == Some(c.name) && thisFields == Some(annot.info.fields) && thisMethods == Some(annot.info.methods)
    {
      thisClass := Some(c.name);
      thisFields := Some(annot.info.fields);
      thisMethods := Some(annot.info.methods);
      if c.superName.Some? {
        var superClass := if annot.info.superClass.Some? then Get(classes, annot.info.superClass.value) else None;
        if superClass.None? {
          errors := errors + [UndefinedId(c.superName.value)];
        } else {
          thisSuperClass := c.superName;
          thisSuperFields := Some(superClass.value.fields);
          thisSuperMethods := Some(superClass.value.methods);
        }
      }
    }

    /** Closing a class scope; `thisSuperClass` is left as it is. */
    method ExitClass()
      requires thisFormals.None? && thisLocals.None?
      modifies this`thisClass, this`thisFields, this`thisMethods, this`thisSuperFields, this`thisSuperMethods
      ensures Idle()
    {
      thisClass := None;
      thisFields := None;
      thisMethods := None;
      thisSuperFields := None;
      thisSuperMethods := None;
    }

    /** The methods of a class, each with its recorded entry, in order. */
    method VisitMethodDecls(ms: seq<MethodDecl>, mts: seq<MethodType>)
      requires Acyclic(classes) && |ms| == |mts| && thisFormals.None? && thisLocals.None?
      modifies this`errors, this`thisFormals, this`thisLocals
      ensures thisFormals.None? && thisLocals.None?
      ensures errors == old(errors) + MethodsErrs(old(CurrentScope()), ms, mts)
    {
      ghost var sc := CurrentScope();
      for i := 0 to |ms|
        invariant thisFormals.None? && thisLocals.None? && CurrentScope() == sc
        invariant old(errors) + MethodsErrs(sc, ms, mts) == errors + MethodsErrs(sc, ms[i..], mts[i..])
      {
        ghost var mid := errors;
        VisitMethodDecl(ms[i], mts[i]);
        MethodsErrsStep(sc, ms, mts, i);
        AppendAssoc(mid, MethodErrs(sc, ms[i], mts[i]), MethodsErrs(sc, ms[i + 1..], mts[i + 1..]));
      }
      assert ms[|ms|..] == [];
    }

    /** `visit(MainClass)`: the statement is checked with `this` naming the main class. */
    method VisitMainClass(mc: MainClass)
      requires Acyclic(classes) && Idle()
      modifies this`errors, this`thisClass
      ensures Idle()
      ensures State() == CheckMain(classes, old(State()), mc)
    {
      thisClass := Some(mc.className);
      VisitStmt(mc.statement);
      thisClass := None;
    }

    /** `visit(Program)`: the main class, then the classes, each with what phase 1 recorded
      * on it. */
    method VisitProgram(p: Program, annots: seq<ClassAnnot>)
      requires Acyclic(classes) && Idle() && Annotated(p.classes, annots)
      modifies this`errors, this`thisClass, this`thisSuperClass, this`thisFields, this`thisMethods,
        this`thisSuperFields, this`thisSuperMethods, this`thisFormals, this`thisLocals
      ensures Idle()
      ensures State() == CheckProgram(classes, old(State()), p, annots)
    {
      VisitMainClass(p.mainClass);
      VisitClassDecls(p.classes, annots);
    }

    /** The class declarations, in order. */
    method VisitClassDecls(cs: seq<ClassDecl>, annots: seq<ClassAnnot>)
      requires Acyclic(classes) && Idle() && Annotated(cs, annots)
      modifies this`errors, this`thisClass, this`thisSuperClass, this`thisFields, this`thisMethods,
        this`thisSuperFields, this`thisSuperMethods, this`thisFormals, this`thisLocals
      ensures Idle()
      ensures State() == CheckClasses(classes, old(State()), cs, annots)
    {
      for i := 0 to |cs|
        invariant Idle() && Annotated(cs[..i], annots[..i])
        invariant State() == CheckClasses(classes, old(State()), cs[..i], annots[..i])
      {
        CheckClassesPrefix(classes, old(State()), cs, annots, i);
        VisitClassDecl(cs[i], annots[i]);
      }
      assert cs[..|cs|] == cs && annots[..|annots|] == annots;
    }
  }
}
