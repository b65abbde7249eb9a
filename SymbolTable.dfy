/**
 * Phase 1 of the MiniJava checker (`BuildSymbolTableVisitor`): builds the main-class table, the
 * class table with each class's fields and methods, and each method's formal and local tables,
 * reporting duplicate definitions and undefined superclasses.
 */
module SymbolTable {
  import opened Util
  import opened Ast

  /** A table together with the error report after one or more definitions. */
  datatype Defined<V> = Defined(table: map<string, V>, errors: seq<Error>)

  /** `def`: binds a name that is new; a name already bound keeps its old binding and is
    * reported as a duplicate definition. */
  function Def<V>(tab: map<string, V>, errors: seq<Error>, name: string, v: V): (r: Defined<V>)
    ensures r.table.Keys == tab.Keys + {name}
    ensures forall k :: k in tab ==> r.table[k] == tab[k]
    ensures name !in tab ==> r.table[name] == v
    ensures r.errors == errors + (if name in tab then [DuplicateDefinition(name)] else [])
  {
    if name in tab then Defined(tab, errors + [DuplicateDefinition(name)]) else Defined(tab[name := v], errors)
  }

  /** `override`: binds the name to the new value whether or not it was bound, reporting nothing. */
  function Override<V>(tab: map<string, V>, name: string, v: V): (r: map<string, V>)
    ensures r.Keys == tab.Keys + {name}
    ensures r[name] == v
    ensures forall k :: k in tab && k != name ==> r[k] == tab[k]
  {
    tab[name := v]
  }

  /** The names a list of declarations declares. */
  function Names(vs: seq<VarDecl>): set<string> {
    set v | v in vs :: v.name
  }

  /** No name is declared twice in the list. */
  predicate DistinctNames(vs: seq<VarDecl>) {
    forall i, j :: 0 <= i < j < |vs| ==> vs[i].name != vs[j].name
  }

  /** Visiting a list of declarations that all go to one table: `def` each, in order. */
  function DefVars(tab: map<string, Type>, errors: seq<Error>, vs: seq<VarDecl>): Defined<Type>
    decreases |vs|
  {
    if vs == [] then Defined(tab, errors)
    else
      var d := Def(tab, errors, vs[0].name, vs[0].ty);
      DefVars(d.table, d.errors, vs[1..])
  }

  /** Defining one more declaration at the end is one more `def`. */
  lemma {:induction false} DefVarsSnoc(tab: map<string, Type>, errors: seq<Error>, vs: seq<VarDecl>, v: VarDecl)
    ensures var d := DefVars(tab, errors, vs);
      DefVars(tab, errors, vs + [v]) == Def(d.table, d.errors, v.name, v.ty)
    decreases |vs|
  {
    if vs == [] {
      assert [v][1..] == [];
    } else {
      var d := Def(tab, errors, vs[0].name, vs[0].ty);
      assert (vs + [v])[1..] == vs[1..] + [v];
      DefVarsSnoc(d.table, d.errors, vs[1..], v);
    }
  }

  /** One more declaration of a list, as a loop over its prefixes sees it. */
  lemma DefVarsPrefix(tab: map<string, Type>, errors: seq<Error>, vs: seq<VarDecl>, i: nat)
    requires i < |vs|
    ensures var d := DefVars(tab, errors, vs[..i]);
      DefVars(tab, errors, vs[..i + 1]) == Def(d.table, d.errors, vs[i].name, vs[i].ty)
  {
    assert vs[..i + 1] == vs[..i] + [vs[i]];
    DefVarsSnoc(tab, errors, vs[..i], vs[i]);
  }

  /** After defining a list of declarations the table holds the old names and the declared
    * ones, and an old binding is never replaced. */
  lemma {:induction false} DefVarsKeepsBindings(tab: map<string, Type>, errors: seq<Error>, vs: seq<VarDecl>)
    ensures var r := DefVars(tab, errors, vs);
      && (forall x :: x in r.table <==> x in tab || x in Names(vs))
      && (forall x :: x in tab ==> r.table[x] == tab[x])
    decreases |vs|
  {
    if vs != [] {
      var v := vs[0];
      var d := Def(tab, errors, v.name, v.ty);
      DefVarsKeepsBindings(d.table, d.errors, vs[1..]);
      assert Names(vs) == {v.name} + Names(vs[1..]) by {
        assert vs == [v] + vs[1..];
      }
    }
  }

  /** A name that is not bound beforehand is bound to its first declaration. */
  lemma {:induction false} DefVarsFirstWins(tab: map<string, Type>, errors: seq<Error>, vs: seq<VarDecl>, i: nat)
    requires i < |vs| && vs[i].name !in tab && vs[i].name !in Names(vs[..i])
    ensures var r := DefVars(tab, errors, vs); vs[i].name in r.table && r.table[vs[i].name] == vs[i].ty
    decreases |vs|
  {
    DefVarsKeepsBindings(tab, errors, vs);
    var v := vs[0];
    var d := Def(tab, errors, v.name, v.ty);
    var tail := vs[1..];
    DefVarsKeepsBindings(d.table, d.errors, tail);
    if i == 0 {
      assert v.name in d.table && d.table[v.name] == v.ty;
    } else {
      assert vs[i] == tail[i - 1];
      assert vs[..i] == [v] + tail[..i - 1];
      assert Names(vs[..i]) == {v.name} + Names(tail[..i - 1]);
      DefVarsFirstWins(d.table, d.errors, tail, i - 1);
    }
  }

  /** Defining a list of declarations only appends to the report, and only duplicate-definition
    * errors for declared names. */
  lemma {:induction false} DefVarsReportsDuplicates(tab: map<string, Type>, errors: seq<Error>, vs: seq<VarDecl>)
    ensures var r := DefVars(tab, errors, vs);
      && |errors| <= |r.errors| && r.errors[..|errors|] == errors
      && (forall i :: |errors| <= i < |r.errors| ==>
            r.errors[i].DuplicateDefinition? && r.errors[i].dupId in Names(vs))
    decreases |vs|
  {
    if vs != [] {
      var v := vs[0];
      var d := Def(tab, errors, v.name, v.ty);
      var tail := vs[1..];
      DefVarsReportsDuplicates(d.table, d.errors, tail);
      var r := DefVars(tab, errors, vs);
      assert r == DefVars(d.table, d.errors, tail);
      assert Names(vs) == {v.name} + Names(tail) by {
        assert vs == [v] + tail;
      }
      assert r.errors[..|errors|] == errors by {
        assert r.errors[..|d.errors|][..|errors|] == r.errors[..|errors|];
      }
      forall i | |errors| <= i < |r.errors|
        ensures r.errors[i].DuplicateDefinition? && r.errors[i].dupId in Names(vs)
      {
        if i < |d.errors| {
          assert r.errors[i] == r.errors[..|d.errors|][i] == d.errors[i];
        }
      }
    }
  }

  /** Defining a list of declarations reports nothing exactly when the declared names are
    * distinct and none of them is already bound. */
  lemma {:induction false} DefVarsCleanIff(tab: map<string, Type>, errors: seq<Error>, vs: seq<VarDecl>)
    ensures DefVars(tab, errors, vs).errors == errors <==>
      DistinctNames(vs) && forall i :: 0 <= i < |vs| ==> vs[i].name !in tab
    decreases |vs|
  {
    if vs != [] {
      var v := vs[0];
      var d := Def(tab, errors, v.name, v.ty);
      var tail := vs[1..];
      DefVarsCleanIff(d.table, d.errors, tail);
      DefVarsReportsDuplicates(d.table, d.errors, tail);
      var r := DefVars(tab, errors, vs);
      assert r == DefVars(d.table, d.errors, tail);
      if r.errors == errors {
        assert d.errors == errors by {
          assert |d.errors| <= |r.errors|;
          assert d.errors == r.errors[..|d.errors|];
        }
        assert v.name !in tab;
        forall i, j | 0 <= i < j < |vs| ensures vs[i].name != vs[j].name {
          if i == 0 {
            assert vs[j] == tail[j - 1];
            assert vs[j].name !in d.table;
          } else {
            assert vs[i] == tail[i - 1] && vs[j] == tail[j - 1];
          }
        }
        forall i | 0 <= i < |vs| ensures vs[i].name !in tab {
          if i > 0 { assert vs[i] == tail[i - 1]; }
        }
      }
      if DistinctNames(vs) && forall i :: 0 <= i < |vs| ==> vs[i].name !in tab {
        assert v.name !in tab;
        assert DistinctNames(tail) by {
          forall i, j | 0 <= i < j < |tail| ensures tail[i].name != tail[j].name {
            assert tail[i] == vs[i + 1] && tail[j] == vs[j + 1];
          }
        }
        forall i | 0 <= i < |tail| ensures tail[i].name !in d.table {
          assert tail[i] == vs[i + 1];
        }
      }
    }
  }

  /** One method declaration: its formals and locals go into fresh tables, then the method is
    * bound in the class's method table, by `override` when the current superclass has a method
    * of that name and by `def` otherwise. */
  datatype MethodStep = MethodStep(methods: map<string, MethodType>, errors: seq<Error>, mt: MethodType)

  function BuildMethod(errors: seq<Error>, thisSuper: Option<ClassType>, methods: map<string, MethodType>, m: MethodDecl): MethodStep {
    var f := DefVars(map[], errors, m.formals);
    var l := DefVars(map[], f.errors, m.vars);
    var mt := MethodType(f.table, l.table, m.formals, m.returnType);
    if thisSuper.Some? && m.name in thisSuper.value.methods then MethodStep(Override(methods, m.name, mt), l.errors, mt)
    else
      var d := Def(methods, l.errors, m.name, mt);
      MethodStep(d.table, d.errors, mt)
  }

  /** The method declarations of a class, in order, with the entry recorded on each. */
  datatype MethodsStep = MethodsStep(methods: map<string, MethodType>, errors: seq<Error>, types: seq<MethodType>)

  function BuildMethods(errors: seq<Error>, thisSuper: Option<ClassType>, methods: map<string, MethodType>, ms: seq<MethodDecl>): (r: MethodsStep)
    ensures |r.types| == |ms|
    decreases |ms|
  {
    if ms == [] then MethodsStep(methods, errors, [])
    else
      var s := BuildMethod(errors, thisSuper, methods, ms[0]);
      var rest := BuildMethods(s.errors, thisSuper, s.methods, ms[1..]);
      MethodsStep(rest.methods, rest.errors, [s.mt] + rest.types)
  }

  /** Building the methods one more declaration at a time. */
  lemma {:induction false} BuildMethodsSnoc(errors: seq<Error>, thisSuper: Option<ClassType>, methods: map<string, MethodType>, ms: seq<MethodDecl>, m: MethodDecl)
    ensures var r := BuildMethods(errors, thisSuper, methods, ms);
      var s := BuildMethod(r.errors, thisSuper, r.methods, m);
      BuildMethods(errors, thisSuper, methods, ms + [m]) == MethodsStep(s.methods, s.errors, r.types + [s.mt])
    decreases |ms|
  {
    if ms == [] {
      assert [m][1..] == [];
    } else {
      var s := BuildMethod(errors, thisSuper, methods, ms[0]);
      assert (ms + [m])[1..] == ms[1..] + [m];
      BuildMethodsSnoc(s.errors, thisSuper, s.methods, ms[1..], m);
    }
  }

  /** One more method declaration, as a loop over the prefixes sees it. */
  lemma BuildMethodsPrefix(errors: seq<Error>, thisSuper: Option<ClassType>, methods: map<string, MethodType>, ms: seq<MethodDecl>, i: nat)
    requires i < |ms|
    ensures var r := BuildMethods(errors, thisSuper, methods, ms[..i]);
      var s := BuildMethod(r.errors, thisSuper, r.methods, ms[i]);
      BuildMethods(errors, thisSuper, methods, ms[..i + 1]) == MethodsStep(s.methods, s.errors, r.types + [s.mt])
  {
    assert ms[..i + 1] == ms[..i] + [ms[i]];
    BuildMethodsSnoc(errors, thisSuper, methods, ms[..i], ms[i]);
  }

  /** A method whose name the current superclass has is bound by `override`: it replaces any
    * binding, even one from earlier in the same class, and adds no error of its own. */
  lemma OverrideIsSilent(errors: seq<Error>, thisSuper: Option<ClassType>, methods: map<string, MethodType>, m: MethodDecl)
    requires thisSuper.Some? && m.name in thisSuper.value.methods
    ensures var s := BuildMethod(errors, thisSuper, methods, m);
      && s.methods[m.name] == s.mt
      && s.errors == DefVars(map[], DefVars(map[], errors, m.formals).errors, m.vars).errors
      && forall k :: k in methods && k != m.name ==> s.methods[k] == methods[k]
  {
  }

  /** The state phase 1 carries from one class to the next. */
  datatype Phase1 = Phase1(errors: seq<Error>, main: map<string, ClassType>, classes: map<string, ClassType>, superClass: Option<ClassType>)

  /** Where a class declaration starts: with copies of its superclass's fields and methods when
    * the superclass is already in the table; an undefined superclass is reported and leaves
    * the current superclass as it was. */
  datatype SuperScope = SuperScope(errors: seq<Error>, superClass: Option<ClassType>, fields: map<string, Type>, methods: map<string, MethodType>)

  function StartClass(st: Phase1, c: ClassDecl): SuperScope {
    if c.superName.None? then SuperScope(st.errors, st.superClass, map[], map[])
    else if c.superName.value !in st.classes then SuperScope(st.errors + [UndefinedId(c.superName.value)], st.superClass, map[], map[])
    else
      var s := st.classes[c.superName.value];
      SuperScope(st.errors, Some(s), s.fields, s.methods)
  }

  datatype ClassStep = ClassStep(st: Phase1, annot: ClassAnnot)

  /** A class's scope once its fields are defined. */
  function OpenClass(st: Phase1, c: ClassDecl): SuperScope {
    var sc := StartClass(st, c);
    var fl := DefVars(sc.fields, sc.errors, c.vars);
    SuperScope(fl.errors, sc.superClass, fl.table, sc.methods)
  }

  /** Binding the finished class, with `def`, in the class table. */
  function CloseClass(st: Phase1, c: ClassDecl, superClass: Option<ClassType>, fields: map<string, Type>, ms: MethodsStep): ClassStep {
    var ct := ClassType(Some(c.name), c.superName, fields, ms.methods);
    var d := Def(st.classes, ms.errors, c.name, ct);
    ClassStep(Phase1(d.errors, st.main, d.table, superClass), ClassAnnot(ct, ms.types))
  }

  /** One class declaration: fields, then methods, then the class itself. */
  function BuildClass(st: Phase1, c: ClassDecl): ClassStep {
    var o := OpenClass(st, c);
    CloseClass(st, c, o.superClass, o.fields, BuildMethods(o.errors, o.superClass, o.methods, c.methods))
  }

  datatype ClassesStep = ClassesStep(st: Phase1, annots: seq<ClassAnnot>)

  function BuildClasses(st: Phase1, cs: seq<ClassDecl>): (r: ClassesStep)
    ensures |r.annots| == |cs|
    decreases |cs|
  {
    if cs == [] then ClassesStep(st, [])
    else
      var s := BuildClass(st, cs[0]);
      var rest := BuildClasses(s.st, cs[1..]);
      ClassesStep(rest.st, [s.annot] + rest.annots)
  }

  /** Building the classes one more declaration at a time. */
  lemma {:induction false} BuildClassesSnoc(st: Phase1, cs: seq<ClassDecl>, c: ClassDecl)
    ensures var r := BuildClasses(st, cs);
      var s := BuildClass(r.st, c);
      BuildClasses(st, cs + [c]) == ClassesStep(s.st, r.annots + [s.annot])
    decreases |cs|
  {
    if cs == [] {
      assert [c][1..] == [];
    } else {
      var s := BuildClass(st, cs[0]);
      assert (cs + [c])[1..] == cs[1..] + [c];
      BuildClassesSnoc(s.st, cs[1..], c);
    }
  }

  /** One more class declaration, as a loop over the prefixes sees it. */
  lemma BuildClassesPrefix(st: Phase1, cs: seq<ClassDecl>, i: nat)
    requires i < |cs|
    ensures var r := BuildClasses(st, cs[..i]);
      var s := BuildClass(r.st, cs[i]);
      BuildClasses(st, cs[..i + 1]) == ClassesStep(s.st, r.annots + [s.annot])
  {
    assert cs[..i + 1] == cs[..i] + [cs[i]];
    BuildClassesSnoc(st, cs[..i], cs[i]);
  }

  /** The entry the main class is registered with. */
  const MainEntry := ClassType(None, None, map[], map[])

  /** The whole program: the main class, then the classes. */
  function BuildProgram(st: Phase1, p: Program): ClassesStep {
    var d := Def(st.main, st.errors, p.mainClass.className, MainEntry);
    BuildClasses(st.(errors := d.errors, main := d.table), p.classes)
  }

  /** A class whose superclass is already in the table starts from copies of all the
    * superclass's fields and methods: every inherited field keeps the superclass's type, a
    * redeclared field is reported as a duplicate, and every inherited method name stays bound. */
  lemma ClassInheritsSuper(st: Phase1, c: ClassDecl)
    requires c.superName.Some? && c.superName.value in st.classes
    ensures var s := st.classes[c.superName.value];
      var r := BuildClass(st, c);
      && r.st.superClass == Some(s)
      && (forall x :: x in s.fields ==> x in r.annot.info.fields && r.annot.info.fields[x] == s.fields[x])
      && (forall v :: v in c.vars && v.name in s.fields ==> DuplicateDefinition(v.name) in r.st.errors)
      && (forall x :: x in s.methods ==> x in r.annot.info.methods)
  {
    var s := st.classes[c.superName.value];
    var fl := DefVars(s.fields, st.errors, c.vars);
    DefVarsKeepsBindings(s.fields, st.errors, c.vars);
    var ms := BuildMethods(fl.errors, Some(s), s.methods, c.methods);
    BuildMethodsKeepNames(fl.errors, Some(s), s.methods, c.methods);
    BuildMethodsKeepErrors(fl.errors, Some(s), s.methods, c.methods);
    var r := BuildClass(st, c);
    forall v | v in c.vars && v.name in s.fields ensures DuplicateDefinition(v.name) in r.st.errors {
      var i :| 0 <= i < |c.vars| && c.vars[i] == v;
      DefVarsReportsRedeclared(s.fields, st.errors, c.vars, i);
      assert DuplicateDefinition(v.name) in ms.errors;
      assert ms.errors <= r.st.errors;
    }
  }

  /** A declaration of a name that is already bound is reported as a duplicate. */
  lemma {:induction false} DefVarsReportsRedeclared(tab: map<string, Type>, errors: seq<Error>, vs: seq<VarDecl>, i: nat)
    requires i < |vs| && vs[i].name in tab
    ensures DuplicateDefinition(vs[i].name) in DefVars(tab, errors, vs).errors
    decreases |vs|
  {
    var d := Def(tab, errors, vs[0].name, vs[0].ty);
    DefVarsReportsDuplicates(d.table, d.errors, vs[1..]);
    var r := DefVars(d.table, d.errors, vs[1..]);
    if i == 0 {
      assert d.errors[|errors|] == DuplicateDefinition(vs[0].name);
      assert r.errors[..|d.errors|] == d.errors;
      assert r.errors[|errors|] == DuplicateDefinition(vs[0].name);
    } else {
      assert vs[i] == vs[1..][i - 1];
      DefVarsReportsRedeclared(d.table, d.errors, vs[1..], i - 1);
    }
  }

  /** Method definitions never unbind a method name. */
  lemma {:induction false} BuildMethodsKeepNames(errors: seq<Error>, thisSuper: Option<ClassType>, methods: map<string, MethodType>, ms: seq<MethodDecl>)
    ensures methods.Keys <= BuildMethods(errors, thisSuper, methods, ms).methods.Keys
    decreases |ms|
  {
    if ms != [] {
      var s := BuildMethod(errors, thisSuper, methods, ms[0]);
      BuildMethodsKeepNames(s.errors, thisSuper, s.methods, ms[1..]);
    }
  }

  /** Method definitions only append to the report. */
  lemma {:induction false} BuildMethodsKeepErrors(errors: seq<Error>, thisSuper: Option<ClassType>, methods: map<string, MethodType>, ms: seq<MethodDecl>)
    ensures errors <= BuildMethods(errors, thisSuper, methods, ms).errors
    decreases |ms|
  {
    if ms != [] {
      var m := ms[0];
      var f := DefVars(map[], errors, m.formals);
      var l := DefVars(map[], f.errors, m.vars);
      DefVarsReportsDuplicates(map[], errors, m.formals);
      DefVarsReportsDuplicates(map[], f.errors, m.vars);
      var s := BuildMethod(errors, thisSuper, methods, m);
      assert errors <= s.errors by {
        assert errors <= f.errors <= l.errors <= s.errors;
      }
      BuildMethodsKeepErrors(s.errors, thisSuper, s.methods, ms[1..]);
    }
  }

  /** A superclass that is not yet in the table is reported as undefined and nothing is copied:
    * the class's fields are exactly its own; the superclass carried over from the previous
    * class stays current. */
  lemma MissingSuperCopiesNothing(st: Phase1, c: ClassDecl)
    requires c.superName.Some? && c.superName.value !in st.classes
    ensures var r := BuildClass(st, c);
      && UndefinedId(c.superName.value) in r.st.errors
      && r.annot.info.fields.Keys == Names(c.vars)
      && r.st.superClass == st.superClass
  {
    var sc := StartClass(st, c);
    DefVarsKeepsBindings(map[], sc.errors, c.vars);
    DefVarsReportsDuplicates(map[], sc.errors, c.vars);
    var fl := DefVars(map[], sc.errors, c.vars);
    var ms := BuildMethods(fl.errors, sc.superClass, map[], c.methods);
    BuildMethodsKeepErrors(fl.errors, sc.superClass, map[], c.methods);
    assert sc.errors[|st.errors|] == UndefinedId(c.superName.value);
    assert fl.errors[..|sc.errors|] == sc.errors;
    assert UndefinedId(c.superName.value) in fl.errors;
  }

  /** Every entry of the class table is named by its key. */
  ghost predicate KeyedByName(classes: map<string, ClassType>) {
    forall k :: k in classes ==> classes[k].name == Some(k)
  }

  /** The class table phase 1 builds maps each class name to that class's entry: every
    * declared class is bound, and each entry carries its own name. */
  lemma {:induction false} ClassesKeyedByName(st: Phase1, cs: seq<ClassDecl>)
    requires KeyedByName(st.classes)
    ensures var r := BuildClasses(st, cs);
      && KeyedByName(r.st.classes)
      && st.classes.Keys <= r.st.classes.Keys
      && (forall c :: c in cs ==> c.name in r.st.classes)
    decreases |cs|
  {
    if cs != [] {
      var s := BuildClass(st, cs[0]);
      ClassesKeyedByName(s.st, cs[1..]);
    }
  }

  /** The program's result: the main class is registered, under its name, with an entry that
    * has no name, no superclass and no members; every class is in the class table under its
    * own name. */
  lemma ProgramTables(p: Program)
    ensures var r := BuildProgram(Phase1([], map[], map[], None), p);
      && r.st.main == map[p.mainClass.className := MainEntry]
      && KeyedByName(r.st.classes)
      && (forall c :: c in p.classes ==> c.name in r.st.classes)
  {
    var d := Def(map[], [], p.mainClass.className, MainEntry);
    ClassesKeyedByName(Phase1(d.errors, d.table, map[], None), p.classes);
    ClassesKeepMain(Phase1(d.errors, d.table, map[], None), p.classes);
  }

  /** Class declarations leave the main table alone. */
  lemma {:induction false} ClassesKeepMain(st: Phase1, cs: seq<ClassDecl>)
    ensures BuildClasses(st, cs).st.main == st.main
    decreases |cs|
  {
    if cs != [] {
      ClassesKeepMain(BuildClass(st, cs[0]).st, cs[1..]);
    }
  }

  /** The method `int m() { return 0; }` and the entry phase 1 records for it. */
  const LeakMethod := MethodDecl(IntType, "m", [], [], [], IntegerLiteral(0))
  const LeakEntry := MethodType(map[], map[], [], IntType)
  const LeakA := ClassType(Some("A"), None, map[], map["m" := LeakEntry])
  const LeakB := ClassType(Some("B"), Some("A"), map[], map["m" := LeakEntry])

  /** `class A { m }` from the start state. */
  lemma LeakStepA()
    ensures BuildClass(Phase1([], map[], map[], None), ClassDecl("A", None, [], [LeakMethod])).st
      == Phase1([], map[], map["A" := LeakA], None)
  {
    var none: Option<ClassType> := None;
    assert DefVars(map[], [], []) == Defined(map[], []);
    assert BuildMethod([], none, map[], LeakMethod) == MethodStep(map["m" := LeakEntry], [], LeakEntry);
    assert [LeakMethod][1..] == [];
    assert BuildMethods([], none, map[], [LeakMethod]) == MethodsStep(map["m" := LeakEntry], [], [LeakEntry]);
  }

  /** `class B extends A { }` after A: B's superclass becomes current. */
  lemma LeakStepB()
    ensures BuildClass(Phase1([], map[], map["A" := LeakA], None), ClassDecl("B", Some("A"), [], [])).st
      == Phase1([], map[], map["A" := LeakA, "B" := LeakB], Some(LeakA))
  {
    assert DefVars(map[], [], []) == Defined(map[], []);
    assert BuildMethods([], Some(LeakA), map["m" := LeakEntry], []) == MethodsStep(map["m" := LeakEntry], [], []);
  }

  /** `class C { m m }` while A is still the current superclass: both `m` are overrides. */
  lemma LeakStepC()
    ensures BuildClass(Phase1([], map[], map["A" := LeakA, "B" := LeakB], Some(LeakA)),
                       ClassDecl("C", None, [], [LeakMethod, LeakMethod])).st.errors == []
  {
    assert DefVars(map[], [], []) == Defined(map[], []);
    assert BuildMethod([], Some(LeakA), map[], LeakMethod) == MethodStep(map["m" := LeakEntry], [], LeakEntry);
    assert BuildMethod([], Some(LeakA), map["m" := LeakEntry], LeakMethod) == MethodStep(map["m" := LeakEntry], [], LeakEntry);
    assert [LeakMethod, LeakMethod][1..] == [LeakMethod] && [LeakMethod][1..] == [];
    assert BuildMethods([], Some(LeakA), map["m" := LeakEntry], [LeakMethod]) == MethodsStep(map["m" := LeakEntry], [], [LeakEntry]);
    assert BuildMethods([], Some(LeakA), map[], [LeakMethod, LeakMethod]) == MethodsStep(map["m" := LeakEntry], [], [LeakEntry, LeakEntry]);
  }

  /** The superclass of one class stays current for the next: in `class A { m }`,
    * `class B extends A { }`, `class C { m m }` the second `m` of C is bound by `override`, so
    * no duplicate definition is reported for it. */
  lemma SuperClassCarriesOver()
    ensures var a := ClassDecl("A", None, [], [LeakMethod]);
      var b := ClassDecl("B", Some("A"), [], []);
      var c := ClassDecl("C", None, [], [LeakMethod, LeakMethod]);
      BuildClasses(Phase1([], map[], map[], None), [a, b, c]).st.errors == []
  {
    var a := ClassDecl("A", None, [], [LeakMethod]);
    var b := ClassDecl("B", Some("A"), [], []);
    var c := ClassDecl("C", None, [], [LeakMethod, LeakMethod]);
    LeakStepA();
    LeakStepB();
    LeakStepC();
    var st1 := Phase1([], map[], map["A" := LeakA], None);
    var st2 := Phase1([], map[], map["A" := LeakA, "B" := LeakB], Some(LeakA));
    var st3 := BuildClass(st2, c).st;
    assert [a, b, c][1..] == [b, c] && [b, c][1..] == [c] && [c][1..] == [];
    assert BuildClasses(st2, [c]).st == st3;
    assert BuildClasses(st1, [b, c]).st == st3;
  }

  /** The phase-1 visitor. `thisSuperClass` is set by a class with a defined superclass and is
    * never cleared. */
  class SymbolTableBuilder {
    var errors: seq<Error>
    var main: map<string, ClassType>
    var classes: map<string, ClassType>
    var thisClass: Option<string>
    var thisSuperClass: Option<ClassType>
    var thisFields: Option<map<string, Type>>
    var thisMethods: Option<map<string, MethodType>>
    var thisFormals: Option<map<string, Type>>
    var thisLocals: Option<map<string, Type>>

    /** The state carried between classes. */
    function State(): Phase1
      reads this`errors, this`main, this`classes, this`thisSuperClass
    {
      Phase1(errors, main, classes, thisSuperClass)
    }

    /** No class or method is being visited. */
    predicate Idle()
      reads this`thisClass, this`thisFields, this`thisMethods, this`thisFormals, this`thisLocals
    {
      thisClass.None? && thisFields.None? && thisMethods.None? && thisFormals.None? && thisLocals.None?
    }

    constructor ()
      ensures State() == Phase1([], map[], map[], None) && Idle()
    {
      errors := [];
      main := map[];
      classes := map[];
      thisClass := None;
      thisSuperClass := None;
      thisFields := None;
      thisMethods := None;
      thisFormals := None;
      thisLocals := None;
    }

    /** The table declarations of the given kind go into, when one is open. */
    function Table(kind: VarKind): Option<map<string, Type>>
      reads this`thisFields, this`thisLocals, this`thisFormals
    {
      match kind
      case Field => thisFields
      case Local => thisLocals
      case Formal => thisFormals
    }

    /** A declaration goes into the table its kind names; the other tables are untouched. */
    method VisitVarDecl(v: VarDecl)
      requires Table(v.kind).Some?
      modifies this`thisFields, this`thisLocals, this`thisFormals, this`errors
      ensures Table(v.kind).Some?
      ensures Defined(Table(v.kind).value, errors) == Def(old(Table(v.kind)).value, old(errors), v.name, v.ty)
      ensures forall k :: k != v.kind ==> Table(k) == old(Table(k))
    {
      match v.kind {
        case Field =>
          var d := Def(thisFields.value, errors, v.name, v.ty);
          thisFields, errors := Some(d.table), d.errors;
        case Local =>
          var d := Def(thisLocals.value, errors, v.name, v.ty);
          thisLocals, errors := Some(d.table), d.errors;
        case Formal =>
          var d := Def(thisFormals.value, errors, v.name, v.ty);
          thisFormals, errors := Some(d.table), d.errors;
      }
    }

    /** A list of declarations of one kind, defined in order. */
    method VisitVarDecls(vs: seq<VarDecl>, kind: VarKind)
      requires Table(kind).Some? && forall i :: 0 <= i < |vs| ==> vs[i].kind == kind
      modifies this`thisFields, this`thisLocals, this`thisFormals, this`errors
      ensures Table(kind).Some?
      ensures Defined(Table(kind).value, errors) == DefVars(old(Table(kind)).value, old(errors), vs)
      ensures forall k :: k != kind ==> Table(k) == old(Table(k))
    {
      for i := 0 to |vs|
        invariant Table(kind).Some? && forall k :: k != kind ==> Table(k) == old(Table(k))
        invariant Defined(Table(kind).value, errors) == DefVars(old(Table(kind)).value, old(errors), vs[..i])
      {
        DefVarsPrefix(old(Table(kind)).value, old(errors), vs, i);
        VisitVarDecl(vs[i]);
      }
      assert vs[..|vs|] == vs;
    }

    /** Builds the method's tables, binds it in the class's method table and returns the entry
      * recorded on the declaration. */
    method VisitMethodDecl(m: MethodDecl) returns (mt: MethodType)
      requires thisMethods.Some?
      requires MethodWellKinded(m)
      modifies this`thisFields, this`thisFormals, this`thisLocals, this`thisMethods, this`errors
      ensures thisFormals.None? && thisLocals.None? && thisFields == old(thisFields)
      ensures var s := BuildMethod(old(errors), thisSuperClass, old(thisMethods).value, m);
        thisMethods == Some(s.methods) && errors == s.errors && mt == s.mt
    {
      ghost var f := DefVars(map[], old(errors), m.formals);
      ghost var l := DefVars(map[], f.errors, m.vars);
      thisFormals := Some(map[]);
      thisLocals := Some(map[]);
      VisitVarDecls(m.formals, Formal);
      assert Table(Field) == old(Table(Field)) && Table(Local) == Some(map[]);
      assert thisFormals == Some(f.table) && errors == f.errors;
      VisitVarDecls(m.vars, Local);
      assert Table(Field) == old(Table(Field)) && Table(Formal) == Some(f.table);
      assert thisLocals == Some(l.table) && errors == l.errors;
      mt := MethodType(thisFormals.value, thisLocals.value, m.formals, m.returnType);
      assert mt == BuildMethod(old(errors), thisSuperClass, old(thisMethods).value, m).mt;
      var superHasIt := thisSuperClass.Some? && m.name in thisSuperClass.value.methods;
      if superHasIt {
        thisMethods := Some(Override(thisMethods.value, m.name, mt));
      } else {
        var d := Def(thisMethods.value, errors, m.name, mt);
        thisMethods, errors := Some(d.table), d.errors;
      }
      thisFormals := None;
      thisLocals := None;
    }

    /** Visits a class: copies the superclass's members when it is defined, builds fields and
      * methods, then binds the class. */
    method VisitClassDecl(c: ClassDecl) returns (annot: ClassAnnot)
      requires Idle() && ClassWellKinded(c)
      modifies this`errors, this`classes, this`thisClass, this`thisSuperClass, this`thisFields, this`thisMethods, this`thisFormals, this`thisLocals
      ensures Idle()
      ensures ClassStep(State(), annot) == BuildClass(old(State()), c)
    {
      ghost var st0 := State();
      ghost var o := OpenClass(st0, c);
      ghost var ms := BuildMethods(o.errors, o.superClass, o.methods, c.methods);
      assert BuildClass(st0, c) == CloseClass(st0, c, o.superClass, o.fields, ms);
      EnterClass(c);
      assert State().(errors := o.errors, superClass := o.superClass) == st0.(errors := o.errors, superClass := o.superClass);
      var types := VisitMethodDecls(c.methods);
      assert MethodsStep(thisMethods.value, errors, types) == ms;
      annot := ExitClass(c, types);
      assert ClassStep(State(), annot) == CloseClass(st0, c, o.superClass, o.fields, ms);
    }

    /** Opens the class: its tables start empty, or as copies of the superclass's members when
      * the superclass is defined (an undefined superclass is reported); then its fields are
      * defined. */
    method EnterClass(c: ClassDecl)
      requires Idle() && ClassWellKinded(c)
      modifies this`errors, this`thisClass, this`thisSuperClass, this`thisFields, this`thisMethods, this`thisFormals, this`thisLocals
      ensures thisClass == Some(c.name) && thisFormals.None? && thisLocals.None?
      ensures thisFields.Some? && thisMethods.Some?
      ensures SuperScope(errors, thisSuperClass, thisFields.value, thisMethods.value) == OpenClass(old(State()), c)
    {
      ghost var sc := StartClass(State(), c);
      thisClass := Some(c.name);
      EnterSuperClass(c);
      assert Table(Field) == Some(sc.fields) && errors == sc.errors;
      VisitVarDecls(c.vars, Field);
      assert Table(Local).None? && Table(Formal).None?;
    }

    /** Opens the class's tables: empty, or copies of the superclass's members when the
      * superclass is defined; an undefined superclass is reported. */
    method EnterSuperClass(c: ClassDecl)
      modifies this`thisFields, this`thisMethods, this`thisSuperClass, this`errors
      ensures var sc := StartClass(old(State()), c);
        && errors == sc.errors && thisSuperClass == sc.superClass
        && thisFields == Some(sc.fields) && thisMethods == Some(sc.methods)
    {
      thisFields := Some(map[]);
      thisMethods := Some(map[]);
      if c.superName.Some? {
        if c.superName.value !in classes {
          errors := errors + [UndefinedId(c.superName.value)];
        } else {
          var st := classes[c.superName.value];
          thisSuperClass := Some(st);
          CopySuperMembers(st);
        }
      }
    }

    /** Binds the finished class in the class table and closes the class's tables; returns what
      * is recorded on the declaration. */
    method ExitClass(c: ClassDecl, types: seq<MethodType>) returns (annot: ClassAnnot)
      requires thisFields.Some? && thisMethods.Some?
      modifies this`classes, this`errors, this`thisClass, this`thisFields, this`thisMethods
      ensures ClassStep(State(), annot)
        == CloseClass(old(State()), c, thisSuperClass, old(thisFields).value, MethodsStep(old(thisMethods).value, old(errors), types))
      ensures thisClass.None? && thisFields.None? && thisMethods.None?
    {
      var ct := ClassType(Some(c.name), c.superName, thisFields.value, thisMethods.value);
      annot := ClassAnnot(ct, types);
      var d := Def(classes, errors, c.name, ct);
      classes, errors := d.table, d.errors;
      thisClass := None;
      thisFields := None;
      thisMethods := None;
    }

    /** The class's method declarations, in order; returns the entry recorded on each. */
    method VisitMethodDecls(ms: seq<MethodDecl>) returns (types: seq<MethodType>)
      requires thisMethods.Some? && thisFormals.None? && thisLocals.None?
      requires forall i :: 0 <= i < |ms| ==> MethodWellKinded(ms[i])
      modifies this`thisFields, this`thisFormals, this`thisLocals, this`thisMethods, this`errors
      ensures thisMethods.Some? && thisFormals.None? && thisLocals.None? && thisFields == old(thisFields)
      ensures MethodsStep(thisMethods.value, errors, types) == BuildMethods(old(errors), thisSuperClass, old(thisMethods).value, ms)
    {
      types := [];
      for i := 0 to |ms|
        invariant thisMethods.Some? && thisFormals.None? && thisLocals.None? && thisFields == old(thisFields)
        invariant MethodsStep(thisMethods.value, errors, types) == BuildMethods(old(errors), thisSuperClass, old(thisMethods).value, ms[..i])
      {
        BuildMethodsPrefix(old(errors), thisSuperClass, old(thisMethods).value, ms, i);
        var mt := VisitMethodDecl(ms[i]);
        types := types + [mt];
      }
      assert ms[..|ms|] == ms;
    }

    /** The two copy loops: every superclass field and method is defined in the fresh tables. */
    method CopySuperMembers(st: ClassType)
      requires thisFields == Some(map[]) && thisMethods == Some(map[])
      modifies this`thisFields, this`thisMethods, this`errors
      ensures thisFields == Some(st.fields) && thisMethods == Some(st.methods) && errors == old(errors)
    {
      CopySuperFields(st.fields);
      CopySuperMethods(st.methods);
    }

    /** Every superclass field is defined in the class's field table. */
    method CopySuperFields(fields: map<string, Type>)
      requires thisFields == Some(map[])
      modifies this`thisFields, this`errors
      ensures thisFields == Some(fields) && errors == old(errors)
    {
      var left := fields.Keys;
      while left != {}
        invariant left <= fields.Keys && errors == old(errors)
        invariant thisFields == Some(map k | k in fields && k !in left :: fields[k])
        decreases left
      {
        var k :| k in left;
        var before := thisFields.value;
        assert k !in before;
        var d := Def(before, errors, k, fields[k]);
        thisFields, errors := Some(d.table), d.errors;
        left := left - {k};
        assert d.table == (map x | x in fields && x !in left :: fields[x]);
      }
      assert thisFields.value == fields;
    }

    /** Every superclass method is defined in the class's method table. */
    method CopySuperMethods(methods: map<string, MethodType>)
      requires thisMethods == Some(map[])
      modifies this`thisMethods, this`errors
      ensures thisMethods == Some(methods) && errors == old(errors)
    {
      var left := methods.Keys;
      while left != {}
        invariant left <= methods.Keys && errors == old(errors)
        invariant thisMethods == Some(map k | k in methods && k !in left :: methods[k])
        decreases left
      {
        var k :| k in left;
        var before := thisMethods.value;
        assert k !in before;
        var d := Def(before, errors, k, methods[k]);
        thisMethods, errors := Some(d.table), d.errors;
        left := left - {k};
        assert d.table == (map x | x in methods && x !in left :: methods[x]);
      }
      assert thisMethods.value == methods;
    }

    /** The main class is registered in the main table with an empty entry. */
    method VisitMainClass(mc: MainClass)
      modifies this`main, this`errors
      ensures Defined(main, errors) == Def(old(main), old(errors), mc.className, MainEntry)
    {
      var d := Def(main, errors, mc.className, MainEntry);
      main, errors := d.table, d.errors;
    }

    /** The whole program; returns the main table, the class table and the entries recorded
      * on the class declarations. */
    method VisitProgram(p: Program) returns (mainTable: map<string, ClassType>, classTable: map<string, ClassType>, annots: seq<ClassAnnot>)
      requires Idle() && WellKinded(p)
      modifies this
      ensures Idle()
      ensures ClassesStep(State(), annots) == BuildProgram(old(State()), p)
      ensures mainTable == main && classTable == classes
    {
      VisitMainClass(p.mainClass);
      annots := VisitClassDecls(p.classes);
      mainTable, classTable := main, classes;
    }

    /** The class declarations, in order; returns what is recorded on each. */
    method VisitClassDecls(cs: seq<ClassDecl>) returns (annots: seq<ClassAnnot>)
      requires Idle() && forall i :: 0 <= i < |cs| ==> ClassWellKinded(cs[i])
      modifies this`errors, this`classes, this`thisClass, this`thisSuperClass, this`thisFields, this`thisMethods, this`thisFormals, this`thisLocals
      ensures Idle()
      ensures ClassesStep(State(), annots) == BuildClasses(old(State()), cs)
    {
      annots := [];
      for i := 0 to |cs|
        invariant Idle()
        invariant ClassesStep(State(), annots) == BuildClasses(old(State()), cs[..i])
      {
        BuildClassesPrefix(old(State()), cs, i);
        var a := VisitClassDecl(cs[i]);
        annots := annots + [a];
      }
      assert cs[..|cs|] == cs;
    }
  }
}
