/**
 * The MiniJava abstract syntax both checking phases walk, the symbol-table entries phase 1 builds,
 * and the errors sent to the error report.
 */
module Ast {
  import opened Util

  /** The types a MiniJava expression or declaration can have. */
  datatype Type = IntType | BoolType | IntArrayType | UnknownType | ObjectType(name: string)

  datatype VarKind = Field | Local | Formal

  /** `type name;` as a field, a local variable or a formal parameter. */
  datatype VarDecl = VarDecl(kind: VarKind, name: string, ty: Type)

  datatype Expr =
    | And(e1: Expr, e2: Expr)
    | LessThan(e1: Expr, e2: Expr)
    | Plus(e1: Expr, e2: Expr)
    | Minus(e1: Expr, e2: Expr)
    | Times(e1: Expr, e2: Expr)
    | ArrayLookup(array: Expr, index: Expr)
    | ArrayLength(array: Expr)
    | Call(receiver: Expr, name: string, rands: seq<Expr>)
    | IntegerLiteral(value: int)
    | BooleanLiteral(bvalue: bool)
    | IdentifierExp(id: string)
    | This
    | NewArray(size: Expr)
    | NewObject(typeName: string)
    | Not(e: Expr)
    | Conditional(c1: Expr, c2: Expr, c3: Expr)

  datatype Stmt =
    | Block(statements: seq<Stmt>)
    | If(tst: Expr, thn: Stmt, els: Stmt)
    | While(wtst: Expr, body: Stmt)
    | Print(exp: Expr)
    | Assign(target: string, value: Expr)
    | ArrayAssign(arrayName: string, index: Expr, avalue: Expr)

  datatype MethodDecl = MethodDecl(returnType: Type, name: string, formals: seq<VarDecl>, vars: seq<VarDecl>,
                                   statements: seq<Stmt>, returnExp: Expr)

  datatype ClassDecl = ClassDecl(name: string, superName: Option<string>, vars: seq<VarDecl>, methods: seq<MethodDecl>)

  datatype MainClass = MainClass(className: string, argName: string, statement: Stmt)

  datatype Program = Program(mainClass: MainClass, classes: seq<ClassDecl>)

  /** A method's entry: its formal and local tables, its formal list and its return type. */
  datatype MethodType = MethodType(params: map<string, Type>, locals: map<string, Type>, formals: seq<VarDecl>, returnType: Type)

  /** A class's entry; the main class is registered with an entry that has no name. */
  datatype ClassType = ClassType(name: Option<string>, superClass: Option<string>, fields: map<string, Type>,
                                 methods: map<string, MethodType>)

  /** What phase 1 records on a class declaration: its entry and the entry of each method. */
  datatype ClassAnnot = ClassAnnot(info: ClassType, methodTypes: seq<MethodType>)

  datatype Error =
    | UndefinedId(id: string)
    | DuplicateDefinition(dupId: string)
    | TypeError(exp: Expr, expected: seq<Type>, actual: Type)
    | WrongNumberOfArguments(expectedCount: nat, actualCount: nat)

  /** A method's formals are formals and its variables are locals. */
  predicate MethodWellKinded(m: MethodDecl) {
    && (forall i :: 0 <= i < |m.formals| ==> m.formals[i].kind == Formal)
    && (forall i :: 0 <= i < |m.vars| ==> m.vars[i].kind == Local)
  }

  /** A class's variables are fields and its methods are well kinded. */
  predicate ClassWellKinded(c: ClassDecl) {
    && (forall i :: 0 <= i < |c.vars| ==> c.vars[i].kind == Field)
    && (forall i :: 0 <= i < |c.methods| ==> MethodWellKinded(c.methods[i]))
  }

  /** The parser's guarantee: every declaration is of the kind its position says. */
  predicate WellKinded(p: Program) {
    forall i :: 0 <= i < |p.classes| ==> ClassWellKinded(p.classes[i])
  }
}
