/**
 * The type annotator of src/semantic_analyzer.h.
 *
 * `AnalyzeExpr`, `AnalyzeStmt` and `AnalyzeStmts` say what the visitor
 * computes for a node, given the stores of the scope chain (innermost
 * first): the node with its `resolvedType` fields filled in, the new
 * stores, and the errors it appends. The class `SemanticAnalyzer` keeps the
 * source's `currentScope` and `errors` fields, walks the tree with one
 * method per `visit` overload, and is proved to compute these functions.
 */
module Semantics {
  import opened Wrappers
  import opened Tokens
  import opened Ast
  import opened Symbols

  /** The messages `addError` records, by kind. */
  datatype SemanticError =
    | UndefinedVariable(name: string)
    | OperandsNotInteger(op: Kind)
    | DivisionByZero
    | DefineFailed(name: string)

  // ---------------------------------------------------------------------
  // Expressions

  /** The tree with every `resolvedType` blanked: what the analyzer may not change. */
  function Erase(e: Expr): Expr {
    match e
    case IntegerLiteral(v, _) => IntegerLiteral(v, Unannotated)
    case BooleanLiteral(b, _) => BooleanLiteral(b, Unannotated)
    case StringLiteral(s, _) => StringLiteral(s, Unannotated)
    case CharLiteral(c, _) => CharLiteral(c, Unannotated)
    case IdentifierExpr(n, _) => IdentifierExpr(n, Unannotated)
    case BinaryExpression(l, op, r, _) => BinaryExpression(Erase(l), op, Erase(r), Unannotated)
  }

  /**
   * The operand type `visit(BinaryExpression&)` reads through its
   * `dynamic_cast` chain: an identifier's or binary node's `resolvedType`,
   * INT for an integer literal, ILLEGAL for any other node.
   */
  function OperandType(e: Expr): Kind {
    match e
    case IdentifierExpr(_, ty) => ty
    case IntegerLiteral(_, _) => Int
    case BinaryExpression(_, _, _, ty) => ty
    case _ => Illegal
  }

  /** The operator check: an ILLEGAL operand is passed on silently, a non-INT one is reported. */
  function BinaryType(leftType: Kind, rightType: Kind, op: Kind): (r: (Kind, seq<SemanticError>))
  {
    if leftType == Illegal || rightType == Illegal then (Illegal, [])
    else if leftType != Int || rightType != Int then (Illegal, [OperandsNotInteger(op)])
    else (Int, [])
  }

  predicate IsZeroLiteral(e: Expr) {
    e.IntegerLiteral? && e.intValue == 0
  }

  /**
   * What a binary node over the annotated operands `l'` and `r'` adds: its
   * type and the errors after the operands' own, the operator check first,
   * then the division by the literal 0.
   */
  function BinaryCheck(l': Expr, op: Kind, r': Expr): (r: (Kind, seq<SemanticError>))
    ensures forall err <- r.1 :: !err.UndefinedVariable?
  {
    var (ty, errorsOp) := BinaryType(OperandType(l'), OperandType(r'), op);
    assert errorsOp == [] || errorsOp == [OperandsNotInteger(op)];
    if op == Slash && IsZeroLiteral(r') then (Illegal, errorsOp + [DivisionByZero]) else (ty, errorsOp)
  }

  /** The visit of one expression: the annotated node and the errors appended, in post-order. */
  function AnalyzeExpr(scopes: seq<Store>, e: Expr): (r: (Expr, seq<SemanticError>))
    ensures Erase(r.0) == Erase(e)
    ensures r.0.BinaryExpression? ==> r.0.ty == Int || r.0.ty == Illegal
    ensures forall err <- r.1 :: !err.DefineFailed?
    decreases e
  {
    match e
    case IntegerLiteral(_, _) => (e, [])
    case BooleanLiteral(b, _) => (BooleanLiteral(b, Bool), [])
    case StringLiteral(_, _) => (e, [])
    case CharLiteral(_, _) => (e, [])
    case IdentifierExpr(n, _) =>
      (match Lookup(scopes, n)
       case None => (IdentifierExpr(n, Illegal), [UndefinedVariable(n)])
       case Some(entry) => (IdentifierExpr(n, entry.declaredTokenType), []))
    case BinaryExpression(l, op, rt, _) =>
      var (l', errorsLeft) := AnalyzeExpr(scopes, l);
      var (r', errorsRight) := AnalyzeExpr(scopes, rt);
      var (ty, errorsCheck) := BinaryCheck(l', op, r');
      (BinaryExpression(l', op, r', ty), errorsLeft + errorsRight + errorsCheck)
  }

  /**
   * An independent account of when an operand comes out INT: integer
   * literals, identifiers declared INT, and binary nodes over such operands
   * that are not a division by the literal 0.
   */
  predicate WellTyped(scopes: seq<Store>, e: Expr) {
    match e
    case IntegerLiteral(_, _) => true
    case IdentifierExpr(n, _) => Lookup(scopes, n).Some? && Lookup(scopes, n).value.declaredTokenType == Int
    case BinaryExpression(l, op, r, _) => WellTyped(scopes, l) && WellTyped(scopes, r) && !(op == Slash && IsZeroLiteral(r))
    case _ => false
  }

  /** An operand is typed INT exactly when it is well typed, and then it raised no error. */
  lemma {:induction false} IntTypeIffWellTyped(scopes: seq<Store>, e: Expr)
    ensures OperandType(AnalyzeExpr(scopes, e).0) == Int <==> WellTyped(scopes, e)
    ensures WellTyped(scopes, e) ==> AnalyzeExpr(scopes, e).1 == []
  {
    match e
    case BinaryExpression(l, op, r, _) =>
      IntTypeIffWellTyped(scopes, l);
      IntTypeIffWellTyped(scopes, r);
      var (r', _) := AnalyzeExpr(scopes, r);
      assert IsZeroLiteral(r') <==> IsZeroLiteral(r);
    case _ =>
  }

  /** The names of the identifiers that are not bound, in the order the walk meets them. */
  function Unbound(scopes: seq<Store>, e: Expr): seq<string> {
    match e
    case IdentifierExpr(n, _) => if Lookup(scopes, n).None? then [n] else []
    case BinaryExpression(l, _, r, _) => Unbound(scopes, l) + Unbound(scopes, r)
    case _ => []
  }

  /** The names in the "Undefined variable" errors of a list, in order. */
  function UndefinedReported(errs: seq<SemanticError>): seq<string> {
    if errs == [] then []
    else (if errs[0].UndefinedVariable? then [errs[0].name] else []) + UndefinedReported(errs[1..])
  }

  lemma {:induction false} UndefinedReportedAppend(a: seq<SemanticError>, b: seq<SemanticError>)
    ensures UndefinedReported(a + b) == UndefinedReported(a) + UndefinedReported(b)
    decreases |a|
  {
    if a == [] {
      assert a + b == b;
    } else {
      assert (a + b)[0] == a[0] && (a + b)[1..] == a[1..] + b;
      UndefinedReportedAppend(a[1..], b);
    }
  }

  lemma {:induction false} NoUndefinedReported(errs: seq<SemanticError>)
    requires forall err <- errs :: !err.UndefinedVariable?
    ensures UndefinedReported(errs) == []
    decreases |errs|
  {
    if errs != [] {
      NoUndefinedReported(errs[1..]);
    }
  }

  /** A binary node's visit, in terms of its operands' visits and the checks on their results. */
  lemma BinaryAnalysis(scopes: seq<Store>, e: Expr)
    requires e.BinaryExpression?
    ensures var (l', el) := AnalyzeExpr(scopes, e.left);
      var (r', er) := AnalyzeExpr(scopes, e.right);
      AnalyzeExpr(scopes, e) == (BinaryExpression(l', e.op, r', BinaryCheck(l', e.op, r').0), el + er + BinaryCheck(l', e.op, r').1)
  {
  }

  /** Each unbound identifier occurrence is reported exactly once, in walk order; no other error names a variable. */
  lemma {:induction false} UndefinedErrorsMatchUnboundUses(scopes: seq<Store>, e: Expr)
    ensures UndefinedReported(AnalyzeExpr(scopes, e).1) == Unbound(scopes, e)
  {
    match e
    case IdentifierExpr(n, _) =>
      assert UndefinedReported([UndefinedVariable(n)]) == [n];
    case BinaryExpression(l, op, r, ty) =>
      var el, er := AnalyzeExpr(scopes, l).1, AnalyzeExpr(scopes, r).1;
      var checks := BinaryCheck(AnalyzeExpr(scopes, l).0, op, AnalyzeExpr(scopes, r).0).1;
      UndefinedErrorsMatchUnboundUses(scopes, l);
      UndefinedErrorsMatchUnboundUses(scopes, r);
      UndefinedReportedAppend(el + er, checks);
      UndefinedReportedAppend(el, er);
      NoUndefinedReported(checks);
    case _ =>
  }

  /**
   * The binary rule: both operands are visited first (left, then right) and
   * their errors come first; then the operator check, then the division check.
   */
  lemma BinaryTyping(scopes: seq<Store>, l: Expr, op: Kind, r: Expr, ty: Kind)
    ensures var (e', errs) := AnalyzeExpr(scopes, BinaryExpression(l, op, r, ty));
      var (l', el) := AnalyzeExpr(scopes, l);
      var (r', er) := AnalyzeExpr(scopes, r);
      var lt, rt := OperandType(l'), OperandType(r');
      var zero := op == Slash && IsZeroLiteral(r);
      && e'.left == l' && e'.right == r'
      && errs[..|el| + |er|] == el + er
      && (lt == Illegal || rt == Illegal ==> errs == el + er + (if zero then [DivisionByZero] else []))
      && (lt != Illegal && rt != Illegal && (lt != Int || rt != Int) ==>
            errs == el + er + [OperandsNotInteger(op)] + (if zero then [DivisionByZero] else []))
      && (e'.ty == Int <==> lt == Int && rt == Int && !zero)
      && (zero ==> e'.ty == Illegal && errs[|errs| - 1] == DivisionByZero)
  {
    BinaryAnalysis(scopes, BinaryExpression(l, op, r, ty));
    var (r', _) := AnalyzeExpr(scopes, r);
    assert IsZeroLiteral(r') <==> IsZeroLiteral(r);
  }

  /** Analysing an annotated tree again changes nothing and reports the same errors. */
  lemma {:induction false} AnalysisIsIdempotent(scopes: seq<Store>, e: Expr)
    ensures AnalyzeExpr(scopes, AnalyzeExpr(scopes, e).0) == AnalyzeExpr(scopes, e)
  {
    match e
    case BinaryExpression(l, op, r, _) =>
      AnalysisIsIdempotent(scopes, l);
      AnalysisIsIdempotent(scopes, r);
    case _ =>
  }

  /** `true + 1` comes out ILLEGAL without any error: a boolean operand is not among the operand kinds the check reads. */
  lemma BooleanOperandIsSilentlyIllegal(scopes: seq<Store>)
    ensures AnalyzeExpr(scopes, BinaryExpression(BooleanLiteral(true, Bool), Plus, IntegerLiteral(1, Int), Illegal))
         == (BinaryExpression(BooleanLiteral(true, Bool), Plus, IntegerLiteral(1, Int), Illegal), [])
  {
    assert AnalyzeExpr(scopes, BooleanLiteral(true, Bool)) == (BooleanLiteral(true, Bool), []);
    assert AnalyzeExpr(scopes, IntegerLiteral(1, Int)) == (IntegerLiteral(1, Int), []);
    assert BinaryType(Illegal, Int, Plus) == (Illegal, []);
    assert OperandType(BooleanLiteral(true, Bool)) == Illegal;
    var none: seq<SemanticError> := [];
    assert none + none + none + none == none;
  }

  // ---------------------------------------------------------------------
  // Statements and the program

  /** The entry an assignment defines for a new name: a variable declared INT. */
  function IntEntry(name: string): SymbolEntry {
    SymbolEntry(name, SymVar, Int)
  }

  /** The visit of one statement: the annotated statement, the new stores and the errors appended. */
  function AnalyzeStmt(scopes: seq<Store>, s: Stmt): (r: (Stmt, seq<Store>, seq<SemanticError>))
    requires scopes != []
    ensures |r.1| == |scopes| && r.1[1..] == scopes[1..]
    ensures forall err <- r.2 :: !err.DefineFailed?
    ensures forall n :: (Lookup(r.1, n) ==
      if Lookup(scopes, n).None? && s.AssignmentStatement? && s.name == n then Some(IntEntry(n)) else Lookup(scopes, n))
  {
    match s
    case ExpressionStatement(e) =>
      var (e', errs) := AnalyzeExpr(scopes, e);
      (ExpressionStatement(e'), scopes, errs)
    case PrintStatement(e) =>
      var (e', errs) := AnalyzeExpr(scopes, e);
      (PrintStatement(e'), scopes, errs)
    case AssignmentStatement(name, targetTy, v) =>
      var (v', errs) := AnalyzeExpr(scopes, v);
      var (scopes', errsDefine) :=
        if Lookup(scopes, name).None? then
          var (ok, scopes') := DefineInScopes(scopes, name, IntEntry(name));
          (scopes', if ok then [] else [DefineFailed(name)])
        else (scopes, []);
      var targetTy' := if v'.ty == Illegal then Illegal else targetTy;
      (AssignmentStatement(name, targetTy', v'), scopes', errs + errsDefine)
  }

  /** An assignment's target becomes ILLEGAL exactly when its value resolved to ILLEGAL; otherwise it keeps its type. */
  lemma AssignmentTargetType(scopes: seq<Store>, name: string, targetTy: Kind, v: Expr)
    requires scopes != []
    ensures var (s', _, errs) := AnalyzeStmt(scopes, AssignmentStatement(name, targetTy, v));
      && s'.AssignmentStatement? && s'.name == name
      && s'.value == AnalyzeExpr(scopes, v).0
      && s'.targetTy == (if AnalyzeExpr(scopes, v).0.ty == Illegal then Illegal else targetTy)
      && errs == AnalyzeExpr(scopes, v).1
  {
  }

  /** `visit(Program&)`: every statement in order, each seeing the scopes the previous ones left. */
  function AnalyzeStmts(scopes: seq<Store>, stmts: seq<Stmt>): (r: (seq<Stmt>, seq<Store>, seq<SemanticError>))
    requires scopes != []
    ensures |r.0| == |stmts|
    ensures |r.1| == |scopes| && r.1[1..] == scopes[1..]
    ensures forall err <- r.2 :: !err.DefineFailed?
    decreases |stmts|
  {
    if stmts == [] then ([], scopes, [])
    else
      var (s', scopes1, errs1) := AnalyzeStmt(scopes, stmts[0]);
      var (rest, scopes2, errs2) := AnalyzeStmts(scopes1, stmts[1..]);
      ([s'] + rest, scopes2, errs1 + errs2)
  }

  /** Analysing `a + b` is analysing `a`, then `b` in the scopes `a` left; the errors are concatenated in order. */
  lemma OneStatement(scopes: seq<Store>, s: Stmt)
    requires scopes != []
    ensures AnalyzeStmts(scopes, [s]) == ([AnalyzeStmt(scopes, s).0], AnalyzeStmt(scopes, s).1, AnalyzeStmt(scopes, s).2)
  {
    var (s', scopes1, errs1) := AnalyzeStmt(scopes, s);
    assert [s][0] == s && [s][1..] == [];
    assert AnalyzeStmts(scopes1, []) == ([], scopes1, []);
    assert [s'] + [] == [s'] && errs1 + [] == errs1;
  }

  lemma {:induction false} AnalysisComposes(scopes: seq<Store>, a: seq<Stmt>, b: seq<Stmt>)
    requires scopes != []
    ensures var (a', scopesA, errsA) := AnalyzeStmts(scopes, a);
      var (b', scopesB, errsB) := AnalyzeStmts(scopesA, b);
      AnalyzeStmts(scopes, a + b) == (a' + b', scopesB, errsA + errsB)
    decreases |a|
  {
    if a == [] {
      assert a + b == b;
      var (b', scopesB, errsB) := AnalyzeStmts(scopes, b);
      assert [] + b' == b' && [] + errsB == errsB;
    } else {
      assert (a + b)[0] == a[0] && (a + b)[1..] == a[1..] + b;
      var (s', scopes1, errs1) := AnalyzeStmt(scopes, a[0]);
      var (rest, scopesA, errsRest) := AnalyzeStmts(scopes1, a[1..]);
      var (b', scopesB, errsB) := AnalyzeStmts(scopesA, b);
      AnalysisComposes(scopes1, a[1..], b);
      assert AnalyzeStmts(scopes1, a[1..] + b) == (rest + b', scopesB, errsRest + errsB);
      assert [s'] + (rest + b') == ([s'] + rest) + b';
      assert errs1 + (errsRest + errsB) == (errs1 + errsRest) + errsB;
    }
  }

  /** The names some statement of the list assigns to. */
  function AssignedNames(stmts: seq<Stmt>): set<string> {
    set i | 0 <= i < |stmts| && stmts[i].AssignmentStatement? :: stmts[i].name
  }

  /**
   * After a program, a name bound before keeps its binding (reassignment
   * never changes a declared type); a name first bound by an assignment is
   * a variable declared INT, whatever its value's type; others stay unbound.
   */
  lemma {:induction false} BindingsAfterAnalysis(scopes: seq<Store>, stmts: seq<Stmt>, n: string)
    requires scopes != []
    ensures Lookup(AnalyzeStmts(scopes, stmts).1, n) ==
      if Lookup(scopes, n).Some? then Lookup(scopes, n)
      else if n in AssignedNames(stmts) then Some(IntEntry(n))
      else None
    decreases |stmts|
  {
    if stmts != [] {
      var (_, scopes1, _) := AnalyzeStmt(scopes, stmts[0]);
      BindingsAfterAnalysis(scopes1, stmts[1..], n);
      assert AssignedNames(stmts) == AssignedNames(stmts[..1]) + AssignedNames(stmts[1..]) by {
        forall x | x in AssignedNames(stmts)
          ensures x in AssignedNames(stmts[..1]) + AssignedNames(stmts[1..])
        {
          var i :| 0 <= i < |stmts| && stmts[i].AssignmentStatement? && stmts[i].name == x;
          if i > 0 { assert stmts[1..][i - 1] == stmts[i]; }
        }
        forall x | x in AssignedNames(stmts[1..])
          ensures x in AssignedNames(stmts)
        {
          var i :| 0 <= i < |stmts[1..]| && stmts[1..][i].AssignmentStatement? && stmts[1..][i].name == x;
          assert stmts[i + 1] == stmts[1..][i];
        }
      }
    }
  }

  lemma AppendRegroups<T>(a: seq<T>, b: seq<T>, c: seq<T>, d: seq<T>, e: seq<T>)
    ensures a + b + c + d + e == a + (b + c + d + e)
    ensures e == [] ==> a + b + c + d == a + (b + c + d)
  {
    assert b + c + d + e == b + (c + (d + e));
  }

  // ---------------------------------------------------------------------
  // The visitor

  class SemanticAnalyzer {
    var currentScope: SymbolTable
    var errors: seq<SemanticError>
    ghost var Repr: set<object>

    ghost predicate Valid()
      reads this`Repr, this`currentScope, currentScope, currentScope.Repr
    {
      && this in Repr && currentScope in Repr
      && currentScope.Repr <= Repr && this !in currentScope.Repr
      && Repr == {this} + currentScope.Repr
      && currentScope.Valid()
    }

    /** The stores of the current scope chain, innermost first. */
    ghost function Scopes(): seq<Store>
      reads this`Repr, this`currentScope, currentScope, currentScope.Repr
      requires Valid()
    {
      currentScope.Stores
    }

    /** `SemanticAnalyzer()`: one empty global scope, no errors. */
    constructor ()
      ensures Valid() && fresh(Repr)
      ensures Scopes() == [map[]] && errors == []
    {
      var table := new SymbolTable(null);
      currentScope := table;
      errors := [];
      Repr := {this} + table.Repr;
    }

    /** `analyze`: visit the program in the current (global) scope. */
    method Analyze(program: Program) returns (annotated: Program)
      modifies Repr
      requires Valid()
      ensures Valid() && Repr == old(Repr)
      ensures var (stmts, scopes, errs) := AnalyzeStmts(old(Scopes()), program.statements);
        annotated == Program(stmts) && Scopes() == scopes && errors == old(errors) + errs
    {
      annotated := VisitProgram(program);
    }

    /** `visit(Program&)`: the statements in order, with no early exit. */
    method VisitProgram(program: Program) returns (annotated: Program)
      modifies Repr
      requires Valid()
      ensures Valid() && Repr == old(Repr)
      ensures var (stmts, scopes, errs) := AnalyzeStmts(old(Scopes()), program.statements);
        annotated == Program(stmts) && Scopes() == scopes && errors == old(errors) + errs
    {
      var stmts := program.statements;
      var done: seq<Stmt> := [];
      var i := 0;
      while i < |stmts|
        invariant 0 <= i <= |stmts|
        invariant Valid() && Repr == old(Repr)
        invariant var (prefix, scopes, errs) := AnalyzeStmts(old(Scopes()), stmts[..i]);
          done == prefix && Scopes() == scopes && errors == old(errors) + errs
      {
        done := VisitNext(old(Scopes()), old(errors), stmts[..i], stmts[i], done);
        assert stmts[..i + 1] == stmts[..i] + [stmts[i]];
        i := i + 1;
      }
      assert stmts[..i] == stmts;
      annotated := Program(done);
    }

    /** One round of the statement loop of `visit(Program&)`: the analysis of `prefix` is extended by `s`. */
    method VisitNext(ghost scopes0: seq<Store>, ghost errors0: seq<SemanticError>, ghost prefix: seq<Stmt>, s: Stmt, done: seq<Stmt>)
      returns (done': seq<Stmt>)
      modifies Repr
      requires Valid() && scopes0 != []
      requires var (p, scopes, errs) := AnalyzeStmts(scopes0, prefix);
        done == p && Scopes() == scopes && errors == errors0 + errs
      ensures Valid() && Repr == old(Repr)
      ensures var (p, scopes, errs) := AnalyzeStmts(scopes0, prefix + [s]);
        done' == p && Scopes() == scopes && errors == errors0 + errs
    {
      ghost var before := Scopes();
      ghost var errsPrefix := AnalyzeStmts(scopes0, prefix).2;
      var s' := VisitStatement(s);
      AnalysisComposes(scopes0, prefix, [s]);
      OneStatement(before, s);
      AppendRegroups(errors0, errsPrefix, AnalyzeStmt(before, s).2, [], []);
      done' := done + [s'];
    }

    /** The `accept` dispatch on a statement. */
    method VisitStatement(s: Stmt) returns (s': Stmt)
      modifies Repr
      requires Valid()
      ensures Valid() && Repr == old(Repr)
      ensures var (stmt, scopes, errs) := AnalyzeStmt(old(Scopes()), s);
        s' == stmt && Scopes() == scopes && errors == old(errors) + errs
    {
      match s {
        case AssignmentStatement(_, _, _) => s' := VisitAssignment(s);
        case ExpressionStatement(_) => s' := VisitExpressionStatement(s);
        case PrintStatement(_) => s' := VisitPrintStatement(s);
      }
    }

    /** `visit(AssignmentStatement&)`: value first, then a first-time definition as INT. */
    method VisitAssignment(s: Stmt) returns (s': Stmt)
      modifies Repr
      requires Valid() && s.AssignmentStatement?
      ensures Valid() && Repr == old(Repr)
      ensures var (stmt, scopes, errs) := AnalyzeStmt(old(Scopes()), s);
        s' == stmt && Scopes() == scopes && errors == old(errors) + errs
    {
      var name, targetTy := s.name, s.targetTy;
      var value := VisitExpr(s.value);
      var valueType := value.ty;
      var entry := currentScope.Resolve(name);
      if entry.None? {
        var ok := currentScope.Define(name, SymVar, Int);
        errors := errors + if ok then [] else [DefineFailed(name)];
      }
      if valueType == Illegal {
        targetTy := Illegal;
      }
      s' := AssignmentStatement(name, targetTy, value);
    }

    /** `visit(ExpressionStatement&)`. */
    method VisitExpressionStatement(s: Stmt) returns (s': Stmt)
      modifies this`errors
      requires Valid() && s.ExpressionStatement?
      ensures Valid() && Repr == old(Repr) && currentScope == old(currentScope)
      ensures var (stmt, scopes, errs) := AnalyzeStmt(old(Scopes()), s);
        s' == stmt && Scopes() == scopes && errors == old(errors) + errs
    {
      var e := VisitExpr(s.expression);
      s' := ExpressionStatement(e);
    }

    /** `visit(PrintStatement&)`. */
    method VisitPrintStatement(s: Stmt) returns (s': Stmt)
      modifies this`errors
      requires Valid() && s.PrintStatement?
      ensures Valid() && Repr == old(Repr) && currentScope == old(currentScope)
      ensures var (stmt, scopes, errs) := AnalyzeStmt(old(Scopes()), s);
        s' == stmt && Scopes() == scopes && errors == old(errors) + errs
    {
      var e := VisitExpr(s.expression);
      s' := PrintStatement(e);
    }

    /**
     * The `accept` dispatch on an expression. String and character literals
     * have no `visit` overload and come back unchanged.
     */
    method VisitExpr(e: Expr) returns (e': Expr)
      modifies this`errors
      requires Valid()
      ensures Valid() && Repr == old(Repr) && currentScope == old(currentScope)
      ensures (e', errors) == (AnalyzeExpr(Scopes(), e).0, old(errors) + AnalyzeExpr(Scopes(), e).1)
      decreases e, 2
    {
      match e {
        case BooleanLiteral(_, _) => e' := VisitBooleanLiteral(e);
        case IdentifierExpr(_, _) => e' := VisitIdentifier(e);
        case IntegerLiteral(_, _) => e' := VisitIntegerLiteral(e);
        case BinaryExpression(_, _, _, _) => e' := VisitBinary(e);
        case StringLiteral(_, _) => e' := e;
        case CharLiteral(_, _) => e' := e;
      }
      assert errors == old(errors) + AnalyzeExpr(Scopes(), e).1;
    }

    /** `visit(BooleanLiteral&)`. */
    method VisitBooleanLiteral(e: Expr) returns (e': Expr)
      requires Valid() && e.BooleanLiteral?
      ensures e' == AnalyzeExpr(Scopes(), e).0 && AnalyzeExpr(Scopes(), e).1 == []
    {
      e' := BooleanLiteral(e.boolValue, Bool);
    }

    /** `visit(IdentifierExpr&)`. */
    method VisitIdentifier(e: Expr) returns (e': Expr)
      modifies this`errors
      requires Valid() && e.IdentifierExpr?
      ensures Valid() && Repr == old(Repr) && currentScope == old(currentScope)
      ensures (e', errors) == (AnalyzeExpr(Scopes(), e).0, old(errors) + AnalyzeExpr(Scopes(), e).1)
    {
      var name := e.name;
      var entry := currentScope.Resolve(name);
      assert entry == Lookup(Scopes(), name);
      if entry.None? {
        errors := errors + [UndefinedVariable(name)];
        e' := IdentifierExpr(name, Illegal);
      } else {
        e' := IdentifierExpr(name, entry.value.declaredTokenType);
      }
      assert errors == old(errors) + AnalyzeExpr(Scopes(), e).1;
    }

    /** `visit(IntegerLiteral&)`: nothing to do. */
    method VisitIntegerLiteral(e: Expr) returns (e': Expr)
      requires Valid() && e.IntegerLiteral?
      ensures e' == AnalyzeExpr(Scopes(), e).0 && AnalyzeExpr(Scopes(), e).1 == []
    {
      e' := e;
    }

    /** `visit(BinaryExpression&)`. */
    method VisitBinary(e: Expr) returns (e': Expr)
      modifies this`errors
      requires Valid() && e.BinaryExpression?
      ensures Valid() && Repr == old(Repr) && currentScope == old(currentScope)
      ensures (e', errors) == (AnalyzeExpr(Scopes(), e).0, old(errors) + AnalyzeExpr(Scopes(), e).1)
      decreases e, 1
    {
      ghost var scopes := Scopes();
      var left, right := VisitOperands(e);
      var ty := CheckOperands(left, e.op, right);
      e' := BinaryExpression(left, e.op, right, ty);
      BinaryAnalysis(scopes, e);
      AppendRegroups(old(errors), AnalyzeExpr(scopes, e.left).1, AnalyzeExpr(scopes, e.right).1, BinaryCheck(left, e.op, right).1, []);
      assert Scopes() == scopes;
    }

    /** The operand visits of `visit(BinaryExpression&)`: left, then right. */
    method VisitOperands(e: Expr) returns (left: Expr, right: Expr)
      modifies this`errors
      requires Valid() && e.BinaryExpression?
      ensures Valid() && Scopes() == old(Scopes())
      ensures left == AnalyzeExpr(Scopes(), e.left).0 && right == AnalyzeExpr(Scopes(), e.right).0
      ensures errors == old(errors) + AnalyzeExpr(Scopes(), e.left).1 + AnalyzeExpr(Scopes(), e.right).1
      decreases e, 0
    {
      left := VisitExpr(e.left);
      right := VisitExpr(e.right);
    }

    /** The checks `visit(BinaryExpression&)` makes once both operands are visited. */
    method CheckOperands(left: Expr, op: Kind, right: Expr) returns (ty: Kind)
      modifies this`errors
      requires Valid()
      ensures Valid() && Repr == old(Repr) && currentScope == old(currentScope)
      ensures (ty, errors) == (BinaryCheck(left, op, right).0, old(errors) + BinaryCheck(left, op, right).1)
    {
      var leftType := OperandType(left);
      var rightType := OperandType(right);
      if leftType == Illegal || rightType == Illegal {
        ty := Illegal;
      } else if leftType != Int || rightType != Int {
        errors := errors + [OperandsNotInteger(op)];
        ty := Illegal;
      } else {
        ty := Int;
      }
      ghost var checked := errors;
      assert checked == old(errors) + BinaryType(leftType, rightType, op).1;
      if op == Slash && right.IntegerLiteral? && right.intValue == 0 {
        errors := errors + [DivisionByZero];
        ty := Illegal;
        assert errors == old(errors) + (BinaryType(leftType, rightType, op).1 + [DivisionByZero]);
      }
    }

    /** `enterScope`: a fresh empty scope in front of the current chain. */
    method EnterScope()
      modifies this
      requires Valid()
      ensures Valid() && fresh(Repr - old(Repr))
      ensures Scopes() == [map[]] + old(Scopes()) && errors == old(errors)
    {
      currentScope := new SymbolTable(currentScope);
      Repr := {this} + currentScope.Repr;
    }

    /** `exitScope`: drop the innermost scope, unless it is the only one. */
    method ExitScope()
      modifies this, currentScope
      requires Valid()
      ensures Valid() && Repr <= old(Repr)
      ensures Scopes() == if |old(Scopes())| > 1 then old(Scopes())[1..] else old(Scopes())
      ensures errors == old(errors)
    {
      if currentScope.GetOuterPtr() != null {
        var outer := currentScope.PopOuterScope();
        currentScope := outer;
        Repr := {this} + currentScope.Repr;
      }
    }
  }
}
