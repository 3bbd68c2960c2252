/**
 * The x86 code generator of src/Codegen.cpp.
 *
 * Every expression is compiled for a stack machine: its code leaves its
 * value pushed on the stack. Variables live in 8-byte frame slots below
 * `rbp`, allocated from a counter in the order of their first assignment.
 *
 * The output is modelled as a list of instructions, each rendered to the
 * exact line the source emits; pushes and pops are kept apart from other
 * lines so the stack discipline can be stated. `GenExpr`, `GenStmt` and
 * `GenStmts` say what each `visit` overload appends, and the class
 * `CodeGenerator` is proved to append exactly that.
 */
module CodeGen {
  import opened Wrappers
  import opened Tokens
  import opened Ast

  /** `WORD_SIZE`: every variable takes one 8-byte slot. */
  const WordSize := 8

  // ---------------------------------------------------------------------
  // Instructions and their text

  datatype Instr =
    | Push(operand: string)   // "  push <operand>"
    | Pop(register: string)   // "  pop <register>"
    | Text(line: string)      // any other line, verbatim

  function Line(i: Instr): string {
    match i
    case Push(x) => "  push " + x
    case Pop(r) => "  pop " + r
    case Text(t) => t
  }

  /** The text `emit` builds: each line followed by a newline. */
  function Render(code: seq<Instr>): string {
    if code == [] then "" else Line(code[0]) + "\n" + Render(code[1..])
  }

  lemma {:induction false} RenderAppend(a: seq<Instr>, b: seq<Instr>)
    ensures Render(a + b) == Render(a) + Render(b)
    decreases |a|
  {
    if a == [] {
      assert a + b == b;
    } else {
      assert (a + b)[0] == a[0] && (a + b)[1..] == a[1..] + b;
      RenderAppend(a[1..], b);
    }
  }

  function DigitChar(d: nat): char
    requires d < 10
  {
    "0123456789"[d]
  }

  function NatToString(n: nat): string
    decreases n
  {
    if n < 10 then [DigitChar(n)] else NatToString(n / 10) + [DigitChar(n % 10)]
  }

  /** `operator<<` on an `int`: decimal digits, with a leading `-` for a negative value. */
  function IntToString(n: int): string {
    if n < 0 then "-" + NatToString(-n) else NatToString(n)
  }

  /** The memory operand of a frame slot. */
  function SlotOperand(offset: int): string {
    "QWORD PTR [rbp - " + IntToString(offset) + "]"
  }

  const Header: seq<Instr> := [Text(".intel_syntax noprefix"), Text(".global _start"), Text(".text")]
  const Prologue: seq<Instr> := [Text("main:"), Text(" push rbp"), Text(" mov rbp, rsp")]
  const Epilogue: seq<Instr> :=
    [Text(" mov rax, 60"), Text(" xor rdi, rdi"), Text(" syscall"),
     Text("_start:"), Text(" call main"), Text(" mov rax, 60"), Text(" xor rdi, rdi"), Text(" syscall")]

  // ---------------------------------------------------------------------
  // Errors

  datatype CodegenError =
    | NullProgram
    | UnknownStatement
    | UnknownExpression
    | UndeclaredVariable(name: string)
    | UnsupportedOperator(op: Kind)
    | AlreadyDeclared(name: string)
    | AllocationFailed(name: string)

  /** What `error` puts in front of every message. */
  const ErrorPrefix := "Code Generation Error: "

  /** `tokenTypeStrings`: the name of a token kind; kinds the table lacks are spelled as in the enum. */
  function KindName(k: Kind): string {
    match k
    case Illegal => "ILLEGAL"
    case EndOfFile => "EOF"
    case Identifier => "IDENTIFIER"
    case Int => "INT"
    case Assign => "ASSIGN"
    case Plus => "PLUS"
    case Minus => "MINUS"
    case Asterisk => "ASTERISK"
    case Slash => "SLASH"
    case Semicolon => "SEMICOLON"
    case LParen => "LPAREN"
    case RParen => "RPAREN"
    case Print => "PRINT"
    case True => "TRUE"
    case False => "FALSE"
    case String => "STRING"
    case Char => "CHAR"
    case Hex => "HEX"
    case Octal => "OCTAL"
    case CommentSingleLine => "COMMENT_SINGLE_LINE"
    case CommentMultiLine => "COMMENT_MULTI_LINE"
    case Bool => "BOOL"
  }

  /** The message each error carries, as passed to `error`. */
  function Message(err: CodegenError): string {
    match err
    case NullProgram => "Cannot generate code for null program AST."
    case UnknownStatement => "Unknown statement type encountered during code generation."
    case UnknownExpression => "Unknown expression type encountered during code generation."
    case UndeclaredVariable(n) => "Undeclared variable: " + n + " used."
    case UnsupportedOperator(op) => "Unsupported binary operator: " + KindName(op)
    case AlreadyDeclared(n) => "Variable '" + n + "' already declared. (Re-assignment is fine, but re-definition isn't explicit here)"
    case AllocationFailed(n) => "Failed to allocate or find variable: " + n
  }

  /** `error`: the text stored for an error; it always starts with the prefix and ends with the message. */
  function ErrorText(err: CodegenError): (s: string)
    ensures |s| == |ErrorPrefix| + |Message(err)|
    ensures s[..|ErrorPrefix|] == ErrorPrefix && s[|ErrorPrefix|..] == Message(err)
  {
    ErrorPrefix + Message(err)
  }

  // ---------------------------------------------------------------------
  // What each visit appends

  predicate SupportedOperator(op: Kind) {
    op == Plus || op == Minus || op == Asterisk || op == Slash
  }

  /** The `switch` on the operator: one instruction, two for division, none for anything else. */
  function OperatorCode(op: Kind): (code: seq<Instr>)
    ensures |code| > 0 <==> SupportedOperator(op)
  {
    match op
    case Plus => [Text("  add rax, rbx")]
    case Minus => [Text("  sub rax, rbx")]
    case Asterisk => [Text("  imul rax, rbx")]
    case Slash => [Text("  xor rdx, rdx"), Text("  idiv rbx")]
    case _ => []
  }

  /** What follows the operands: both popped, combined into `rax`, and the result pushed. */
  function BinaryTail(op: Kind): seq<Instr> {
    [Pop("rax"), Pop("rbx")] + OperatorCode(op) + [Push("rax")]
  }

  /** `visit(const Expression*)`: the code and the errors for one expression; the slot table is only read. */
  function GenExpr(table: map<string, int>, e: Expr): (r: (seq<Instr>, seq<CodegenError>))
  {
    match e
    case IntegerLiteral(v, _) => ([Push(IntToString(v))], [])
    case IdentifierExpr(n, _) =>
      if n in table then ([Push(SlotOperand(table[n]))], [])
      else ([Push("0")], [UndeclaredVariable(n)])
    case BinaryExpression(l, op, rt, _) =>
      var (rightCode, rightErrors) := GenExpr(table, rt);
      var (leftCode, leftErrors) := GenExpr(table, l);
      (rightCode + leftCode + BinaryTail(op),
       rightErrors + leftErrors + (if SupportedOperator(op) then [] else [UnsupportedOperator(op)]))
    case _ => ([], [UnknownExpression])
  }

  /** `defineVariable`: a new name gets the next slot; a known one is an error and changes nothing. */
  function DefineSlot(table: map<string, int>, counter: int, name: string): (r: (map<string, int>, int, seq<CodegenError>))
  {
    if name in table then (table, counter, [AlreadyDeclared(name)])
    else (table[name := counter + WordSize], counter + WordSize, [])
  }

  /** `visit(const Statement*)`: the code, the new slot table and counter, and the errors for one statement. */
  function GenStmt(table: map<string, int>, counter: int, s: Stmt): (r: (seq<Instr>, map<string, int>, int, seq<CodegenError>))
    ensures forall err <- r.3 :: !err.AlreadyDeclared? && !err.AllocationFailed?
  {
    match s
    case AssignmentStatement(name, _, v) =>
      var (valueCode, valueErrors) := GenExpr(table, v);
      var (table1, counter1, defineErrors) := if name in table then (table, counter, []) else DefineSlot(table, counter, name);
      var (storeCode, storeErrors) :=
        if name in table1 then ([Text("  mov " + SlotOperand(table1[name]) + ", rax")], [])
        else ([], [AllocationFailed(name)]);
      assert forall err <- valueErrors :: !err.AlreadyDeclared? && !err.AllocationFailed? by {
        GenExprErrorKinds(table, v);
      }
      (valueCode + [Pop("rax")] + storeCode, table1, counter1, valueErrors + defineErrors + storeErrors)
    case ExpressionStatement(e) =>
      var (code, errs) := GenExpr(table, e);
      GenExprErrorKinds(table, e);
      (code + [Pop("rax")], table, counter, errs)
    case PrintStatement(_) => ([], table, counter, [UnknownStatement])
  }

  lemma {:induction false} GenExprErrorKinds(table: map<string, int>, e: Expr)
    ensures forall err <- GenExpr(table, e).1 :: !err.AlreadyDeclared? && !err.AllocationFailed?
  {
    match e
    case BinaryExpression(l, _, r, _) =>
      GenExprErrorKinds(table, l);
      GenExprErrorKinds(table, r);
    case _ =>
  }

  /** `visit(const Program*)`: the statements in order, each seeing the slots the previous ones allocated. */
  function GenStmts(table: map<string, int>, counter: int, stmts: seq<Stmt>): (r: (seq<Instr>, map<string, int>, int, seq<CodegenError>))
    decreases |stmts|
  {
    if stmts == [] then ([], table, counter, [])
    else
      var (code1, table1, counter1, errs1) := GenStmt(table, counter, stmts[0]);
      var (code2, table2, counter2, errs2) := GenStmts(table1, counter1, stmts[1..]);
      (code1 + code2, table2, counter2, errs1 + errs2)
  }

  /**
   * What a fresh generator returns for a program and the errors it records:
   * for a null program one error and the empty string; otherwise the header,
   * `main` with its prologue, the statements' code, the exit sequence and
   * the `_start` stub.
   */
  function Compile(program: Option<Program>): (r: (string, seq<CodegenError>))
  {
    match program
    case None => ("", [NullProgram])
    case Some(p) =>
      var (body, _, _, errs) := GenStmts(map[], 0, p.statements);
      (Render(Header + Prologue + body + Epilogue), errs)
  }

  /**
   * The text of a program: the directives and `main`'s prologue, then the
   * statements' lines, then the exit system call and the `_start` stub.
   */
  lemma CompiledTextLayout(p: Program)
    ensures var body := GenStmts(map[], 0, p.statements).0;
      Compile(Some(p)).0 ==
        Joined([".intel_syntax noprefix", ".global _start", ".text"])
        + Joined(["main:", " push rbp", " mov rbp, rsp"])
        + Render(body)
        + Joined([" mov rax, 60", " xor rdi, rdi", " syscall", "_start:", " call main", " mov rax, 60", " xor rdi, rdi", " syscall"])
  {
    var body := GenStmts(map[], 0, p.statements).0;
    RenderAppend(Header + Prologue + body, Epilogue);
    RenderAppend(Header + Prologue, body);
    RenderAppend(Header, Prologue);
    HeaderText();
    PrologueText();
    EpilogueText();
  }

  lemma HeaderText()
    ensures Render(Header) == Joined([".intel_syntax noprefix", ".global _start", ".text"])
  {
    RenderTexts([".intel_syntax noprefix", ".global _start", ".text"]);
    assert Header == Texts([".intel_syntax noprefix", ".global _start", ".text"]);
  }

  lemma PrologueText()
    ensures Render(Prologue) == Joined(["main:", " push rbp", " mov rbp, rsp"])
  {
    RenderTexts(["main:", " push rbp", " mov rbp, rsp"]);
    assert Prologue == Texts(["main:", " push rbp", " mov rbp, rsp"]);
  }

  lemma EpilogueText()
    ensures Render(Epilogue) == Joined([" mov rax, 60", " xor rdi, rdi", " syscall", "_start:", " call main", " mov rax, 60", " xor rdi, rdi", " syscall"])
  {
    RenderTexts([" mov rax, 60", " xor rdi, rdi", " syscall", "_start:", " call main", " mov rax, 60", " xor rdi, rdi", " syscall"]);
    assert Epilogue == Texts([" mov rax, 60", " xor rdi, rdi", " syscall", "_start:", " call main", " mov rax, 60", " xor rdi, rdi", " syscall"]);
  }

  function Texts(lines: seq<string>): seq<Instr> {
    seq(|lines|, i requires 0 <= i < |lines| => Text(lines[i]))
  }

  /** Lines of text, each followed by a newline. */
  function Joined(lines: seq<string>): string {
    if lines == [] then "" else lines[0] + "\n" + Joined(lines[1..])
  }

  lemma {:induction false} RenderTexts(lines: seq<string>)
    ensures Render(Texts(lines)) == Joined(lines)
    decreases |lines|
  {
    if lines != [] {
      assert Texts(lines)[1..] == Texts(lines[1..]);
      RenderTexts(lines[1..]);
    }
  }

  // ---------------------------------------------------------------------
  // Frame slots

  /**
   * The slot table of a generator that has allocated the names of `order`,
   * in that order: the i-th gets offset 8 * (i + 1), and the counter is the
   * last offset handed out.
   */
  ghost predicate SlotsFor(table: map<string, int>, counter: int, order: seq<string>) {
    && counter == WordSize * |order|
    && (forall i, j :: 0 <= i < j < |order| ==> order[i] != order[j])
    && table.Keys == (set n | n in order)
    && (forall i :: 0 <= i < |order| ==> order[i] in table && table[order[i]] == WordSize * (i + 1))
  }

  /** Slots of distinct names are distinct, and a name allocated later lies deeper in the frame. */
  lemma SlotsAreDistinct(table: map<string, int>, counter: int, order: seq<string>, i: nat, j: nat)
    requires SlotsFor(table, counter, order) && i < j < |order|
    ensures order[i] in table && order[j] in table
    ensures 0 < table[order[i]] < table[order[j]] <= counter
  {
    assert table[order[i]] == WordSize * (i + 1) && table[order[j]] == WordSize * (j + 1);
  }

  /** The names with a slot are exactly the names allocated. */
  lemma SlotKeys(table: map<string, int>, counter: int, order: seq<string>, name: string)
    requires SlotsFor(table, counter, order)
    ensures name in table <==> name in order
  {
    assert name in table.Keys <==> name in (set n | n in order);
  }

  /** `defineVariable` on a new name appends it to the allocation order; on a known name it changes nothing. */
  lemma DefineSlotExtends(table: map<string, int>, counter: int, order: seq<string>, name: string)
    requires SlotsFor(table, counter, order)
    ensures var (table', counter', errs) := DefineSlot(table, counter, name);
      && (name in order ==> table' == table && counter' == counter && errs == [AlreadyDeclared(name)])
      && (name !in order ==> SlotsFor(table', counter', order + [name]) && errs == [])
  {
    var (table', counter', _) := DefineSlot(table, counter, name);
    SlotKeys(table, counter, order, name);
    if name !in order {
      var order' := order + [name];
      assert table'.Keys == table.Keys + {name};
      forall n
        ensures n in table'.Keys <==> n in (set m | m in order')
      {
        SlotKeys(table, counter, order, n);
        assert n in order' <==> n in order || n == name;
      }
      assert table'.Keys == (set n | n in order');
      forall i | 0 <= i < |order'|
        ensures order'[i] in table' && table'[order'[i]] == WordSize * (i + 1)
      {
        if i < |order| { assert order'[i] == order[i] && order[i] != name; }
      }
    }
  }

  /** The names a list of statements assigns to that `order` lacks, in order of their first assignment. */
  function FirstAssignments(order: seq<string>, stmts: seq<Stmt>): seq<string>
    decreases |stmts|
  {
    if stmts == [] then order
    else
      var order1 := if stmts[0].AssignmentStatement? && stmts[0].name !in order then order + [stmts[0].name] else order;
      FirstAssignments(order1, stmts[1..])
  }

  /**
   * After a list of statements the slot table holds exactly the variables
   * in order of first assignment, at offsets 8, 16, 24, ...; reassignment
   * reuses a slot.
   */
  lemma {:induction false} SlotsFollowFirstAssignment(table: map<string, int>, counter: int, order: seq<string>, stmts: seq<Stmt>)
    requires SlotsFor(table, counter, order)
    ensures var (_, table', counter', _) := GenStmts(table, counter, stmts);
      SlotsFor(table', counter', FirstAssignments(order, stmts))
    decreases |stmts|
  {
    if stmts != [] {
      var s := stmts[0];
      var (_, table1, counter1, _) := GenStmt(table, counter, s);
      var order1 := if s.AssignmentStatement? && s.name !in order then order + [s.name] else order;
      if s.AssignmentStatement? && s.name !in order {
        DefineSlotExtends(table, counter, order, s.name);
        assert SlotsFor(table1, counter1, order1);
      } else if s.AssignmentStatement? {
        SlotKeys(table, counter, order, s.name);
        assert table1 == table && counter1 == counter;
      } else {
        assert table1 == table && counter1 == counter;
      }
      SlotsFollowFirstAssignment(table1, counter1, order1, stmts[1..]);
    }
  }

  /** Every assignment stores through exactly one `mov` into the slot of its target. */
  lemma AssignmentStoresIntoItsSlot(table: map<string, int>, counter: int, name: string, ty: Kind, v: Expr)
    ensures var (code, table', _, _) := GenStmt(table, counter, AssignmentStatement(name, ty, v));
      && name in table'
      && (name in table ==> table' == table)
      && code == GenExpr(table, v).0 + [Pop("rax"), Text("  mov " + SlotOperand(table'[name]) + ", rax")]
  {
  }

  // ---------------------------------------------------------------------
  // The stack discipline

  function Effect(i: Instr): int {
    match i
    case Push(_) => 1
    case Pop(_) => -1
    case Text(_) => 0
  }

  /** The net number of words the code leaves on the stack. */
  function Depth(code: seq<Instr>): int {
    if code == [] then 0 else Effect(code[0]) + Depth(code[1..])
  }

  /** The lowest stack height reached while running the code, relative to its start (never above 0). */
  function LowWater(code: seq<Instr>): int {
    if code == [] then 0
    else
      var rest := Effect(code[0]) + LowWater(code[1..]);
      if rest < 0 then rest else 0
  }

  lemma {:induction false} DepthAppend(a: seq<Instr>, b: seq<Instr>)
    ensures Depth(a + b) == Depth(a) + Depth(b)
    ensures LowWater(a + b) == if Depth(a) + LowWater(b) < LowWater(a) then Depth(a) + LowWater(b) else LowWater(a)
    decreases |a|
  {
    if a == [] {
      assert a + b == b;
    } else {
      assert (a + b)[0] == a[0] && (a + b)[1..] == a[1..] + b;
      DepthAppend(a[1..], b);
    }
  }

  /** The expressions the generator has code for: literals, identifiers, and binary nodes over such. */
  predicate Emits(e: Expr) {
    match e
    case IntegerLiteral(_, _) => true
    case IdentifierExpr(_, _) => true
    case BinaryExpression(l, _, r, _) => Emits(l) && Emits(r)
    case _ => false
  }

  /**
   * The code of an expression the generator supports pushes exactly one
   * word and never pops below the height it started at; an unsupported
   * expression emits no code at all.
   */
  lemma {:induction false} ExpressionPushesOne(table: map<string, int>, e: Expr)
    ensures Emits(e) ==> Depth(GenExpr(table, e).0) == 1 && LowWater(GenExpr(table, e).0) == 0
    ensures !e.IntegerLiteral? && !e.IdentifierExpr? && !e.BinaryExpression? ==> GenExpr(table, e).0 == []
  {
    match e
    case BinaryExpression(l, op, r, _) =>
      if Emits(e) {
        var rc := GenExpr(table, r).0;
        var lc := GenExpr(table, l).0;
        ExpressionPushesOne(table, l);
        ExpressionPushesOne(table, r);
        BinaryTailEffect(op);
        DepthAppend(rc, lc);
        DepthAppend(rc + lc, BinaryTail(op));
      }
    case _ =>
  }

  lemma DepthCons(i: Instr, rest: seq<Instr>)
    ensures Depth([i] + rest) == Effect(i) + Depth(rest)
    ensures LowWater([i] + rest) == if Effect(i) + LowWater(rest) < 0 then Effect(i) + LowWater(rest) else 0
  {
    assert ([i] + rest)[0] == i && ([i] + rest)[1..] == rest;
  }

  /** The operator's own instructions only touch registers. */
  lemma OperatorCodeIsStackNeutral(op: Kind)
    ensures Depth(OperatorCode(op)) == 0 && LowWater(OperatorCode(op)) == 0
  {
    if op == Slash {
      DepthCons(Text("  idiv rbx"), []);
      DepthCons(Text("  xor rdx, rdx"), [Text("  idiv rbx")]);
      assert OperatorCode(op) == [Text("  xor rdx, rdx")] + [Text("  idiv rbx")];
    } else if SupportedOperator(op) {
      DepthCons(OperatorCode(op)[0], []);
      assert OperatorCode(op) == [OperatorCode(op)[0]] + [];
    }
  }

  /** The two pops take the stack two below where the operands left it, and the push brings it back by one. */
  lemma BinaryTailEffect(op: Kind)
    ensures Depth(BinaryTail(op)) == -1 && LowWater(BinaryTail(op)) == -2
  {
    var pops: seq<Instr> := [Pop("rax"), Pop("rbx")];
    var push: seq<Instr> := [Push("rax")];
    assert Depth(pops) == -2 && LowWater(pops) == -2 by {
      DepthCons(Pop("rbx"), []);
      DepthCons(Pop("rax"), [Pop("rbx")]);
      assert [Pop("rbx")] == [Pop("rbx")] + [];
      assert pops == [Pop("rax")] + [Pop("rbx")];
    }
    assert Depth(push) == 1 && LowWater(push) == 0 by {
      DepthCons(Push("rax"), []);
      assert push == [Push("rax")] + [];
    }
    OperatorCodeIsStackNeutral(op);
    DepthAppend(pops, OperatorCode(op));
    DepthAppend(pops + OperatorCode(op), push);
  }

  /** Assignment and expression statements over supported expressions leave the stack as they found it. */
  lemma StatementIsStackNeutral(table: map<string, int>, counter: int, s: Stmt)
    requires s.AssignmentStatement? ==> Emits(s.value)
    requires s.ExpressionStatement? ==> Emits(s.expression)
    ensures var code := GenStmt(table, counter, s).0;
      Depth(code) == 0 && LowWater(code) == 0
  {
    match s
    case AssignmentStatement(name, _, v) =>
      var (code, table', _, _) := GenStmt(table, counter, s);
      var vc := GenExpr(table, v).0;
      var store := [Text("  mov " + SlotOperand(table'[name]) + ", rax")];
      ExpressionPushesOne(table, v);
      DepthAppend(vc, [Pop("rax")]);
      DepthAppend(vc + [Pop("rax")], store);
      assert code == vc + [Pop("rax")] + store;
    case ExpressionStatement(e) =>
      ExpressionPushesOne(table, e);
      DepthAppend(GenExpr(table, e).0, [Pop("rax")]);
    case PrintStatement(_) =>
  }

  // ---------------------------------------------------------------------
  // Errors

  /**
   * The expressions that compile without error when `names` have slots:
   * no unknown node, no unallocated variable, no unsupported operator.
   */
  predicate Clean(names: set<string>, e: Expr) {
    match e
    case IntegerLiteral(_, _) => true
    case IdentifierExpr(n, _) => n in names
    case BinaryExpression(l, op, r, _) => Clean(names, l) && Clean(names, r) && SupportedOperator(op)
    case _ => false
  }

  /** An expression compiles without error exactly when it is clean. */
  lemma {:induction false} NoErrorsIffClean(table: map<string, int>, e: Expr)
    ensures GenExpr(table, e).1 == [] <==> Clean(table.Keys, e)
  {
    match e
    case BinaryExpression(l, op, r, _) =>
      NoErrorsIffClean(table, l);
      NoErrorsIffClean(table, r);
    case _ =>
  }

  /**
   * The programs that compile without error: no print statement, and every
   * expression clean given the variables assigned before it.
   */
  predicate CompilesCleanly(names: set<string>, stmts: seq<Stmt>)
    decreases |stmts|
  {
    stmts == [] ||
    match stmts[0]
    case AssignmentStatement(n, _, v) => Clean(names, v) && CompilesCleanly(names + {n}, stmts[1..])
    case ExpressionStatement(e) => Clean(names, e) && CompilesCleanly(names, stmts[1..])
    case PrintStatement(_) => false
  }

  /** A program compiles without any error exactly when every statement compiles cleanly in turn. */
  lemma {:induction false} NoErrorsIffCompilesCleanly(table: map<string, int>, counter: int, stmts: seq<Stmt>)
    ensures GenStmts(table, counter, stmts).3 == [] <==> CompilesCleanly(table.Keys, stmts)
    decreases |stmts|
  {
    if stmts != [] {
      var s := stmts[0];
      var (_, table1, counter1, errs1) := GenStmt(table, counter, s);
      NoErrorsIffCompilesCleanly(table1, counter1, stmts[1..]);
      match s
      case AssignmentStatement(n, _, v) =>
        NoErrorsIffClean(table, v);
        assert table1.Keys == table.Keys + {n};
        assert errs1 == GenExpr(table, v).1;
      case ExpressionStatement(e) =>
        NoErrorsIffClean(table, e);
        assert table1 == table;
      case PrintStatement(_) =>
    }
  }

  // ---------------------------------------------------------------------
  // The generator

  class CodeGenerator {
    var errors: seq<CodegenError>
    var assembly: seq<Instr>
    var symbolTable: map<string, int>
    var stackOffsetCounter: int

    /** `CodeGenerator()`: the counter at 0 and the three header lines emitted. */
    constructor ()
      ensures errors == [] && assembly == Header && symbolTable == map[] && stackOffsetCounter == 0
      ensures SlotsFor(symbolTable, stackOffsetCounter, [])
    {
      errors := [];
      assembly := Header;
      symbolTable := map[];
      stackOffsetCounter := 0;
    }

    /** `getErrors`: the stored texts, each `Code Generation Error: ` followed by its message. */
    function GetErrors(): (r: seq<string>)
      reads this
      ensures |r| == |errors|
      ensures forall i :: 0 <= i < |r| ==> r[i] == ErrorPrefix + Message(errors[i])
    {
      seq(|errors|, i requires 0 <= i < |errors| reads this => ErrorText(errors[i]))
    }

    /** `emit`. */
    method Emit(i: Instr)
      modifies this
      ensures assembly == old(assembly) + [i]
      ensures errors == old(errors) && symbolTable == old(symbolTable) && stackOffsetCounter == old(stackOffsetCounter)
    {
      assembly := assembly + [i];
    }

    /** `error`. */
    method Error(err: CodegenError)
      modifies this
      ensures errors == old(errors) + [err]
      ensures assembly == old(assembly) && symbolTable == old(symbolTable) && stackOffsetCounter == old(stackOffsetCounter)
    {
      errors := errors + [err];
    }

    /** The function entry `generate` writes before the body: label, frame pointer saved and set. */
    method EmitPrologue()
      modifies this
      ensures assembly == old(assembly) + Prologue
      ensures errors == old(errors) && symbolTable == old(symbolTable) && stackOffsetCounter == old(stackOffsetCounter)
    {
      ghost var start := assembly;
      Emit(Text("main:"));
      Emit(Text(" push rbp"));
      Emit(Text(" mov rbp, rsp"));
      assert assembly == start + Prologue;
    }

    /** What `generate` writes after the body: the exit system call, then `_start` calling `main` and exiting. */
    method EmitEpilogue()
      modifies this
      ensures assembly == old(assembly) + Epilogue
      ensures errors == old(errors) && symbolTable == old(symbolTable) && stackOffsetCounter == old(stackOffsetCounter)
    {
      ghost var start := assembly;
      Emit(Text(" mov rax, 60"));
      Emit(Text(" xor rdi, rdi"));
      Emit(Text(" syscall"));
      Emit(Text("_start:"));
      Emit(Text(" call main"));
      Emit(Text(" mov rax, 60"));
      Emit(Text(" xor rdi, rdi"));
      Emit(Text(" syscall"));
      assert assembly == start + Epilogue;
    }

    /** `generate`: for a null program one error and `""`; otherwise the whole text so far. */
    method Generate(program: Option<Program>) returns (out: string)
      modifies this
      ensures program.None? ==>
        && out == "" && errors == old(errors) + [NullProgram]
        && assembly == old(assembly) && symbolTable == old(symbolTable) && stackOffsetCounter == old(stackOffsetCounter)
      ensures program.Some? ==>
        var (body, table, counter, errs) := GenStmts(old(symbolTable), old(stackOffsetCounter), program.value.statements);
        && assembly == old(assembly) + Prologue + body + Epilogue
        && out == Render(assembly)
        && symbolTable == table && stackOffsetCounter == counter && errors == old(errors) + errs
    {
      if program.None? {
        Error(NullProgram);
        return "";
      }
      EmitPrologue();
      VisitProgram(program.value);
      EmitEpilogue();
      out := Render(assembly);
    }

    /** `visit(const Program*)`: the statements in order. */
    method VisitProgram(program: Program)
      modifies this
      ensures var (body, table, counter, errs) := GenStmts(old(symbolTable), old(stackOffsetCounter), program.statements);
        assembly == old(assembly) + body && symbolTable == table && stackOffsetCounter == counter && errors == old(errors) + errs
    {
      var stmts := program.statements;
      ghost var outcome := GenStmts(symbolTable, stackOffsetCounter, stmts);
      ghost var assembly0, errors0 := assembly, errors;
      ghost var code: seq<Instr>, errs: seq<CodegenError> := [], [];
      assert stmts[0..] == stmts;
      assert [] + outcome.0 == outcome.0 && [] + outcome.3 == outcome.3;
      for i := 0 to |stmts|
        invariant outcome == GenStmtsAfter(code, errs, symbolTable, stackOffsetCounter, stmts[i..])
        invariant assembly == assembly0 + code && errors == errors0 + errs
      {
        ghost var step := GenStmt(symbolTable, stackOffsetCounter, stmts[i]);
        assert stmts[i..][0] == stmts[i] && stmts[i..][1..] == stmts[i + 1..];
        GenStmtsStep(code, errs, symbolTable, stackOffsetCounter, stmts[i..]);
        VisitStatement(stmts[i]);
        Append3(assembly0, code, step.0);
        Append3(errors0, errs, step.3);
        code, errs := code + step.0, errs + step.3;
      }
      assert stmts[|stmts|..] == [];
      assert code + [] == code && errs + [] == errs;
    }

    /** `visit(const Statement*)`: assignments and expression statements; anything else is an error. */
    method VisitStatement(s: Stmt)
      modifies this
      ensures var (code, table, counter, errs) := GenStmt(old(symbolTable), old(stackOffsetCounter), s);
        assembly == old(assembly) + code && symbolTable == table && stackOffsetCounter == counter && errors == old(errors) + errs
    {
      match s {
        case AssignmentStatement(_, _, _) => VisitAssignment(s);
        case ExpressionStatement(_) => VisitExpressionStatement(s);
        case PrintStatement(_) => Error(UnknownStatement);
      }
    }

    /** `visit(const AssignmentStatement*)`. */
    method VisitAssignment(s: Stmt)
      modifies this
      requires s.AssignmentStatement?
      ensures var (code, table, counter, errs) := GenStmt(old(symbolTable), old(stackOffsetCounter), s);
        assembly == old(assembly) + code && symbolTable == table && stackOffsetCounter == counter && errors == old(errors) + errs
    {
      var name := s.name;
      VisitExpr(s.value);
      PopIntoRax();
      var slot := GetSymbol(name);
      if slot.None? {
        DefineVariable(name);
        slot := GetSymbol(name);
      }
      if slot.Some? {
        Emit(Text("  mov " + SlotOperand(slot.value) + ", rax"));
      } else {
        assert false;
      }
    }

    /** `visit(const ExpressionStatement*)`: the value is popped off again. */
    method VisitExpressionStatement(s: Stmt)
      modifies this
      requires s.ExpressionStatement?
      ensures var (code, table, counter, errs) := GenStmt(old(symbolTable), old(stackOffsetCounter), s);
        assembly == old(assembly) + code && symbolTable == table && stackOffsetCounter == counter && errors == old(errors) + errs
    {
      VisitExpr(s.expression);
      Emit(Pop("rax"));
    }

    /** `visit(const Expression*)`: literals, identifiers and binary nodes; anything else is an error. */
    method VisitExpr(e: Expr)
      modifies this
      ensures var (code, errs) := GenExpr(old(symbolTable), e);
        assembly == old(assembly) + code && errors == old(errors) + errs
      ensures symbolTable == old(symbolTable) && stackOffsetCounter == old(stackOffsetCounter)
      decreases e, 1
    {
      match e {
        case IntegerLiteral(_, _) => VisitIntegerLiteral(e);
        case IdentifierExpr(_, _) => VisitIdentifier(e);
        case BinaryExpression(_, _, _, _) => VisitBinary(e);
        case BooleanLiteral(_, _) => Error(UnknownExpression);
        case StringLiteral(_, _) => Error(UnknownExpression);
        case CharLiteral(_, _) => Error(UnknownExpression);
      }
    }

    /** `visit(const IntegerLiteral*)`. */
    method VisitIntegerLiteral(e: Expr)
      modifies this
      requires e.IntegerLiteral?
      ensures var (code, errs) := GenExpr(old(symbolTable), e);
        assembly == old(assembly) + code && errors == old(errors) + errs
      ensures symbolTable == old(symbolTable) && stackOffsetCounter == old(stackOffsetCounter)
    {
      Emit(Push(IntToString(e.intValue)));
    }

    /** `visit(const IdentifierExpr*)`: the slot's value, or an error and `push 0`. */
    method VisitIdentifier(e: Expr)
      modifies this
      requires e.IdentifierExpr?
      ensures var (code, errs) := GenExpr(old(symbolTable), e);
        assembly == old(assembly) + code && errors == old(errors) + errs
      ensures symbolTable == old(symbolTable) && stackOffsetCounter == old(stackOffsetCounter)
    {
      var name := e.name;
      var slot := GetSymbol(name);
      if slot.Some? {
        Emit(Push(SlotOperand(slot.value)));
      } else {
        Error(UndeclaredVariable(name));
        Emit(Push("0"));
      }
    }

    /** `visit(const BinaryExpression*)`. */
    method VisitBinary(e: Expr)
      modifies this
      requires e.BinaryExpression?
      ensures var (code, errs) := GenExpr(old(symbolTable), e);
        assembly == old(assembly) + code && errors == old(errors) + errs
      ensures symbolTable == old(symbolTable) && stackOffsetCounter == old(stackOffsetCounter)
      decreases e, 0
    {
      var op := e.op;
      ghost var right := GenExpr(symbolTable, e.right);
      ghost var left := GenExpr(symbolTable, e.left);
      ghost var opErrors: seq<CodegenError> := if SupportedOperator(op) then [] else [UnsupportedOperator(op)];
      VisitExpr(e.right);
      VisitExpr(e.left);
      ghost var operandCode := assembly;
      ghost var operandErrors := errors;
      PopIntoRax();
      Emit(Pop("rbx"));
      EmitOperator(op);
      assert assembly == operandCode + [Pop("rax"), Pop("rbx")] + OperatorCode(op);
      assert errors == operandErrors + opErrors;
      PushFromRax();
      assert assembly == operandCode + BinaryTail(op);
      Regroup(old(assembly), right.0, left.0, BinaryTail(op));
      Regroup(old(errors), right.1, left.1, opErrors);
    }

    /** The operator dispatch of `visit(const BinaryExpression*)`: the arithmetic on `rax` and `rbx`, or an error. */
    method EmitOperator(op: Kind)
      modifies this
      ensures assembly == old(assembly) + OperatorCode(op)
      ensures errors == old(errors) + (if SupportedOperator(op) then [] else [UnsupportedOperator(op)])
      ensures symbolTable == old(symbolTable) && stackOffsetCounter == old(stackOffsetCounter)
    {
      match op {
        case Plus => Emit(Text("  add rax, rbx"));
        case Minus => Emit(Text("  sub rax, rbx"));
        case Asterisk => Emit(Text("  imul rax, rbx"));
        case Slash =>
          Emit(Text("  xor rdx, rdx"));
          Emit(Text("  idiv rbx"));
        case _ => Error(UnsupportedOperator(op));
      }
    }

    /** `defineVariable`. */
    method DefineVariable(name: string)
      modifies this
      ensures var r := DefineSlot(old(symbolTable), old(stackOffsetCounter), name);
        symbolTable == r.0 && stackOffsetCounter == r.1 && errors == old(errors) + r.2
      ensures assembly == old(assembly)
    {
      if name in symbolTable {
        Error(AlreadyDeclared(name));
        return;
      }
      stackOffsetCounter := stackOffsetCounter + WordSize;
      symbolTable := symbolTable[name := stackOffsetCounter];
    }

    /** `getSymbol`: the slot offset of a name, `None` for a null pointer. */
    function GetSymbol(name: string): (r: Option<int>)
      reads this
      ensures r.Some? <==> name in symbolTable
      ensures r.Some? ==> r.value == symbolTable[name]
    {
      if name in symbolTable then Some(symbolTable[name]) else None
    }

    /** `pop_into_rax`. */
    method PopIntoRax()
      modifies this
      ensures assembly == old(assembly) + [Pop("rax")]
      ensures errors == old(errors) && symbolTable == old(symbolTable) && stackOffsetCounter == old(stackOffsetCounter)
    {
      Emit(Pop("rax"));
    }

    /** `push_from_rax`. */
    method PushFromRax()
      modifies this
      ensures assembly == old(assembly) + [Push("rax")]
      ensures errors == old(errors) && symbolTable == old(symbolTable) && stackOffsetCounter == old(stackOffsetCounter)
    {
      Emit(Push("rax"));
    }
  }

  lemma Append3<T>(a: seq<T>, b: seq<T>, c: seq<T>)
    ensures a + b + c == a + (b + c)
  {
  }

  lemma Regroup<T>(a: seq<T>, b: seq<T>, c: seq<T>, d: seq<T>)
    ensures a + b + c + d == a + (b + c + d)
  {
  }

  /** The outcome of a program whose first statements produced `code` and `errs`, with `rest` still to go. */
  function GenStmtsAfter(code: seq<Instr>, errs: seq<CodegenError>, table: map<string, int>, counter: int, rest: seq<Stmt>)
    : (seq<Instr>, map<string, int>, int, seq<CodegenError>)
  {
    var r := GenStmts(table, counter, rest);
    (code + r.0, r.1, r.2, errs + r.3)
  }

  /** One statement more is done: its code and errors move from what remains to what was produced. */
  lemma GenStmtsStep(code: seq<Instr>, errs: seq<CodegenError>, table: map<string, int>, counter: int, rest: seq<Stmt>)
    requires rest != []
    ensures var step := GenStmt(table, counter, rest[0]);
      GenStmtsAfter(code, errs, table, counter, rest) == GenStmtsAfter(code + step.0, errs + step.3, step.1, step.2, rest[1..])
  {
    var step := GenStmt(table, counter, rest[0]);
    var r := GenStmts(step.1, step.2, rest[1..]);
    assert GenStmts(table, counter, rest) == (step.0 + r.0, r.1, r.2, step.3 + r.3);
    Append3(code, step.0, r.0);
    Append3(errs, step.3, r.3);
  }

}
