/** What compiler/compiler.ts computes, as functions on values: the register
    pool, and `Gen`, the outcome of `compile` for one node. The class
    `Compiler.Compiler` is proved to do what these functions say. */
module Codegen {
  import opened Wrappers
  import opened Numerals
  import opened VTypes
  import opened Ast
  import opened CValues
  import opened Scopes
  import Env

  /** The compiler's fields: which registers are free (register r is entry
      r - 1), the code and data sections, and the label counters. */
  datatype Machine = Machine(pool: seq<bool>, code: string, data: string, strings: nat, arrays: nat)

  /** What compiling a node yields: its value, the new fields, and the new
      local map of the environment it was compiled in. */
  datatype Outcome = Outcome(value: CompilerValue, m: Machine, vars: Scope)

  /** The conditions under which the source prints a message and exits. */
  datatype CompileError =
    | Undeclared(name: string)         // an identifier no scope of the chain holds
    | EnvFailure(error: Env.EnvError)  // `declare` or `read` of the environment failed
    | NonComputedMember                // `a.b` rather than `a[b]`
    | BadAssignTarget                  // assignment to something that is not a name or a member
    | BadComparison(op: string)        // a comparison operator with no instruction
    | UnsupportedNode                  // a node kind the compiler has no case for

  /** `Array.prototype.indexOf` on the pool. */
  function IndexOf(pool: seq<bool>, x: bool): (i: int)
    ensures -1 <= i < |pool|
    ensures i == -1 <==> x !in pool
    ensures i >= 0 ==> pool[i] == x && x !in pool[..i]
  {
    if pool == [] then -1
    else if pool[0] == x then 0
    else
      var j := IndexOf(pool[1..], x);
      assert j >= 0 ==> pool[..j + 1] == [pool[0]] + pool[1..][..j];
      if j == -1 then -1 else j + 1
  }

  /** `allocateReg`: the lowest free register becomes busy. With none free,
      `indexOf` gives -1, the store to index -1 changes no element, and the
      register number is 0. */
  function AllocIn(pool: seq<bool>): (r: (nat, seq<bool>))
    ensures r.0 == 0 <==> true !in pool
    ensures r.0 == 0 ==> r.1 == pool
    ensures r.0 > 0 ==> r.0 <= |pool| && pool[r.0 - 1] && r.1 == pool[r.0 - 1 := false]
    ensures r.0 > 0 ==> forall i :: 0 <= i < r.0 - 1 ==> !pool[i]
  {
    var free := IndexOf(pool, true);
    if free == -1 then (0, pool)
    else
      assert forall i :: 0 <= i < free ==> pool[..free][i] == pool[i];
      (free + 1, pool[free := false])
  }

  /** `freeReg`: register `reg` becomes free and the others keep their
      state. Register 0 stands for index -1, where a store changes no element;
      a register past the end stretches the array, and the indices in between
      are holes, which `indexOf(true)` never finds, so they count as busy. */
  function FreeIn(pool: seq<bool>, reg: nat): (p: seq<bool>)
    ensures reg == 0 ==> p == pool
    ensures reg > 0 ==> |p| == (if reg <= |pool| then |pool| else reg) && p[reg - 1]
    ensures forall i :: 0 <= i < |pool| && i != reg - 1 ==> p[i] == pool[i]
    ensures forall i :: |pool| <= i < |p| && i != reg - 1 ==> !p[i]
  {
    if reg == 0 then pool
    else if reg - 1 < |pool| then pool[reg - 1 := true]
    else pool + seq(reg - 1 - |pool|, _ => false) + [true]
  }

  /** `freeAll`. */
  function FreeAllPool(pool: seq<bool>): (p: seq<bool>)
    ensures |p| == |pool| && forall i :: 0 <= i < |p| ==> p[i]
  {
    seq(|pool|, _ => true)
  }

  /** Freeing the register just allocated gives back the pool as it was. */
  lemma AllocThenFree(pool: seq<bool>)
    requires true in pool
    ensures FreeIn(AllocIn(pool).1, AllocIn(pool).0) == pool
  {
    var (r, p) := AllocIn(pool);
    assert FreeIn(p, r) == p[r - 1 := true];
  }

  /** A register counts as allocated as long as it has not been freed: two
      allocations in a row give different registers. */
  lemma AllocTwiceDiffers(pool: seq<bool>)
    requires AllocIn(pool).0 > 0 && AllocIn(AllocIn(pool).1).0 > 0
    ensures AllocIn(AllocIn(pool).1).0 != AllocIn(pool).0
  {
  }

  function Reg(r: nat): string {
    ToString(RegisterVal(r))
  }

  /** Every line the compiler writes has this shape, with one to three
      operands. */
  function Line(op: string, operands: seq<string>): string
    decreases |operands|
  {
    if operands == [] then op + "\n" else Line(op + " " + operands[0], operands[1..])
  }

  /** A line with two operands. */
  lemma LineOfTwo(op: string, x: string, y: string)
    ensures Line(op, [x, y]) == op + " " + x + " " + y + "\n"
  {
    assert [x, y][1..] == [y];
    assert Line(op + " " + x, [y]) == op + " " + x + " " + y + "\n";
  }

  /** A line with three operands. */
  lemma LineOfThree(op: string, x: string, y: string, z: string)
    ensures Line(op, [x, y, z]) == op + " " + x + " " + y + " " + z + "\n"
  {
    assert [x, y, z][1..] == [y, z];
    LineOfTwo(op + " " + x, y, z);
  }

  function StringLabel(k: nat): string {
    ".string_" + NatToString(k)
  }

  function ArrayLabel(k: nat): string {
    ".array_" + NatToString(k)
  }

  /** The instruction of a binary operator; "NOP" for any other text. */
  function ArithOp(op: string): (r: string)
    ensures r == "NOP" <==> op !in ["+", "-", "*", "/", "%"]
    ensures r in ["ADD", "SUB", "MLT", "DIV", "MOD", "NOP"]
  {
    if op == "+" then "ADD"
    else if op == "-" then "SUB"
    else if op == "*" then "MLT"
    else if op == "/" then "DIV"
    else if op == "%" then "MOD"
    else "NOP"
  }

  /** The set instruction of a comparison operator, if it has one. */
  function CompareOp(op: string): (r: Option<string>)
    ensures r.Some? <==> op in [">", ">=", "<", "<=", "==", "!="]
    ensures r.Some? ==> r.value in ["SSETG", "SSETGE", "SSETL", "SSETLE", "SETE", "SETNE"]
  {
    if op == ">" then Some("SSETG")
    else if op == ">=" then Some("SSETGE")
    else if op == "<" then Some("SSETL")
    else if op == "<=" then Some("SSETLE")
    else if op == "==" then Some("SETE")
    else if op == "!=" then Some("SETNE")
    else None
  }

  /** The compiler never takes back what it wrote or reuses a label number. */
  predicate Grows(m: Machine, m': Machine) {
    m.code <= m'.code && m.data <= m'.data && m.strings <= m'.strings && m.arrays <= m'.arrays
  }

  /** With at least one register, the pool keeps its size and every register
      value names a register of the pool (or is R0). */
  predicate KeepsPool(m: Machine, o: Outcome) {
    |m.pool| >= 1 ==> |o.m.pool| == |m.pool| && (o.value.RegisterVal? ==> o.value.reg <= |m.pool|)
  }

  function WithCode(m: Machine, text: string): Machine {
    m.(code := m.code + text)
  }

  /** The result of allocating a register and writing `op R<reg> operands`. */
  function EmitToReg(m: Machine, op: string, operands: seq<string>, vars: Scope): (o: Outcome)
    ensures Grows(m, o.m) && KeepsPool(m, o)
  {
    var (reg, pool) := AllocIn(m.pool);
    Outcome(RegisterVal(reg), m.(pool := pool, code := m.code + Line(op, [Reg(reg)] + operands)), vars)
  }

  /** What every step of the compiler keeps: see `Grows` and `KeepsPool`;
      and the local map still holds each name once. */
  predicate WellBehaved(m: Machine, vars: Scope, r: Result<Outcome, CompileError>) {
    r.Ok? ==> Grows(m, r.value.m) && KeepsPool(m, r.value) && (UniqueNames(vars) ==> UniqueNames(r.value.vars))
  }

  /** `compile(node, env)`, where the environment's local map is `vars` and
      its enclosing maps are `parents`. */
  function Gen(node: Node, m: Machine, vars: Scope, parents: seq<Scope>): (r: Result<Outcome, CompileError>)
    ensures WellBehaved(m, vars, r)
    decreases node, 2, 0
  {
    match node
    case NumericLiteral(n) => Ok(Outcome(NumberVal(n), m, vars))
    case CharLiteral(c) => Ok(Outcome(NumberVal(c as nat), m, vars))
    case StringLiteral(text) =>
      var k := m.strings + 1;
      var data := m.data + StringLabel(k) + "\nDW \"" + text + "\"\n";
      Ok(Outcome(LabelVal(StringLabel(k)), m.(data := data, strings := k), vars))
    case IdentLiteral(name) => GenIdent(node, m, vars, parents)
    case ArrayLiteral(elements) =>
      var k := m.arrays + 1;
      GenArray(node, 0, m.(data := m.data + ArrayLabel(k) + "\n", arrays := k), vars, parents)
    case BinaryExpr(_, _, _) => GenBinary(node, m, vars, parents)
    case MemberExpr(_, _, _) => GenMember(node, m, vars, parents)
    case AssignExpr(_, _) => GenAssign(node, m, vars, parents)
    case CallExpr(_, _) => GenCall(node, m, vars, parents)
    case ComparisonExpr(_, _, _) => GenComparison(node, m, vars, parents)
    case NotExpr(value) =>
      var v :- Gen(value, m, vars, parents);
      Ok(EmitToReg(v.m, "NOT", [ToString(v.value)], v.vars))
    case Program(_) =>
      var b :- GenProgram(node, 0, m, vars, parents);
      Ok(Outcome(RegisterVal(0), b.m, b.vars))
    case FunDecl(_, _, _) => GenFunDecl(node, m, vars, parents)
    case VarDecl(_, _, _) => GenVarDecl(node, m, vars, parents)
    case ASMLine(line) => Ok(Outcome(RegisterVal(0), WithCode(m, line + "\n"), vars))
    case DelStatement(name) => Ok(Outcome(RegisterVal(0), m, Env.RemoveIn(vars, name)))
    case ReturnStatement(value) =>
      var v :- Gen(value, m, vars, parents);
      Ok(Outcome(RegisterVal(0), WithCode(v.m, Line("MOV", ["R1", ToString(v.value)]) + Line("RET", [])), v.vars))
    case _ => Err(UnsupportedNode)
  }

  /** An identifier must exist somewhere in the chain, and is then read from the local map only. */
  function GenIdent(node: Node, m: Machine, vars: Scope, parents: seq<Scope>): (r: Result<Outcome, CompileError>)
    requires node.IdentLiteral?
    ensures WellBehaved(m, vars, r)
    decreases node, 1, 0
  {
    if !Env.ExistsIn([vars] + parents, node.name) then Err(Undeclared(node.name))
    else
      var v := Env.ReadIn(vars, node.name);
      if v.Err? then Err(EnvFailure(v.error))
      else Ok(EmitToReg(m, "LOD", [ToString(PointerVal(v.value.addr))], vars))
  }

  /** Left operand, right operand, then the register for the result. */
  function GenBinary(node: Node, m: Machine, vars: Scope, parents: seq<Scope>): (r: Result<Outcome, CompileError>)
    requires node.BinaryExpr?
    ensures WellBehaved(m, vars, r)
    decreases node, 1, 0
  {
    var l :- Gen(node.left, m, vars, parents);
    var r :- Gen(node.right, l.m, l.vars, parents);
    Ok(EmitToReg(r.m, ArithOp(node.op), [ToString(l.value), ToString(r.value)], r.vars))
  }

  /** Only `obj[property]` is compiled. */
  function GenMember(node: Node, m: Machine, vars: Scope, parents: seq<Scope>): (r: Result<Outcome, CompileError>)
    requires node.MemberExpr?
    ensures WellBehaved(m, vars, r)
    decreases node, 1, 0
  {
    if !node.computed then Err(NonComputedMember)
    else
      var o :- Gen(node.obj, m, vars, parents);
      var p :- Gen(node.property, o.m, o.vars, parents);
      Ok(EmitToReg(p.m, "LLOD", [ToString(o.value), ToString(p.value)], p.vars))
  }

  /** The right side first; then a store to a local cell, or to an element (computed or not). */
  function GenAssign(node: Node, m: Machine, vars: Scope, parents: seq<Scope>): (r: Result<Outcome, CompileError>)
    requires node.AssignExpr?
    ensures WellBehaved(m, vars, r)
    decreases node, 1, 0
  {
    var v :- Gen(node.right, m, vars, parents);
    var left := node.left;
    if left.IdentLiteral? then
      var x := Env.ReadIn(v.vars, left.name);
      if x.Err? then Err(EnvFailure(x.error))
      else
        var addr := x.value.addr;
        Ok(Outcome(PointerVal(addr), WithCode(v.m, Line("STR", [ToString(PointerVal(addr)), ToString(v.value)])), v.vars))
    else if left.MemberExpr? then
      var o :- Gen(left.obj, v.m, v.vars, parents);
      var p :- Gen(left.property, o.m, o.vars, parents);
      var m' := WithCode(p.m, Line("LSTR", [ToString(o.value), ToString(p.value), ToString(v.value)]));
      Ok(Outcome(v.value, m', p.vars))
    else Err(BadAssignTarget)
  }

  /** Arguments are pushed in order; the result is taken to be in R1. */
  function GenCall(node: Node, m: Machine, vars: Scope, parents: seq<Scope>): (r: Result<Outcome, CompileError>)
    requires node.CallExpr?
    ensures WellBehaved(m, vars, r)
    ensures r.Ok? ==> r.value.value == RegisterVal(1)
    decreases node, 1, 0
  {
    var a :- GenArgs(node, 0, m, vars, parents);
    if node.caller.IdentLiteral? then
      Ok(Outcome(RegisterVal(1), WithCode(a.m, Line("CAL", ["." + node.caller.name])), a.vars))
    else
      var c :- Gen(node.caller, a.m, a.vars, parents);
      Ok(Outcome(RegisterVal(1), WithCode(c.m, Line("CAL", [ToString(c.value)])), c.vars))
  }

  /** Both operands and then the register; an operator without a set instruction is fatal. */
  function GenComparison(node: Node, m: Machine, vars: Scope, parents: seq<Scope>): (r: Result<Outcome, CompileError>)
    requires node.ComparisonExpr?
    ensures WellBehaved(m, vars, r)
    decreases node, 1, 0
  {
    var l :- Gen(node.left, m, vars, parents);
    var r :- Gen(node.right, l.m, l.vars, parents);
    var op := CompareOp(node.op);
    if op.None? then Err(BadComparison(node.op))
    else Ok(EmitToReg(r.m, op.value, [ToString(l.value), ToString(r.value)], r.vars))
  }

  /** The label, the parameters, then the body, all in a new environment whose parent is the current one, which is left as it was. */
  function GenFunDecl(node: Node, m: Machine, vars: Scope, parents: seq<Scope>): (r: Result<Outcome, CompileError>)
    requires node.FunDecl?
    ensures WellBehaved(m, vars, r)
    decreases node, 1, 0
  {
    var m1 := WithCode(m, Line("." + node.name, []));
    var p :- GenParams(node.params, 0, m1, [], [vars] + parents);
    var b :- GenBody(node, 0, p.m, p.vars, [vars] + parents);
    Ok(Outcome(RegisterVal(0), b.m, vars))
  }

  /** Declare, then compile the value and store it; a register holding the value is freed. */
  function GenVarDecl(node: Node, m: Machine, vars: Scope, parents: seq<Scope>): (r: Result<Outcome, CompileError>)
    requires node.VarDecl?
    ensures WellBehaved(m, vars, r)
    decreases node, 1, 0
  {
    var d := Env.DeclareIn(vars, parents, node.name, node.vtype);
    if d.Err? then Err(EnvFailure(d.error))
    else
      var vars1 := d.value;
      var addr := Env.ReadIn(vars1, node.name).value.addr;
      var v :- Gen(node.value, m, vars1, parents);
      var m' := WithCode(v.m, Line("STR", [ToString(PointerVal(addr)), ToString(v.value)]));
      var pool := if v.value.RegisterVal? then FreeIn(m'.pool, v.value.reg) else m'.pool;
      Ok(Outcome(RegisterVal(0), m'.(pool := pool), v.vars))
  }

  /** The loop over an array literal's elements from `i` on. The line for an
      element is added to the code as it was before the element was compiled
      (`+=` reads its left side first), so that element's own instructions
      are lost; the array number is read afresh for each element and again for
      the label returned, which ends in a newline. */
  function GenArray(node: Node, i: nat, m: Machine, vars: Scope, parents: seq<Scope>): (r: Result<Outcome, CompileError>)
    requires node.ArrayLiteral? && i <= |node.elements|
    ensures WellBehaved(m, vars, r)
    decreases node, 0, |node.elements| - i
  {
    if i == |node.elements| then Ok(Outcome(LabelVal(ArrayLabel(m.arrays) + "\n"), m, vars))
    else
      var e :- Gen(node.elements[i], m, vars, parents);
      var line := Line("LSTR", [ArrayLabel(m.arrays), NatToString(i), ToString(e.value)]);
      GenArray(node, i + 1, e.m.(code := m.code + line, data := e.m.data + "DW 0\n"), e.vars, parents)
  }

  /** The loop that pushes a call's arguments from `i` on. */
  function GenArgs(node: Node, i: nat, m: Machine, vars: Scope, parents: seq<Scope>): (r: Result<Outcome, CompileError>)
    requires node.CallExpr? && i <= |node.args|
    ensures WellBehaved(m, vars, r) && (r.Ok? ==> r.value.value == RegisterVal(0))
    decreases node, 0, |node.args| - i
  {
    if i == |node.args| then Ok(Outcome(RegisterVal(0), m, vars))
    else
      var a :- Gen(node.args[i], m, vars, parents);
      GenArgs(node, i + 1, WithCode(a.m, Line("PSH", [ToString(a.value)])), a.vars, parents)
  }

  /** The loop over a program's statements from `i` on; every statement
      starts with all registers free. */
  function GenProgram(node: Node, i: nat, m: Machine, vars: Scope, parents: seq<Scope>): (r: Result<Outcome, CompileError>)
    requires node.Program? && i <= |node.body|
    ensures WellBehaved(m, vars, r) && (r.Ok? ==> r.value.value == RegisterVal(0))
    decreases node, 0, |node.body| - i
  {
    if i == |node.body| then Ok(Outcome(RegisterVal(0), m, vars))
    else
      var s :- Gen(node.body[i], m.(pool := FreeAllPool(m.pool)), vars, parents);
      GenProgram(node, i + 1, s.m, s.vars, parents)
  }

  /** The loop over a function's body from `i` on, in the function's own
      environment. */
  function GenBody(node: Node, i: nat, m: Machine, vars: Scope, parents: seq<Scope>): (r: Result<Outcome, CompileError>)
    requires node.FunDecl? && i <= |node.body|
    ensures WellBehaved(m, vars, r) && (r.Ok? ==> r.value.value == RegisterVal(0))
    decreases node, 0, |node.body| - i
  {
    if i == |node.body| then Ok(Outcome(RegisterVal(0), m, vars))
    else
      var s :- Gen(node.body[i], m, vars, parents);
      GenBody(node, i + 1, s.m, s.vars, parents)
  }

  /** The lines that copy parameter `i` of `n` from the stack into the cell
      at `addr`, through register `reg`. */
  function ParamLines(reg: nat, n: nat, i: nat, addr: nat): string
    requires i <= n
  {
    Line("LLOD", [Reg(reg), "SP", NatToString(n - i)]) + Line("STR", [ToString(PointerVal(addr)), Reg(reg)])
  }

  /** The text of a parameter copy, as the source's template writes it:
      parameter i of n is read from the stack at offset n - i. */
  lemma ParamLinesText(reg: nat, n: nat, i: nat, addr: nat)
    requires i <= n
    ensures ParamLines(reg, n, i, addr) ==
      ("LLOD R" + NatToString(reg) + " SP " + NatToString(n - i) + "\n") + ("STR M" + NatToString(addr) + " R" + NatToString(reg) + "\n")
  {
    StackLoadText(NatToString(reg), NatToString(n - i));
    StoreText(NatToString(addr), NatToString(reg));
  }

  lemma StackLoadText(r: string, k: string)
    ensures Line("LLOD", ["R" + r, "SP", k]) == "LLOD R" + r + " SP " + k + "\n"
  {
    LineOfThree("LLOD", "R" + r, "SP", k);
    assert "LLOD" + " " + ("R" + r) == "LLOD R" + r;
    assert "LLOD R" + r + " " + "SP" + " " == "LLOD R" + r + " SP ";
  }

  lemma StoreText(a: string, r: string)
    ensures Line("STR", ["M" + a, "R" + r]) == "STR M" + a + " R" + r + "\n"
  {
    LineOfTwo("STR", "M" + a, "R" + r);
    assert "STR" + " " + ("M" + a) == "STR M" + a;
    assert "STR M" + a + " " + ("R" + r) == "STR M" + a + " R" + r;
  }

  /** The loop over a function's parameters from `i` on: each is declared in
      the function's environment and copied from the stack. */
  function GenParams(params: seq<(string, VType)>, i: nat, m: Machine, vars: Scope, parents: seq<Scope>): (r: Result<Outcome, CompileError>)
    requires i <= |params|
    ensures WellBehaved(m, vars, r) && (r.Ok? ==> r.value.value == RegisterVal(0))
    decreases |params| - i
  {
    if i == |params| then Ok(Outcome(RegisterVal(0), m, vars))
    else
      var d := Env.DeclareIn(vars, parents, params[i].0, params[i].1);
      if d.Err? then Err(EnvFailure(d.error))
      else
        var vars1 := d.value;
        var addr := Env.ReadIn(vars1, params[i].0).value.addr;
        var (reg, pool) := AllocIn(m.pool);
        var m' := m.(pool := FreeIn(pool, reg), code := m.code + ParamLines(reg, |params|, i, addr));
        GenParams(params, i + 1, m', vars1, parents)
  }

  /** Every statement of a program is compiled with all registers free: a
      program is its first statement, compiled from the machine with the
      whole pool free, and then the rest of the program from where that
      statement left off; a failing statement fails the program. A program's
      value is R0, and the empty program writes nothing. */
  lemma ProgramFreesRegisters(s: Node, rest: seq<Node>, m: Machine, vars: Scope, parents: seq<Scope>)
    ensures var g := Gen(Program([s] + rest), m, vars, parents);
            var h := Gen(s, m.(pool := FreeAllPool(m.pool)), vars, parents);
            && (h.Err? ==> g == Err(h.error))
            && (h.Ok? ==> g == Gen(Program(rest), h.value.m, h.value.vars, parents))
            && (g.Ok? ==> g.value.value == RegisterVal(0))
    ensures Gen(Program([]), m, vars, parents) == Ok(Outcome(RegisterVal(0), m, vars))
  {
    var h := Gen(s, m.(pool := FreeAllPool(m.pool)), vars, parents);
    assert ([s] + rest)[0] == s;
    if h.Ok? {
      ProgramShift(s, rest, 0, h.value.m, h.value.vars, parents);
    }
  }

  /** The statement loop over `[s] + rest` from index i + 1 is the loop over
      `rest` from index i. */
  lemma {:induction false} ProgramShift(s: Node, rest: seq<Node>, i: nat, m: Machine, vars: Scope, parents: seq<Scope>)
    requires i <= |rest|
    ensures GenProgram(Program([s] + rest), i + 1, m, vars, parents) == GenProgram(Program(rest), i, m, vars, parents)
    decreases |rest| - i
  {
    if i < |rest| {
      assert ([s] + rest)[i + 1] == rest[i];
      var t := Gen(rest[i], m.(pool := FreeAllPool(m.pool)), vars, parents);
      if t.Ok? {
        ProgramShift(s, rest, i + 1, t.value.m, t.value.vars, parents);
      }
    }
  }

  /** A declaration of a new name takes the least address free in the whole
      chain and stores the value there. */
  lemma VarDeclStores(name: string, n: nat, t: VTypes.VType, m: Machine, vars: Scope, parents: seq<Scope>)
    requires !Has(vars, name)
    ensures var a := Env.LowestFree(ChainAddrs([vars] + parents));
            Gen(VarDecl(name, NumericLiteral(n), t), m, vars, parents) ==
              Ok(Outcome(RegisterVal(0), m.(code := m.code + Line("STR", ["M" + NatToString(a), NatToString(n)])),
                         Env.DeclareIn(vars, parents, name, t).value))
    ensures Env.ReadIn(Env.DeclareIn(vars, parents, name, t).value, name) == Ok(Variable(t, Env.LowestFree(ChainAddrs([vars] + parents))))
  {
    var a := Env.LowestFree(ChainAddrs([vars] + parents));
    var vars1 := Env.DeclareIn(vars, parents, name, t).value;
    var node := VarDecl(name, NumericLiteral(n), t);
    assert Gen(NumericLiteral(n), m, vars1, parents) == Ok(Outcome(NumberVal(n), m, vars1));
    assert Env.ReadIn(vars1, name).value.addr == a;
    assert ToString(PointerVal(a)) == "M" + NatToString(a);
    assert ToString(NumberVal(n)) == NatToString(n);
  }

  /** `T x = y;` with y local: y is loaded into the lowest free register,
      that register is stored into x's new cell, and then freed, so the pool
      is as it was before the declaration. */
  lemma VarDeclFromIdent(name: string, y: string, t: VTypes.VType, m: Machine, vars: Scope, parents: seq<Scope>)
    requires !Has(vars, name) && Has(vars, y)
    ensures var a := Env.LowestFree(ChainAddrs([vars] + parents));
            var b := Find(vars, y).value.addr;
            var r := AllocIn(m.pool).0;
            Gen(VarDecl(name, IdentLiteral(y), t), m, vars, parents) ==
              Ok(Outcome(RegisterVal(0),
                         m.(code := m.code + Line("LOD", ["R" + NatToString(r), "M" + NatToString(b)])
                                           + Line("STR", ["M" + NatToString(a), "R" + NatToString(r)])),
                         Env.DeclareIn(vars, parents, name, t).value))
  {
    var a := Env.LowestFree(ChainAddrs([vars] + parents));
    var vars1 := Env.DeclareIn(vars, parents, name, t).value;
    assert y != name;
    assert Find(vars1, y) == Find(vars, y);
    var r := AllocIn(m.pool).0;
    IdentLoads(y, m, vars1, parents);
    assert Env.ReadIn(vars1, name).value.addr == a;
    assert ToString(PointerVal(a)) == "M" + NatToString(a);
    assert ToString(RegisterVal(r)) == "R" + NatToString(r);
    if true in m.pool {
      AllocThenFree(m.pool);
    }
  }

  /** Declaring a name twice in the same scope is fatal; a name that only an
      enclosing scope holds may be declared again. */
  lemma VarDeclDuplicate(name: string, n: nat, t: VTypes.VType, m: Machine, vars: Scope, parents: seq<Scope>)
    ensures Has(vars, name) <==> Gen(VarDecl(name, NumericLiteral(n), t), m, vars, parents).Err?
    ensures Has(vars, name) ==> Gen(VarDecl(name, NumericLiteral(n), t), m, vars, parents) == Err(EnvFailure(Env.AlreadyExists(name)))
  {
    if !Has(vars, name) {
      VarDeclStores(name, n, t, m, vars, parents);
    }
  }

  /** An identifier is read from the local map only: one that only an
      enclosing scope holds is an error of `read`, one that no scope holds an
      error of `compile` itself. */
  lemma IdentReadIsLocal(name: string, m: Machine, vars: Scope, parents: seq<Scope>)
    requires !Has(vars, name)
    ensures Env.ExistsIn([vars] + parents, name) ==> Gen(IdentLiteral(name), m, vars, parents) == Err(EnvFailure(Env.DoesNotExist(name)))
    ensures !Env.ExistsIn([vars] + parents, name) ==> Gen(IdentLiteral(name), m, vars, parents) == Err(Undeclared(name))
  {
  }

  /** Reading a local variable loads it into the lowest free register. */
  lemma IdentLoads(name: string, m: Machine, vars: Scope, parents: seq<Scope>)
    requires Has(vars, name)
    ensures var r := AllocIn(m.pool).0;
            var addr := Find(vars, name).value.addr;
            Gen(IdentLiteral(name), m, vars, parents) ==
              Ok(Outcome(RegisterVal(r), m.(pool := AllocIn(m.pool).1, code := m.code + Line("LOD", ["R" + NatToString(r), "M" + NatToString(addr)])), vars))
  {
    var node := IdentLiteral(name);
    var addr := Find(vars, name).value.addr;
    LocalRead(name, vars, parents);
    assert Gen(node, m, vars, parents) == GenIdent(node, m, vars, parents);
    assert GenIdent(node, m, vars, parents) == Ok(EmitToReg(m, "LOD", [ToString(PointerVal(addr))], vars));
    LoadLine(m, addr, vars);
  }

  /** A local name exists in the chain and reads from the local map. */
  lemma LocalRead(name: string, vars: Scope, parents: seq<Scope>)
    requires Has(vars, name)
    ensures Env.ExistsIn([vars] + parents, name) && Env.ReadIn(vars, name) == Ok(Find(vars, name).value)
  {
    assert ([vars] + parents)[0] == vars;
  }

  /** `LOD` into the lowest free register. */
  lemma LoadLine(m: Machine, addr: nat, vars: Scope)
    ensures var r := AllocIn(m.pool).0;
            EmitToReg(m, "LOD", [ToString(PointerVal(addr))], vars) ==
              Outcome(RegisterVal(r), m.(pool := AllocIn(m.pool).1, code := m.code + Line("LOD", ["R" + NatToString(r), "M" + NatToString(addr)])), vars)
  {
    var r := AllocIn(m.pool).0;
    assert Reg(r) == "R" + NatToString(r);
    assert ToString(PointerVal(addr)) == "M" + NatToString(addr);
    assert [Reg(r)] + [ToString(PointerVal(addr))] == ["R" + NatToString(r), "M" + NatToString(addr)];
  }

  /** One step of an array literal whose element `i` is a number: a store of
      that number into cell `i`, and one more data word. */
  lemma ArrayNumberStep(node: Node, i: nat, m: Machine, vars: Scope, parents: seq<Scope>)
    requires node.ArrayLiteral? && i < |node.elements| && node.elements[i].NumericLiteral?
    ensures GenArray(node, i, m, vars, parents) ==
      GenArray(node, i + 1, m.(code := m.code + Line("LSTR", [ArrayLabel(m.arrays), NatToString(i), NatToString(node.elements[i].num)]),
                               data := m.data + "DW 0\n"), vars, parents)
  {
    assert Gen(node.elements[i], m, vars, parents) == Ok(Outcome(NumberVal(node.elements[i].num), m, vars));
  }

  /** One step of the element loop: a failing element fails the array;
      otherwise its register is stored into cell `i`, the element's own code
      is dropped, and one more data word is written. */
  lemma ArrayStep(node: Node, i: nat, m: Machine, vars: Scope, parents: seq<Scope>)
    requires node.ArrayLiteral? && i < |node.elements|
    ensures var g := Gen(node.elements[i], m, vars, parents);
            && (g.Err? ==> GenArray(node, i, m, vars, parents) == Err(g.error))
            && (g.Ok? ==>
                  (GenArray(node, i, m, vars, parents) ==
                   GenArray(node, i + 1, g.value.m.(code := m.code + Line("LSTR", [ArrayLabel(m.arrays), NatToString(i), ToString(g.value.value)]),
                                                    data := g.value.m.data + "DW 0\n"), g.value.vars, parents)))
  {
  }

  /** An element's own instructions do not reach the code: for an element
      that reads a variable, a register is taken but the `LOD` that fills it
      is lost, and only the store of that register into the array remains. */
  lemma ArrayDropsElementCode(name: string, m: Machine, vars: Scope, parents: seq<Scope>)
    requires Has(vars, name) && m.arrays == 0 && |m.pool| > 0 && m.pool[0]
    ensures var g := Gen(ArrayLiteral([IdentLiteral(name)]), m, vars, parents);
            g.Ok? && g.value.m.code == m.code + Line("LSTR", [".array_1", "0", "R1"]) && !g.value.m.pool[0]
  {
    GenArrayStart([IdentLiteral(name)], m, vars, parents);
    IdentCell(name, m.(data := m.data + ArrayLabel(m.arrays + 1) + "\n", arrays := m.arrays + 1), vars, parents);
  }

  /** The one cell of an array that holds a variable is stored from the
      register its load took. */
  lemma IdentCell(name: string, m1: Machine, vars: Scope, parents: seq<Scope>)
    requires Has(vars, name) && m1.arrays == 1 && |m1.pool| > 0 && m1.pool[0]
    ensures var g := GenArray(ArrayLiteral([IdentLiteral(name)]), 0, m1, vars, parents);
            g.Ok? && g.value.m.code == m1.code + Line("LSTR", [".array_1", "0", "R1"]) && !g.value.m.pool[0]
  {
    var node := ArrayLiteral([IdentLiteral(name)]);
    assert NatToString(0) == "0" && NatToString(1) == "1";
    assert ArrayLabel(1) == ".array_1";
    IdentLoads(name, m1, vars, parents);
    assert AllocIn(m1.pool).0 == 1;
    var e := Gen(IdentLiteral(name), m1, vars, parents).value;
    assert e.value == RegisterVal(1);
    assert ToString(RegisterVal(1)) == "R1";
    var m2 := e.m.(code := m1.code + Line("LSTR", [".array_1", "0", "R1"]), data := e.m.data + "DW 0\n");
    assert GenArray(node, 0, m1, vars, parents) == GenArray(node, 1, m2, vars, parents) by {
      assert Gen(node.elements[0], m1, vars, parents) == Ok(e);
    }
    assert GenArray(node, 1, m2, vars, parents) == Ok(Outcome(LabelVal(".array_1" + "\n"), m2, vars));
  }

  /** A literal number or char is its own value and writes nothing; the
      next string literal takes the next string number and writes its label
      and text to the data section. */
  lemma Literals(n: nat, c: char, text: string, m: Machine, vars: Scope, parents: seq<Scope>)
    ensures Gen(NumericLiteral(n), m, vars, parents) == Ok(Outcome(NumberVal(n), m, vars))
    ensures Gen(CharLiteral(c), m, vars, parents) == Ok(Outcome(NumberVal(c as nat), m, vars))
    ensures Gen(StringLiteral(text), m, vars, parents) ==
      Ok(Outcome(LabelVal(StringLabel(m.strings + 1)),
                 m.(data := m.data + StringLabel(m.strings + 1) + "\nDW \"" + text + "\"\n", strings := m.strings + 1), vars))
  {
  }

  /** The store lines of an array literal of numbers, from element `i` on. */
  function CellLines(name: string, elements: seq<Node>, i: nat): string
    requires i <= |elements| && forall e <- elements :: e.NumericLiteral?
    decreases |elements| - i
  {
    if i == |elements| then ""
    else Line("LSTR", [name, NatToString(i), NatToString(elements[i].num)]) + CellLines(name, elements, i + 1)
  }

  /** `n` data words. */
  function DataWords(n: nat): string {
    if n == 0 then "" else "DW 0\n" + DataWords(n - 1)
  }

  /** The machine after storing the number elements from `i` on. */
  function FilledCells(m: Machine, elements: seq<Node>, i: nat): Machine
    requires i <= |elements| && forall e <- elements :: e.NumericLiteral?
    decreases |elements| - i
  {
    if i == |elements| then m
    else
      var line := Line("LSTR", [ArrayLabel(m.arrays), NatToString(i), NatToString(elements[i].num)]);
      FilledCells(m.(code := m.code + line, data := m.data + "DW 0\n"), elements, i + 1)
  }

  lemma {:induction false} FilledCellsAre(m: Machine, elements: seq<Node>, i: nat)
    requires i <= |elements| && forall e <- elements :: e.NumericLiteral?
    ensures FilledCells(m, elements, i) ==
      m.(code := m.code + CellLines(ArrayLabel(m.arrays), elements, i), data := m.data + DataWords(|elements| - i))
    decreases |elements| - i
  {
    var name := ArrayLabel(m.arrays);
    if i == |elements| {
      assert m.code + "" == m.code && m.data + "" == m.data;
    } else {
      var line := Line("LSTR", [name, NatToString(i), NatToString(elements[i].num)]);
      var m' := m.(code := m.code + line, data := m.data + "DW 0\n");
      var cells := CellLines(name, elements, i + 1);
      var words := DataWords(|elements| - (i + 1));
      FilledCellsAre(m', elements, i + 1);
      assert m'.code + cells == m.code + CellLines(name, elements, i);
      assert m'.data + words == m.data + DataWords(|elements| - i);
    }
  }

  lemma {:induction false} ArrayCellsFrom(node: Node, i: nat, m: Machine, vars: Scope, parents: seq<Scope>)
    requires node.ArrayLiteral? && i <= |node.elements| && forall e <- node.elements :: e.NumericLiteral?
    ensures GenArray(node, i, m, vars, parents) ==
      Ok(Outcome(LabelVal(ArrayLabel(m.arrays) + "\n"), FilledCells(m, node.elements, i), vars))
    decreases |node.elements| - i
  {
    if i < |node.elements| {
      assert node.elements[i] in node.elements;
      var line := Line("LSTR", [ArrayLabel(m.arrays), NatToString(i), NatToString(node.elements[i].num)]);
      var m' := m.(code := m.code + line, data := m.data + "DW 0\n");
      ArrayNumberStep(node, i, m, vars, parents);
      ArrayCellsFrom(node, i + 1, m', vars, parents);
    }
  }

  /** An array literal of m numbers takes the next array number k, writes
      `.array_k` and m data words, and one `LSTR .array_k i <number>` line
      per element in element order; its value is the label with a newline. */
  lemma ArrayOfNumberLiterals(elements: seq<Node>, m: Machine, vars: Scope, parents: seq<Scope>)
    requires forall e <- elements :: e.NumericLiteral?
    ensures var k := m.arrays + 1;
            Gen(ArrayLiteral(elements), m, vars, parents) ==
              Ok(Outcome(LabelVal(ArrayLabel(k) + "\n"),
                         m.(code := m.code + CellLines(ArrayLabel(k), elements, 0),
                            data := m.data + ArrayLabel(k) + "\n" + DataWords(|elements|), arrays := k), vars))
  {
    var k := m.arrays + 1;
    var m1 := m.(data := m.data + ArrayLabel(k) + "\n", arrays := k);
    GenArrayStart(elements, m, vars, parents);
    ArrayCellsFrom(ArrayLiteral(elements), 0, m1, vars, parents);
    FilledCellsAre(m1, elements, 0);
    assert m1.(code := m1.code + CellLines(ArrayLabel(k), elements, 0), data := m1.data + DataWords(|elements|)) ==
      m.(code := m.code + CellLines(ArrayLabel(k), elements, 0),
         data := m.data + ArrayLabel(k) + "\n" + DataWords(|elements|), arrays := k);
  }

  /** An array literal writes its label to the data section and starts the
      element loop. */
  lemma GenArrayStart(elements: seq<Node>, m: Machine, vars: Scope, parents: seq<Scope>)
    ensures Gen(ArrayLiteral(elements), m, vars, parents) ==
      GenArray(ArrayLiteral(elements), 0, m.(data := m.data + ArrayLabel(m.arrays + 1) + "\n", arrays := m.arrays + 1), vars, parents)
  {
  }

  /** A binary expression of two numbers: the operator's instruction into
      the lowest free register, left operand first. */
  lemma BinaryOfNumbers(a: nat, b: nat, op: string, m: Machine, vars: Scope, parents: seq<Scope>)
    ensures Gen(BinaryExpr(NumericLiteral(a), NumericLiteral(b), op), m, vars, parents) ==
      Ok(EmitToReg(m, ArithOp(op), [NatToString(a), NatToString(b)], vars))
  {
    assert Gen(NumericLiteral(a), m, vars, parents) == Ok(Outcome(NumberVal(a), m, vars));
    assert Gen(NumericLiteral(b), m, vars, parents) == Ok(Outcome(NumberVal(b), m, vars));
  }

  /** A comparison of two numbers: its set instruction into the lowest free
      register, or fatal for an operator that has none. */
  lemma ComparisonOfNumbers(a: nat, b: nat, op: string, m: Machine, vars: Scope, parents: seq<Scope>)
    ensures CompareOp(op).Some? ==>
      (Gen(ComparisonExpr(NumericLiteral(a), NumericLiteral(b), op), m, vars, parents) ==
       Ok(EmitToReg(m, CompareOp(op).value, [NatToString(a), NatToString(b)], vars)))
    ensures CompareOp(op).None? ==>
      (Gen(ComparisonExpr(NumericLiteral(a), NumericLiteral(b), op), m, vars, parents) == Err(BadComparison(op)))
  {
    assert Gen(NumericLiteral(a), m, vars, parents) == Ok(Outcome(NumberVal(a), m, vars));
    assert Gen(NumericLiteral(b), m, vars, parents) == Ok(Outcome(NumberVal(b), m, vars));
  }

  /** The push lines of a call's number arguments, from argument `i` on. */
  function PushLines(args: seq<Node>, i: nat): string
    requires i <= |args| && forall e <- args :: e.NumericLiteral?
    decreases |args| - i
  {
    if i == |args| then "" else Line("PSH", [NatToString(args[i].num)]) + PushLines(args, i + 1)
  }

  /** The machine after pushing the number arguments from `i` on. */
  function PushedArgs(m: Machine, args: seq<Node>, i: nat): Machine
    requires i <= |args| && forall e <- args :: e.NumericLiteral?
    decreases |args| - i
  {
    if i == |args| then m else PushedArgs(WithCode(m, Line("PSH", [NatToString(args[i].num)])), args, i + 1)
  }

  lemma {:induction false} PushedArgsAre(m: Machine, args: seq<Node>, i: nat)
    requires i <= |args| && forall e <- args :: e.NumericLiteral?
    ensures PushedArgs(m, args, i) == m.(code := m.code + PushLines(args, i))
    decreases |args| - i
  {
    if i == |args| {
      assert m.code + "" == m.code;
    } else {
      var m' := WithCode(m, Line("PSH", [NatToString(args[i].num)]));
      PushedArgsAre(m', args, i + 1);
      assert m'.code + PushLines(args, i + 1) == m.code + PushLines(args, i);
    }
  }

  lemma {:induction false} ArgsFrom(node: Node, i: nat, m: Machine, vars: Scope, parents: seq<Scope>)
    requires node.CallExpr? && i <= |node.args| && forall e <- node.args :: e.NumericLiteral?
    ensures GenArgs(node, i, m, vars, parents) == Ok(Outcome(RegisterVal(0), PushedArgs(m, node.args, i), vars))
    decreases |node.args| - i
  {
    if i < |node.args| {
      assert node.args[i] in node.args;
      var n := node.args[i].num;
      assert Gen(node.args[i], m, vars, parents) == Ok(Outcome(NumberVal(n), m, vars));
      var m' := WithCode(m, Line("PSH", [NatToString(n)]));
      assert GenArgs(node, i, m, vars, parents) == GenArgs(node, i + 1, m', vars, parents);
      ArgsFrom(node, i + 1, m', vars, parents);
    }
  }

  /** A call of a named function pushes its arguments left to right, then
      calls the function's label; its value is R1. */
  lemma CallOfNumbers(f: string, args: seq<Node>, m: Machine, vars: Scope, parents: seq<Scope>)
    requires forall e <- args :: e.NumericLiteral?
    ensures Gen(CallExpr(IdentLiteral(f), args), m, vars, parents) ==
      Ok(Outcome(RegisterVal(1), m.(code := m.code + PushLines(args, 0) + Line("CAL", ["." + f])), vars))
  {
    ArgsFrom(CallExpr(IdentLiteral(f), args), 0, m, vars, parents);
    PushedArgsAre(m, args, 0);
  }

  /** `compile` refuses a member access written with a dot. */
  lemma DotMemberIsFatal(o: Node, p: Node, m: Machine, vars: Scope, parents: seq<Scope>)
    ensures Gen(MemberExpr(o, p, false), m, vars, parents) == Err(NonComputedMember)
  {
  }

  /** `compile` refuses an assignment to anything but a name or a member,
      once the right side has compiled. */
  lemma AssignTargetIsFatal(left: Node, right: Node, m: Machine, vars: Scope, parents: seq<Scope>)
    requires !left.IdentLiteral? && !left.MemberExpr?
    ensures var v := Gen(right, m, vars, parents);
            && (v.Ok? ==> Gen(AssignExpr(left, right), m, vars, parents) == Err(BadAssignTarget))
            && (v.Err? ==> Gen(AssignExpr(left, right), m, vars, parents) == Err(v.error))
  {
    var node := AssignExpr(left, right);
    AssignOtherTarget(node, m, vars, parents);
    GenOfAssign(node, m, vars, parents);
  }

  lemma GenOfAssign(node: Node, m: Machine, vars: Scope, parents: seq<Scope>)
    requires node.AssignExpr?
    ensures Gen(node, m, vars, parents) == GenAssign(node, m, vars, parents)
  {
  }

  lemma AssignOtherTarget(node: Node, m: Machine, vars: Scope, parents: seq<Scope>)
    requires node.AssignExpr? && !node.left.IdentLiteral? && !node.left.MemberExpr?
    ensures var v := Gen(node.right, m, vars, parents);
            && (v.Ok? ==> GenAssign(node, m, vars, parents) == Err(BadAssignTarget))
            && (v.Err? ==> GenAssign(node, m, vars, parents) == Err(v.error))
  {
  }

  /** `compile` has no case for the control statements and for the logical,
      bitwise and compound-assignment operators, whatever their parts. */
  lemma UnsupportedNodes(o: Node, p: Node, body: seq<Node>, els: Option<seq<Node>>, op: string, m: Machine, vars: Scope, parents: seq<Scope>)
    ensures Gen(IfStatement(o, body, els), m, vars, parents) == Err(UnsupportedNode)
    ensures Gen(WhileStatement(o, body), m, vars, parents) == Err(UnsupportedNode)
    ensures Gen(ForStatement(o, p, body), m, vars, parents) == Err(UnsupportedNode)
    ensures Gen(LogicalExpr(o, p, op), m, vars, parents) == Err(UnsupportedNode)
    ensures Gen(BitwiseExpr(o, p, op), m, vars, parents) == Err(UnsupportedNode)
    ensures Gen(BinOpAssignExpr(o, p, op), m, vars, parents) == Err(UnsupportedNode)
  {
  }

  /** Different string literals get different labels. */
  lemma StringLabelsDiffer(k: nat, j: nat)
    requires k != j
    ensures StringLabel(k) != StringLabel(j)
  {
    if StringLabel(k) == StringLabel(j) {
      assert StringLabel(k)[8..] == NatToString(k);
      assert StringLabel(j)[8..] == NatToString(j);
      NatToStringInjective(k, j);
    }
  }

  /** Two string literals in one expression get the next two label numbers,
      in the order they are compiled. */
  lemma StringsNumberedInOrder(a: string, b: string, m: Machine, vars: Scope, parents: seq<Scope>)
    ensures var g := Gen(BinaryExpr(StringLiteral(a), StringLiteral(b), "+"), m, vars, parents);
            g.Ok? && g.value.m.strings == m.strings + 2 &&
            g.value.m.data == m.data + StringLabel(m.strings + 1) + "\nDW \"" + a + "\"\n" + StringLabel(m.strings + 2) + "\nDW \"" + b + "\"\n"
  {
    var ml := m.(data := m.data + StringLabel(m.strings + 1) + "\nDW \"" + a + "\"\n", strings := m.strings + 1);
    assert Gen(StringLiteral(a), m, vars, parents) == Ok(Outcome(LabelVal(StringLabel(m.strings + 1)), ml, vars));
    var mr := ml.(data := ml.data + StringLabel(ml.strings + 1) + "\nDW \"" + b + "\"\n", strings := ml.strings + 1);
    assert Gen(StringLiteral(b), ml, vars, parents) == Ok(Outcome(LabelVal(StringLabel(ml.strings + 1)), mr, vars));
  }
}
