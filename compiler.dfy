/** The `Compiler` class of compiler/compiler.ts. Each method does what the
    source's does, in the same order, and is proved to agree with the
    functions of `Codegen`. */
module Compiler {
  import opened Wrappers
  import opened Numerals
  import opened Ast
  import opened CValues
  import opened Scopes
  import VTypes
  import opened Codegen
  import Env

  /** A compile result agrees with `Gen`: the same error, or the same value
      with the fields and the local map as `Gen` leaves them. */
  predicate Agrees(g: Result<Outcome, CompileError>, r: Result<CompilerValue, CompileError>, st: Machine, vars: Scope) {
    match g
    case Err(e) => r == Err(e)
    case Ok(o) => r == Ok(o.value) && st == o.m && vars == o.vars
  }

  class Compiler {
    var freeRegs: seq<bool>
    var code: string
    var dataCode: string
    var strings: nat
    var arrays: nat

    function State(): Machine
      reads this
    {
      Machine(freeRegs, code, dataCode, strings, arrays)
    }

    /** `new Compiler(n)`: n free registers, empty sections. */
    constructor (regsAmount: nat)
      ensures State() == Machine(seq(regsAmount, _ => true), "", "", 0, 0)
    {
      var pool := [];
      for i := 0 to regsAmount
        invariant pool == seq(i, _ => true)
      {
        pool := pool + [true];
      }
      freeRegs, code, dataCode, strings, arrays := pool, "", "", 0, 0;
    }

    method AllocateReg() returns (reg: nat)
      modifies this
      ensures (reg, freeRegs) == AllocIn(old(freeRegs))
      ensures code == old(code) && dataCode == old(dataCode) && strings == old(strings) && arrays == old(arrays)
    {
      var free := IndexOf(freeRegs, true);
      if free >= 0 {
        freeRegs := freeRegs[free := false];
      }
      return free + 1;
    }

    method FreeReg(reg: nat)
      modifies this
      ensures freeRegs == FreeIn(old(freeRegs), reg)
      ensures code == old(code) && dataCode == old(dataCode) && strings == old(strings) && arrays == old(arrays)
    {
      if reg == 0 {
        return;
      }
      if reg - 1 < |freeRegs| {
        freeRegs := freeRegs[reg - 1 := true];
      } else {
        freeRegs := freeRegs + seq(reg - 1 - |freeRegs|, _ => false) + [true];
      }
    }

    method FreeAll()
      modifies this
      ensures freeRegs == FreeAllPool(old(freeRegs))
      ensures code == old(code) && dataCode == old(dataCode) && strings == old(strings) && arrays == old(arrays)
    {
      for i := 0 to |freeRegs|
        invariant |freeRegs| == |old(freeRegs)|
        invariant forall j :: 0 <= j < i ==> freeRegs[j]
        invariant code == old(code) && dataCode == old(dataCode) && strings == old(strings) && arrays == old(arrays)
      {
        freeRegs := freeRegs[i := true];
      }
    }

    /** Allocates a register and writes `op R<reg> operands`. */
    method EmitReg(op: string, operands: seq<string>) returns (reg: nat)
      modifies this
      ensures State() == EmitToReg(old(State()), op, operands, []).m
      ensures RegisterVal(reg) == EmitToReg(old(State()), op, operands, []).value
    {
      reg := AllocateReg();
      code := code + Line(op, [Reg(reg)] + operands);
    }

    /** `compile`. */
    method Compile(node: Node, env: Env.Environment) returns (r: Result<CompilerValue, CompileError>)
      modifies this, env
      ensures Agrees(Gen(node, old(State()), old(env.vars), env.parents), r, State(), env.vars)
      decreases node, 2
    {
      match node
      case NumericLiteral(n) =>
        return Ok(NumberVal(n));
      case CharLiteral(c) =>
        return Ok(NumberVal(c as nat));
      case StringLiteral(_) =>
        r := CompileString(node, env);
      case IdentLiteral(_) =>
        r := CompileIdent(node, env);
      case ArrayLiteral(_) =>
        r := CompileArray(node, env);
      case BinaryExpr(_, _, _) =>
        r := CompileBinary(node, env);
      case MemberExpr(_, _, _) =>
        r := CompileMember(node, env);
      case AssignExpr(_, _) =>
        r := CompileAssign(node, env);
      case CallExpr(_, _) =>
        r := CompileCall(node, env);
      case ComparisonExpr(_, _, _) =>
        r := CompileComparison(node, env);
      case NotExpr(_) =>
        r := CompileNot(node, env);
      case Program(_) =>
        r := CompileProgram(node, env);
      case FunDecl(_, _, _) =>
        r := CompileFunDecl(node, env);
      case VarDecl(_, _, _) =>
        r := CompileVarDecl(node, env);
      case ASMLine(_) =>
        r := CompileAsm(node, env);
      case DelStatement(_) =>
        r := CompileDelete(node, env);
      case ReturnStatement(_) =>
        r := CompileReturn(node, env);
      case _ =>
        return Err(UnsupportedNode);
    }

    /** A string literal becomes a new numbered label in the data section. */
    method CompileString(node: Node, env: Env.Environment) returns (r: Result<CompilerValue, CompileError>)
      requires node.StringLiteral?
      modifies this, env
      ensures Agrees(Gen(node, old(State()), old(env.vars), env.parents), r, State(), env.vars)
      decreases node, 1
    {
      strings := strings + 1;
      dataCode := dataCode + StringLabel(strings) + "\nDW \"" + node.text + "\"\n";
      return Ok(LabelVal(StringLabel(strings)));
    }

    method CompileNot(node: Node, env: Env.Environment) returns (r: Result<CompilerValue, CompileError>)
      requires node.NotExpr?
      modifies this, env
      ensures Agrees(Gen(node, old(State()), old(env.vars), env.parents), r, State(), env.vars)
      decreases node, 1
    {
      var v := Compile(node.value, env);
      if v.Err? {
        return Err(v.error);
      }
      var reg := EmitReg("NOT", [ToString(v.value)]);
      return Ok(RegisterVal(reg));
    }

    method CompileAsm(node: Node, env: Env.Environment) returns (r: Result<CompilerValue, CompileError>)
      requires node.ASMLine?
      modifies this, env
      ensures Agrees(Gen(node, old(State()), old(env.vars), env.parents), r, State(), env.vars)
      decreases node, 1
    {
      code := code + node.line + "\n";
      return Ok(RegisterVal(0));
    }

    method CompileDelete(node: Node, env: Env.Environment) returns (r: Result<CompilerValue, CompileError>)
      requires node.DelStatement?
      modifies this, env
      ensures Agrees(Gen(node, old(State()), old(env.vars), env.parents), r, State(), env.vars)
      decreases node, 1
    {
      env.Remove(node.name);
      return Ok(RegisterVal(0));
    }

    method CompileReturn(node: Node, env: Env.Environment) returns (r: Result<CompilerValue, CompileError>)
      requires node.ReturnStatement?
      modifies this, env
      ensures Agrees(Gen(node, old(State()), old(env.vars), env.parents), r, State(), env.vars)
      decreases node, 1
    {
      var v := Compile(node.value, env);
      if v.Err? {
        return Err(v.error);
      }
      code := code + Line("MOV", ["R1", ToString(v.value)]) + Line("RET", []);
      return Ok(RegisterVal(0));
    }

    method CompileIdent(node: Node, env: Env.Environment) returns (r: Result<CompilerValue, CompileError>)
      requires node.IdentLiteral?
      modifies this, env
      ensures Agrees(Gen(node, old(State()), old(env.vars), env.parents), r, State(), env.vars)
      decreases node, 1
    {
      if !env.Exists(node.name) {
        assert !Env.ExistsIn([env.vars] + env.parents, node.name);
        return Err(Undeclared(node.name));
      }
      var v := env.Read(node.name);
      if v.Err? {
        return Err(EnvFailure(v.error));
      }
      var reg := EmitReg("LOD", [ToString(PointerVal(v.value.addr))]);
      return Ok(RegisterVal(reg));
    }

    method CompileBinary(node: Node, env: Env.Environment) returns (r: Result<CompilerValue, CompileError>)
      requires node.BinaryExpr?
      modifies this, env
      ensures Agrees(Gen(node, old(State()), old(env.vars), env.parents), r, State(), env.vars)
      decreases node, 1
    {
      var l := Compile(node.left, env);
      if l.Err? {
        return Err(l.error);
      }
      var rv := Compile(node.right, env);
      if rv.Err? {
        return Err(rv.error);
      }
      var reg := EmitReg(ArithOp(node.op), [ToString(l.value), ToString(rv.value)]);
      return Ok(RegisterVal(reg));
    }

    method CompileMember(node: Node, env: Env.Environment) returns (r: Result<CompilerValue, CompileError>)
      requires node.MemberExpr?
      modifies this, env
      ensures Agrees(Gen(node, old(State()), old(env.vars), env.parents), r, State(), env.vars)
      decreases node, 1
    {
      if !node.computed {
        return Err(NonComputedMember);
      }
      var o := Compile(node.obj, env);
      if o.Err? {
        return Err(o.error);
      }
      var p := Compile(node.property, env);
      if p.Err? {
        return Err(p.error);
      }
      var reg := EmitReg("LLOD", [ToString(o.value), ToString(p.value)]);
      return Ok(RegisterVal(reg));
    }

    method CompileComparison(node: Node, env: Env.Environment) returns (r: Result<CompilerValue, CompileError>)
      requires node.ComparisonExpr?
      modifies this, env
      ensures Agrees(Gen(node, old(State()), old(env.vars), env.parents), r, State(), env.vars)
      decreases node, 1
    {
      var l := Compile(node.left, env);
      if l.Err? {
        return Err(l.error);
      }
      var rv := Compile(node.right, env);
      if rv.Err? {
        return Err(rv.error);
      }
      var reg := AllocateReg();
      var instr := CompareOp(node.op);
      if instr.None? {
        return Err(BadComparison(node.op));
      }
      code := code + Line(instr.value, [Reg(reg), ToString(l.value), ToString(rv.value)]);
      return Ok(RegisterVal(reg));
    }

    method CompileArray(node: Node, env: Env.Environment) returns (r: Result<CompilerValue, CompileError>)
      requires node.ArrayLiteral?
      modifies this, env
      ensures Agrees(Gen(node, old(State()), old(env.vars), env.parents), r, State(), env.vars)
      decreases node, 1
    {
      GenArrayStart(node.elements, State(), env.vars, env.parents);
      arrays := arrays + 1;
      dataCode := dataCode + ArrayLabel(arrays) + "\n";
      assert State() == old(State()).(data := old(State()).data + ArrayLabel(old(State()).arrays + 1) + "\n", arrays := old(State()).arrays + 1);
      ghost var whole := GenArray(node, 0, State(), env.vars, env.parents);
      for i := 0 to |node.elements|
        invariant whole == GenArray(node, i, State(), env.vars, env.parents)
      {
        var cell := CompileCell(node, i, env);
        if cell.Err? {
          return cell;
        }
      }
      return Ok(LabelVal(ArrayLabel(arrays) + "\n"));
    }

    /** One turn of the element loop: compile element `i`, then store its
        value into cell `i` of the current array; the element's own code is
        replaced by that store. */
    method CompileCell(node: Node, i: nat, env: Env.Environment) returns (r: Result<CompilerValue, CompileError>)
      requires node.ArrayLiteral? && i < |node.elements|
      modifies this, env
      ensures r.Err? ==> GenArray(node, i, old(State()), old(env.vars), env.parents) == Err(r.error)
      ensures r.Ok? ==> GenArray(node, i, old(State()), old(env.vars), env.parents) == GenArray(node, i + 1, State(), env.vars, env.parents)
      decreases node, 0
    {
      var before := code;
      var arrayLabel := ArrayLabel(arrays);
      ArrayStep(node, i, State(), env.vars, env.parents);
      var v := Compile(node.elements[i], env);
      if v.Err? {
        return Err(v.error);
      }
      code := before + Line("LSTR", [arrayLabel, NatToString(i), ToString(v.value)]);
      dataCode := dataCode + "DW 0\n";
      return v;
    }

    method CompileAssign(node: Node, env: Env.Environment) returns (r: Result<CompilerValue, CompileError>)
      requires node.AssignExpr?
      modifies this, env
      ensures Agrees(Gen(node, old(State()), old(env.vars), env.parents), r, State(), env.vars)
      decreases node, 1
    {
      var right := Compile(node.right, env);
      if right.Err? {
        return Err(right.error);
      }
      var left := node.left;
      if left.IdentLiteral? {
        var x := env.Read(left.name);
        if x.Err? {
          return Err(EnvFailure(x.error));
        }
        var vaddr := x.value.addr;
        code := code + Line("STR", [ToString(PointerVal(vaddr)), ToString(right.value)]);
        return Ok(PointerVal(vaddr));
      } else if left.MemberExpr? {
        var o := Compile(left.obj, env);
        if o.Err? {
          return Err(o.error);
        }
        var p := Compile(left.property, env);
        if p.Err? {
          return Err(p.error);
        }
        code := code + Line("LSTR", [ToString(o.value), ToString(p.value), ToString(right.value)]);
        return Ok(right.value);
      }
      return Err(BadAssignTarget);
    }

    method CompileCall(node: Node, env: Env.Environment) returns (r: Result<CompilerValue, CompileError>)
      requires node.CallExpr?
      modifies this, env
      ensures Agrees(Gen(node, old(State()), old(env.vars), env.parents), r, State(), env.vars)
      decreases node, 1
    {
      ghost var whole := GenArgs(node, 0, State(), env.vars, env.parents);
      for i := 0 to |node.args|
        invariant whole == GenArgs(node, i, State(), env.vars, env.parents)
      {
        var a := Compile(node.args[i], env);
        if a.Err? {
          return Err(a.error);
        }
        code := code + Line("PSH", [ToString(a.value)]);
      }
      if node.caller.IdentLiteral? {
        code := code + Line("CAL", ["." + node.caller.name]);
        return Ok(RegisterVal(1));
      }
      var c := Compile(node.caller, env);
      if c.Err? {
        return Err(c.error);
      }
      code := code + Line("CAL", [ToString(c.value)]);
      return Ok(RegisterVal(1));
    }

    method CompileProgram(node: Node, env: Env.Environment) returns (r: Result<CompilerValue, CompileError>)
      requires node.Program?
      modifies this, env
      ensures Agrees(Gen(node, old(State()), old(env.vars), env.parents), r, State(), env.vars)
      decreases node, 1
    {
      ghost var whole := GenProgram(node, 0, State(), env.vars, env.parents);
      for i := 0 to |node.body|
        invariant whole == GenProgram(node, i, State(), env.vars, env.parents)
      {
        FreeAll();
        var s := Compile(node.body[i], env);
        if s.Err? {
          return Err(s.error);
        }
      }
      return Ok(RegisterVal(0));
    }

    method CompileFunDecl(node: Node, env: Env.Environment) returns (r: Result<CompilerValue, CompileError>)
      requires node.FunDecl?
      modifies this, env
      ensures Agrees(Gen(node, old(State()), old(env.vars), env.parents), r, State(), env.vars)
      decreases node, 1
    {
      code := code + Line("." + node.name, []);
      var nenv := new Env.Environment(env);
      var p := CompileParams(node.params, nenv);
      if p.Err? {
        return Err(p.error);
      }
      r := CompileBody(node, nenv);
    }

    /** The loop of `FunDecl` that compiles the body's statements in the
        function's environment. */
    method CompileBody(node: Node, nenv: Env.Environment) returns (r: Result<CompilerValue, CompileError>)
      requires node.FunDecl?
      modifies this, nenv
      ensures Agrees(GenBody(node, 0, old(State()), old(nenv.vars), nenv.parents), r, State(), nenv.vars)
      decreases node, 0
    {
      ghost var whole := GenBody(node, 0, State(), nenv.vars, nenv.parents);
      for i := 0 to |node.body|
        invariant whole == GenBody(node, i, State(), nenv.vars, nenv.parents)
      {
        var s := Compile(node.body[i], nenv);
        if s.Err? {
          return Err(s.error);
        }
      }
      return Ok(RegisterVal(0));
    }

    /** The loop of `FunDecl` that declares the parameters in the function's
        environment and copies each from the stack. */
    method CompileParams(params: seq<(string, VTypes.VType)>, nenv: Env.Environment) returns (r: Result<CompilerValue, CompileError>)
      modifies this, nenv
      ensures Agrees(GenParams(params, 0, old(State()), old(nenv.vars), nenv.parents), r, State(), nenv.vars)
    {
      ghost var whole := GenParams(params, 0, State(), nenv.vars, nenv.parents);
      for i := 0 to |params|
        invariant whole == GenParams(params, i, State(), nenv.vars, nenv.parents)
      {
        ghost var m, vars := State(), nenv.vars;
        var d := nenv.Declare(params[i].0, params[i].1);
        if d.Err? {
          return Err(EnvFailure(d.error));
        }
        var addr := nenv.Read(params[i].0).value.addr;
        var reg := AllocateReg();
        code := code + ParamLines(reg, |params|, i, addr);
        FreeReg(reg);
        assert nenv.vars == Env.DeclareIn(vars, nenv.parents, params[i].0, params[i].1).value;
        assert State() == m.(pool := FreeIn(AllocIn(m.pool).1, reg), code := m.code + ParamLines(reg, |params|, i, addr));
      }
      return Ok(RegisterVal(0));
    }

    method CompileVarDecl(node: Node, env: Env.Environment) returns (r: Result<CompilerValue, CompileError>)
      requires node.VarDecl?
      modifies this, env
      ensures Agrees(Gen(node, old(State()), old(env.vars), env.parents), r, State(), env.vars)
      decreases node, 1
    {
      var d := env.Declare(node.name, node.vtype);
      if d.Err? {
        return Err(EnvFailure(d.error));
      }
      var addr := env.Read(node.name).value.addr;
      var value := Compile(node.value, env);
      if value.Err? {
        return Err(value.error);
      }
      code := code + Line("STR", [ToString(PointerVal(addr)), ToString(value.value)]);
      if value.value.RegisterVal? {
        FreeReg(value.value.reg);
      }
      return Ok(RegisterVal(0));
    }
  }
}
