/** What the code generator (`src/assembler.rs`) emits, as pure functions of
    the program model: the lines each step appends to the assembly buffer
    and how the step ends. The class `Assembler` is proved to append
    exactly these lines. */
module Lowering {

  import opened Common
  import opened Types
  import opened Scope
  import Syntax

  /** The `x64` column of `REGS`: the System V integer argument registers,
      in argument order. */
  const Regs: seq<string> := ["rdi", "rsi", "rdx", "rcx", "r8", "r9"]

  /** The lines a step appends to the buffer, and how it ends. A step that
      stops part-way keeps the lines it appended before stopping. */
  datatype Emission = Emission(lines: seq<string>, outcome: Outcome)

  /** The label of the pool entry with index `id`. */
  function StrLabel(id: nat): string
  {
    ".STR" + NatToString(id)
  }

  /** Distinct pool entries get distinct labels. */
  lemma StrLabelInjective(a: nat, b: nat)
    requires StrLabel(a) == StrLabel(b)
    ensures a == b
  {
    assert NatToString(a) == StrLabel(a)[4..];
    assert NatToString(b) == StrLabel(b)[4..];
    NatToStringInjective(a, b);
  }

  /** An indented instruction line. */
  function Instr(mnemonic: string, operands: string): string
  {
    "  " + mnemonic + " " + operands
  }

  /** `l` is an instruction line of the given mnemonic. */
  predicate StartsWithInstr(l: string, mnemonic: string)
  {
    |l| >= |mnemonic| + 3 && l[..|mnemonic| + 3] == "  " + mnemonic + " "
  }

  /** An instruction line starts with its mnemonic. */
  lemma InstrShape(mnemonic: string, operands: string)
    ensures StartsWithInstr(Instr(mnemonic, operands), mnemonic)
  {
    assert Instr(mnemonic, operands) == ("  " + mnemonic + " ") + operands;
  }

  /** Loads the address of pool entry `id` into register `dest`. */
  function LoadLabel(id: nat, dest: string): string
  {
    Instr("leaq", StrLabel(id) + "(%rip), %" + dest)
  }

  /** The frame slot at `offset` below the frame pointer. */
  function Slot(offset: nat): string
  {
    "-" + NatToString(offset) + "(%rbp)"
  }

  // ---------------------------------------------------------------------
  // Arguments (`asm_pass_param`, `asm_push_parameter`, `asm_pass_parameters`)

  /** `asm_pass_param`: loads one argument into register `dest`. An integer
      literal is moved as an immediate, a string literal by address, a
      string variable from its frame slot in the function's scope. At most
      one line, and a line exactly when the argument passes. */
  function PassParam(p: Parameter, dest: string, scope: VarTree): (e: Emission)
    ensures e.outcome.Ok? <==> |e.lines| == 1
    ensures |e.lines| <= 1
    ensures p.varType == Void ==> e == Emission([], Err("Cannot pass void type"))
    ensures p.varType == VarArgs ==> e == Emission([], Err("Cannot pass varargs"))
    ensures p.varType == Char || p.varType == Bool ==> e.outcome.Unsupported?
    ensures p.varType == Int && p.isLiteral && p.value.Some? ==>
              e == Emission([Instr("movq", "$" + p.value.value + ", %" + dest)], Ok)
    ensures p.varType == Int && !p.isLiteral ==> e.outcome.Unsupported?
    ensures p.varType == String && p.isLiteral && p.id.Some? ==> e.lines == [LoadLabel(p.id.value, dest)]
    ensures p.varType == String && !p.isLiteral && Lookup(scope.variables, p.name).Some? &&
            Lookup(scope.variables, p.name).value.stack.Some? ==>
              e == Emission([Instr("movq", Slot(Lookup(scope.variables, p.name).value.stack.value) + ", %" + dest)], Ok)
    ensures p.varType == String && !p.isLiteral ==>
              (e.outcome.Err? <==> Lookup(scope.variables, p.name).None?)
    ensures p.varType == String && !p.isLiteral && e.outcome.Err? ==>
              e.outcome.message == "Cannot find variable " + p.name
  {
    if p.varType == Int then
      if !p.isLiteral then Emission([], Unsupported("non-literal integer argument"))
      else if p.value.None? then Emission([], Fatal(Unwrap))
      else Emission([Instr("movq", "$" + p.value.value + ", %" + dest)], Ok)
    else if p.varType == String then
      if p.isLiteral then
        if p.id.None? then Emission([], Fatal(Unwrap))
        else Emission([LoadLabel(p.id.value, dest)], Ok)
      else
        var v := Lookup(scope.variables, p.name);
        if v.None? then Emission([], Err("Cannot find variable " + p.name))
        else if v.value.stack.None? then Emission([], Fatal(Unwrap))
        else Emission([Instr("movq", Slot(v.value.stack.value) + ", %" + dest)], Ok)
    else if p.varType == Void then Emission([], Err("Cannot pass void type"))
    else if p.varType == VarArgs then Emission([], Err("Cannot pass varargs"))
    else Emission([], Unsupported("char or bool argument"))
  }

  /** `asm_push_parameter`: pushes one argument on the stack. Only a string
      with a pool id can be pushed; every other type is unimplemented. */
  function PushParam(p: Parameter): (e: Emission)
    ensures e.outcome.Ok? <==> p.varType == String && p.id.Some?
    ensures e.outcome.Ok? ==> e.lines == [LoadLabel(p.id.value, "rax"), Instr("pushq", "%rax")]
    ensures !e.outcome.Ok? ==> e.lines == []
    ensures p.varType != String ==> e.outcome.Unsupported?
  {
    if p.varType != String then Emission([], Unsupported("pushed argument of this type"))
    else if p.id.None? then Emission([], Fatal(Unwrap))
    else Emission([LoadLabel(p.id.value, "rax"), Instr("pushq", "%rax")], Ok)
  }

  /** The argument at index `idx`: the first six go to registers, the rest
      are pushed. */
  function ParamAsm(p: Parameter, idx: nat, scope: VarTree): Emission
  {
    if idx > 5 then PushParam(p) else PassParam(p, Regs[idx], scope)
  }

  /** `asm_pass_parameters`: the arguments in ascending index order,
      stopping at the first one that fails. */
  function PassParams(params: seq<Parameter>, scope: VarTree): Emission
    decreases |params|
  {
    if params == [] then Emission([], Ok)
    else
      var prev := PassParams(params[..|params| - 1], scope);
      if !prev.outcome.Ok? then prev
      else
        var e := ParamAsm(params[|params| - 1], |params| - 1, scope);
        Emission(prev.lines + e.lines, e.outcome)
  }

  /** One more argument after a prefix that passed appends its lines and
      takes its outcome. */
  lemma PassParamsStep(params: seq<Parameter>, scope: VarTree, i: nat)
    requires i < |params|
    requires PassParams(params[..i], scope).outcome.Ok?
    ensures var e := ParamAsm(params[i], i, scope);
            PassParams(params[..i + 1], scope) == Emission(PassParams(params[..i], scope).lines + e.lines, e.outcome)
  {
    assert params[..i + 1][..i] == params[..i];
  }

  /** How many lines `n` arguments take when all of them pass. */
  function ArgLines(n: nat): nat
  {
    if n <= 6 then n else 6 + 2 * (n - 6)
  }

  /** The arguments pass exactly when each one does. */
  lemma {:induction false} PassParamsOk(params: seq<Parameter>, scope: VarTree)
    ensures PassParams(params, scope).outcome.Ok? <==>
              forall i :: 0 <= i < |params| ==> ParamAsm(params[i], i, scope).outcome.Ok?
    decreases |params|
  {
    if params != [] {
      var n := |params|;
      var init := params[..n - 1];
      PassParamsOk(init, scope);
      if PassParams(init, scope).outcome.Ok? {
        assert forall i :: 0 <= i < n - 1 ==> init[i] == params[i];
      } else {
        var j :| 0 <= j < n - 1 && !ParamAsm(init[j], j, scope).outcome.Ok?;
        assert init[j] == params[j];
      }
    }
  }

  /** When the arguments pass they take `ArgLines` lines, and the lines of
      a prefix of them stay in place. */
  lemma {:induction false} PassParamsGrows(params: seq<Parameter>, scope: VarTree)
    requires PassParams(params, scope).outcome.Ok?
    ensures |PassParams(params, scope).lines| == ArgLines(|params|)
    ensures params != [] ==>
              var init := params[..|params| - 1];
              && PassParams(init, scope).outcome.Ok?
              && PassParams(params, scope).lines ==
                 PassParams(init, scope).lines + ParamAsm(params[|params| - 1], |params| - 1, scope).lines
    decreases |params|
  {
    if params != [] {
      PassParamsGrows(params[..|params| - 1], scope);
    }
  }

  /** When the arguments pass, argument `i < 6` is the one load into
      `Regs[i]`, at line `i`. */
  lemma {:induction false} RegisterArguments(params: seq<Parameter>, scope: VarTree)
    requires PassParams(params, scope).outcome.Ok?
    ensures |PassParams(params, scope).lines| == ArgLines(|params|)
    ensures forall i :: 0 <= i < |params| && i < 6 ==>
              |PassParam(params[i], Regs[i], scope).lines| == 1 &&
              PassParams(params, scope).lines[i] == PassParam(params[i], Regs[i], scope).lines[0]
    decreases |params|
  {
    var n := |params|;
    PassParamsGrows(params, scope);
    if n > 0 {
      var init := params[..n - 1];
      RegisterArguments(init, scope);
      var e := PassParams(params, scope);
      var prev := PassParams(init, scope);
      forall i | 0 <= i < n && i < 6
        ensures |PassParam(params[i], Regs[i], scope).lines| == 1
        ensures e.lines[i] == PassParam(params[i], Regs[i], scope).lines[0]
      {
        if i < n - 1 {
          assert init[i] == params[i];
          assert e.lines[i] == prev.lines[i];
        }
      }
    }
  }

  /** When the arguments pass, each argument from index 6 on is a
      `leaq`/`pushq` pair, in ascending index order: argument 6 is pushed
      first. */
  lemma {:induction false} PushedArguments(params: seq<Parameter>, scope: VarTree)
    requires PassParams(params, scope).outcome.Ok?
    ensures |PassParams(params, scope).lines| == ArgLines(|params|)
    ensures forall i :: 6 <= i < |params| ==>
              params[i].id.Some? &&
              PassParams(params, scope).lines[2 * i - 6] == LoadLabel(params[i].id.value, "rax") &&
              PassParams(params, scope).lines[2 * i - 5] == Instr("pushq", "%rax")
    decreases |params|
  {
    var n := |params|;
    PassParamsGrows(params, scope);
    if n > 6 {
      var init := params[..n - 1];
      PassParamsGrows(params, scope);
      PassParamsGrows(init, scope);
      PushedArguments(init, scope);
      var e := PassParams(params, scope);
      var prev := PassParams(init, scope);
      forall i | 6 <= i < n
        ensures params[i].id.Some?
        ensures e.lines[2 * i - 6] == LoadLabel(params[i].id.value, "rax")
        ensures e.lines[2 * i - 5] == Instr("pushq", "%rax")
      {
        if i < n - 1 {
          assert init[i] == params[i];
          assert e.lines[2 * i - 6] == prev.lines[2 * i - 6];
          assert e.lines[2 * i - 5] == prev.lines[2 * i - 5];
        }
      }
    }
  }

  /** Once a prefix of the arguments fails, the rest are never looked at. */
  lemma {:induction false} PassParamsStopped(params: seq<Parameter>, scope: VarTree, i: nat)
    requires i < |params|
    requires !PassParams(params[..i + 1], scope).outcome.Ok?
    ensures PassParams(params, scope) == PassParams(params[..i + 1], scope)
    decreases |params|
  {
    if |params| > i + 1 {
      var init := params[..|params| - 1];
      assert init[..i + 1] == params[..i + 1];
      PassParamsStopped(init, scope, i);
    } else {
      assert params[..i + 1] == params;
    }
  }

  /** The first failing argument decides the outcome, and the lines are
      those of the arguments before it: it appends none of its own when it
      is passed in a register. */
  lemma FirstFailingArgument(params: seq<Parameter>, scope: VarTree, i: nat)
    requires i < |params|
    requires forall j :: 0 <= j < i ==> ParamAsm(params[j], j, scope).outcome.Ok?
    requires !ParamAsm(params[i], i, scope).outcome.Ok?
    ensures PassParams(params, scope).outcome == ParamAsm(params[i], i, scope).outcome
    ensures i < 6 ==> PassParams(params, scope).lines == PassParams(params[..i], scope).lines
  {
    var head := params[..i + 1];
    assert head[..i] == params[..i];
    PassParamsOk(params[..i], scope);
    assert forall j :: 0 <= j < i ==> params[..i][j] == params[j];
    PassParamsStopped(params, scope, i);
  }

  /** A `Void` or `VarArgs` argument in a register position ends the call
      with its error and no line of its own. */
  lemma UnpassableArgument(params: seq<Parameter>, scope: VarTree, i: nat)
    requires i < |params| && i < 6
    requires forall j :: 0 <= j < i ==> ParamAsm(params[j], j, scope).outcome.Ok?
    requires params[i].varType == Void || params[i].varType == VarArgs
    ensures PassParams(params, scope).lines == PassParams(params[..i], scope).lines
    ensures params[i].varType == Void ==> PassParams(params, scope).outcome == Err("Cannot pass void type")
    ensures params[i].varType == VarArgs ==> PassParams(params, scope).outcome == Err("Cannot pass varargs")
  {
    FirstFailingArgument(params, scope, i);
  }

  /** An argument line is a `movq`, `leaq` or `pushq` instruction. */
  predicate IsArgumentLine(l: string)
  {
    StartsWithInstr(l, "movq") || StartsWithInstr(l, "leaq") || StartsWithInstr(l, "pushq")
  }

  /** So the third character of an argument line is `m`, `l` or `p`. */
  lemma ArgumentLineStart(l: string)
    ensures IsArgumentLine(l) ==> l[2] == 'm' || l[2] == 'l' || l[2] == 'p'
  {
    if StartsWithInstr(l, "movq") {
      assert l[2] == l[..7][2];
    } else if StartsWithInstr(l, "leaq") {
      assert l[2] == l[..7][2];
    } else if StartsWithInstr(l, "pushq") {
      assert l[2] == l[..8][2];
    }
  }

  lemma ParamLineShape(p: Parameter, idx: nat, scope: VarTree)
    ensures forall l :: l in ParamAsm(p, idx, scope).lines ==> IsArgumentLine(l)
  {
    if idx > 5 {
      if p.varType == String && p.id.Some? {
        InstrShape("leaq", StrLabel(p.id.value) + "(%rip), %rax");
        InstrShape("pushq", "%rax");
      }
    } else if p.varType == Int && p.isLiteral && p.value.Some? {
      InstrShape("movq", "$" + p.value.value + ", %" + Regs[idx]);
    } else if p.varType == String && p.isLiteral && p.id.Some? {
      InstrShape("leaq", StrLabel(p.id.value) + "(%rip), %" + Regs[idx]);
    } else if p.varType == String && !p.isLiteral {
      var v := Lookup(scope.variables, p.name);
      if v.Some? && v.value.stack.Some? {
        InstrShape("movq", Slot(v.value.stack.value) + ", %" + Regs[idx]);
      }
    }
  }

  /** Every argument line is a `movq`, `leaq` or `pushq` instruction, so
      none is the vector-count line, a comment or a call. */
  lemma {:induction false} ArgumentLinesShape(params: seq<Parameter>, scope: VarTree)
    ensures forall l :: l in PassParams(params, scope).lines ==> IsArgumentLine(l)
    decreases |params|
  {
    if params != [] {
      ArgumentLinesShape(params[..|params| - 1], scope);
      ParamLineShape(params[|params| - 1], |params| - 1, scope);
    }
  }

  // ---------------------------------------------------------------------
  // Statements (the loop body of `asm_function`)

  /** The vector-register count for a variadic `printf`: `%al` must be zero
      since no floating-point argument is ever passed. */
  function VectorCount(name: string, externs: map<string, ExternFunction>): seq<string>
    requires name == "printf" ==> name in externs
  {
    if name == "printf" && VarArgs in externs[name].parameters then ["  xor %eax, %eax"] else []
  }

  /** An assignment: only a plain `=` of a string literal is implemented; it
      stores the literal's address in the slot of the first variable with
      the target's name in the function's own scope. */
  function AssignmentAsm(target: string, op: Grammar.Rule, p: Parameter, scope: VarTree): (e: Emission)
    ensures |e.lines| >= 1 && e.lines[0] == "# Assignment"
    ensures Lookup(scope.variables, target).None? ==> e == Emission(["# Assignment"], Err("Cannot find variable " + target))
    ensures e.outcome.Ok? <==>
              && op.Assign? && p.varType == String && p.id.Some?
              && Lookup(scope.variables, target).Some? && Lookup(scope.variables, target).value.stack.Some?
    ensures e.outcome.Ok? ==>
              e.lines == ["# Assignment", LoadLabel(p.id.value, "rax"),
                          "  movq %rax, " + Slot(Lookup(scope.variables, target).value.stack.value)]
  {
    var v := Lookup(scope.variables, target);
    if v.None? then Emission(["# Assignment"], Err("Cannot find variable " + target))
    else if op.Assign? then
      if p.varType != String then Emission(["# Assignment"], Unsupported("assignment of this type"))
      else if p.id.None? then Emission(["# Assignment"], Fatal(Unwrap))
      else if v.value.stack.None? then Emission(["# Assignment", LoadLabel(p.id.value, "rax")], Fatal(Unwrap))
      else Emission(["# Assignment", LoadLabel(p.id.value, "rax"), "  movq %rax, " + Slot(v.value.stack.value)], Ok)
    else if Syntax.IsMathOp(op) || Syntax.IsLogicOp(op) then Emission(["# Assignment"], Unsupported("compound assignment"))
    else Emission(["# Assignment"], Fatal("Unknown assignment"))
  }

  /** One statement of a function body. */
  function StatementAsm(s: Statement, scope: VarTree, externs: map<string, ExternFunction>): (e: Emission)
    ensures e.lines != [] ==> |e.lines[0]| > 0 && e.lines[0][0] == '#'
    ensures s.Block? || s.Return? ==> e.outcome.Unsupported?
  {
    if s.Block? then Emission([], Unsupported("block statement"))
    else if s.FunctionCall? then
      var pass := PassParams(s.call.parameters, scope);
      Emission(["# Function call"] + pass.lines + (if pass.outcome.Ok? then ["  call " + s.call.name] else []),
               pass.outcome)
    else if s.ExternFunctionCall? then
      var pass := PassParams(s.call.parameters, scope);
      if !pass.outcome.Ok? then Emission(["# Extern function call"] + pass.lines, pass.outcome)
      else if s.call.name == "printf" && s.call.name !in externs then
        Emission(["# Extern function call"] + pass.lines, Fatal(Unwrap))
      else
        Emission(["# Extern function call"] + pass.lines + VectorCount(s.call.name, externs)
                   + ["  call " + s.call.name + "@PLT"], Ok)
    else if s.Return? then Emission(["# Return", "  movq %rbp, %rsp", "  popq %rbp"], Unsupported("return statement"))
    else AssignmentAsm(s.target, s.op, s.value, scope)
  }

  /** An internal call passes its arguments and calls the function's label
      directly; it never zeroes the vector count. */
  lemma InternalCall(c: FnCall, scope: VarTree, externs: map<string, ExternFunction>)
    ensures var e := StatementAsm(Statement.FunctionCall(c), scope, externs);
            && e.outcome == PassParams(c.parameters, scope).outcome
            && (e.outcome.Ok? ==> e.lines[|e.lines| - 1] == "  call " + c.name)
            && "  xor %eax, %eax" !in e.lines
  {
    ArgumentLinesShape(c.parameters, scope);
    var xor := "  xor %eax, %eax";
    ArgumentLineStart(xor);
    assert xor[2] == 'x';
    assert !IsArgumentLine(xor);
    var call := "  call " + c.name;
    ArgumentLineStart(call);
    assert call[2] == 'c';
  }

  /** An extern call that succeeds ends with `call name@PLT`, and it zeroes
      `%eax` just before that exactly when the callee is `printf` declared
      with a variadic tail. */
  lemma ExternCall(c: FnCall, scope: VarTree, externs: map<string, ExternFunction>)
    ensures var e := StatementAsm(Statement.ExternFunctionCall(c), scope, externs);
            && (e.outcome.Ok? ==> e.lines[|e.lines| - 1] == "  call " + c.name + "@PLT")
            && (e.outcome.Ok? ==>
                  ("  xor %eax, %eax" in e.lines <==>
                     c.name == "printf" && VarArgs in externs[c.name].parameters))
            && (e.outcome.Ok? && c.name == "printf" && VarArgs in externs[c.name].parameters ==>
                  e.lines[|e.lines| - 2] == "  xor %eax, %eax")
            && (!PassParams(c.parameters, scope).outcome.Ok? ==> e.outcome == PassParams(c.parameters, scope).outcome)
  {
    ArgumentLinesShape(c.parameters, scope);
    var xor := "  xor %eax, %eax";
    ArgumentLineStart(xor);
    assert xor[2] == 'x';
    var call := "  call " + c.name + "@PLT";
    ArgumentLineStart(call);
    assert call[2] == 'c';
  }

  /** Statements in order, stopping at the first that does not succeed. */
  function BodyAsm(ss: seq<Statement>, scope: VarTree, externs: map<string, ExternFunction>): (e: Emission)
    ensures e.lines != [] ==> |e.lines[0]| > 0 && e.lines[0][0] == '#'
    decreases |ss|
  {
    if ss == [] then Emission([], Ok)
    else
      var prev := BodyAsm(ss[..|ss| - 1], scope, externs);
      if !prev.outcome.Ok? then prev
      else
        var e := StatementAsm(ss[|ss| - 1], scope, externs);
        Emission(prev.lines + e.lines, e.outcome)
  }

  /** One more statement after a prefix that succeeded appends its lines
      and takes its outcome. */
  lemma BodyAsmStep(ss: seq<Statement>, scope: VarTree, externs: map<string, ExternFunction>, i: nat)
    requires i < |ss|
    requires BodyAsm(ss[..i], scope, externs).outcome.Ok?
    ensures var e := StatementAsm(ss[i], scope, externs);
            BodyAsm(ss[..i + 1], scope, externs) == Emission(BodyAsm(ss[..i], scope, externs).lines + e.lines, e.outcome)
  {
    assert ss[..i + 1][..i] == ss[..i];
  }

  /** Once a prefix of the statements stops, the rest are never looked at. */
  lemma {:induction false} BodyAsmStopped(ss: seq<Statement>, scope: VarTree, externs: map<string, ExternFunction>, i: nat)
    requires i < |ss|
    requires !BodyAsm(ss[..i + 1], scope, externs).outcome.Ok?
    ensures BodyAsm(ss, scope, externs) == BodyAsm(ss[..i + 1], scope, externs)
    decreases |ss|
  {
    if |ss| > i + 1 {
      var init := ss[..|ss| - 1];
      assert init[..i + 1] == ss[..i + 1];
      BodyAsmStopped(init, scope, externs, i);
    } else {
      assert ss[..i + 1] == ss;
    }
  }

  // ---------------------------------------------------------------------
  // Functions (`asm_function`)

  function SubLine(stack: nat): string
  {
    "  subq $" + NatToString(stack) + ", %rsp"
  }

  /** Label, frame-pointer setup, and room for the frame when it is not empty. */
  function Prologue(name: string, stack: nat): seq<string>
  {
    [name + ":", "  pushq %rbp", "  movq %rsp, %rbp"] + (if stack > 0 then [SubLine(stack)] else [])
  }

  /** Returns 0 and restores the caller's frame. */
  const Epilogue: seq<string> := ["# End Function", "  xor  %eax, %eax", "  movq %rbp, %rsp", "  popq %rbp", "  ret"]

  /** `asm_function`, given the function's scope after frame layout. */
  function FunctionAsm(f: Function, scope: VarTree, externs: map<string, ExternFunction>): Emission
  {
    var body := BodyAsm(f.code.statements, scope, externs);
    Emission(Prologue(f.name, scope.stack) + body.lines + (if body.outcome.Ok? then Epilogue else []), body.outcome)
  }

  /** Every function starts with its label and frame setup, reserves stack
      space exactly when its frame size is not zero, and when it succeeds
      ends with the zero-returning epilogue. */
  lemma FunctionShape(f: Function, scope: VarTree, externs: map<string, ExternFunction>)
    ensures var e := FunctionAsm(f, scope, externs);
            && |e.lines| >= 3
            && e.lines[..3] == [f.name + ":", "  pushq %rbp", "  movq %rsp, %rbp"]
            && (scope.stack > 0 <==> |e.lines| > 3 && e.lines[3] == SubLine(scope.stack))
            && e.outcome == BodyAsm(f.code.statements, scope, externs).outcome
            && (e.outcome.Ok? ==> |e.lines| >= 8 && e.lines[|e.lines| - 5..] == Epilogue)
  {
    var body := BodyAsm(f.code.statements, scope, externs);
    var e := FunctionAsm(f, scope, externs);
    if scope.stack == 0 && |e.lines| > 3 {
      var sub := SubLine(scope.stack);
      assert sub[0] == ' ';
      if body.lines != [] {
        assert e.lines[3] == body.lines[0];
      } else {
        assert e.lines[3] == "# End Function";
      }
    }
  }

  // ---------------------------------------------------------------------
  // The whole program (`assemble`)

  /** One `.STR{i}:` / `.string` pair per pool entry, in index order. */
  function PoolLines(strings: seq<string>): (r: seq<string>)
    ensures |r| == 2 * |strings|
    decreases |strings|
  {
    if strings == [] then []
    else
      var n := |strings| - 1;
      PoolLines(strings[..n]) + [StrLabel(n) + ":", "  .string " + strings[n]]
  }

  /** The read-only data section that opens every program. */
  function Header(strings: seq<string>): seq<string>
  {
    [".text", ".section\t.rodata", ".align 8"] + PoolLines(strings) + [""]
  }

  lemma {:induction false} PoolLinesAt(strings: seq<string>)
    ensures forall i :: 0 <= i < |strings| ==>
              PoolLines(strings)[2 * i] == StrLabel(i) + ":" &&
              PoolLines(strings)[2 * i + 1] == "  .string " + strings[i]
    decreases |strings|
  {
    if strings != [] {
      var n := |strings| - 1;

      PoolLinesAt(strings[..n]);
    }
  }

  /** The header is the three directives, then the label and text of every
      pool entry in index order under pairwise distinct labels, then an
      empty line. */
  lemma HeaderLayout(strings: seq<string>)
    ensures var h := Header(strings);
            && |h| == 4 + 2 * |strings|
            && h[..3] == [".text", ".section\t.rodata", ".align 8"]
            && h[|h| - 1] == ""
            && (forall i :: 0 <= i < |strings| ==>
                  h[3 + 2 * i] == StrLabel(i) + ":" && h[4 + 2 * i] == "  .string " + strings[i])
            && (forall i, j :: 0 <= i < j < |strings| ==> h[3 + 2 * i] != h[3 + 2 * j])
  {
    PoolLinesAt(strings);
    var h := Header(strings);
    forall i, j | 0 <= i < j < |strings| ensures h[3 + 2 * i] != h[3 + 2 * j] {
      if h[3 + 2 * i] == h[3 + 2 * j] {
        assert StrLabel(i) + ":" == StrLabel(j) + ":";
        assert StrLabel(i) == (StrLabel(i) + ":")[..|StrLabel(i) + ":"| - 1];
        assert StrLabel(j) == (StrLabel(j) + ":")[..|StrLabel(j) + ":"| - 1];
        StrLabelInjective(i, j);
      }
    }
  }

  /** Every function other than `main` is in the table and has a scope. */
  ghost predicate Listed(order: seq<string>, functions: map<string, Function>, registry: map<nat, VarTree>)
  {
    forall i :: 0 <= i < |order| ==> order[i] in functions && functions[order[i]].id in registry
  }

  /** The functions other than `main`, in the order given, each followed by
      an empty line, stopping at the first that fails. */
  function OthersAsm(order: seq<string>, functions: map<string, Function>, registry: map<nat, VarTree>,
                     externs: map<string, ExternFunction>): Emission
    requires Listed(order, functions, registry)
    decreases |order|
  {
    if order == [] then Emission([], Ok)
    else
      var prev := OthersAsm(order[..|order| - 1], functions, registry, externs);
      if !prev.outcome.Ok? then prev
      else
        var f := functions[order[|order| - 1]];
        var e := FunctionAsm(f, registry[f.id], externs);
        Emission(prev.lines + e.lines + (if e.outcome.Ok? then [""] else []), e.outcome)
  }

  /** Only the scopes of the listed functions matter. */
  lemma {:induction false} OthersAsmFrame(order: seq<string>, functions: map<string, Function>,
                                          r1: map<nat, VarTree>, r2: map<nat, VarTree>,
                                          externs: map<string, ExternFunction>)
    requires Listed(order, functions, r1) && Listed(order, functions, r2)
    requires forall i :: 0 <= i < |order| ==> r1[functions[order[i]].id] == r2[functions[order[i]].id]
    ensures OthersAsm(order, functions, r1, externs) == OthersAsm(order, functions, r2, externs)
    decreases |order|
  {
    if order != [] {
      OthersAsmFrame(order[..|order| - 1], functions, r1, r2, externs);
    }
  }

  /** `assemble` once `main` is found: the header, `main` under `.globl`,
      then the other functions. */
  function ProgramAsm(strings: seq<string>, main: Function, order: seq<string>, functions: map<string, Function>,
                      registry: map<nat, VarTree>, externs: map<string, ExternFunction>): Emission
    requires main.id in registry
    requires Listed(order, functions, registry)
  {
    var m := FunctionAsm(main, registry[main.id], externs);
    var head := Header(strings) + [".text\n.globl main"] + m.lines;
    if !m.outcome.Ok? then Emission(head, m.outcome)
    else
      var rest := OthersAsm(order, functions, registry, externs);
      Emission(head + [""] + rest.lines, rest.outcome)
  }

  /** A program's text starts with the header and then `main`. */
  lemma ProgramStart(strings: seq<string>, main: Function, order: seq<string>, functions: map<string, Function>,
                     registry: map<nat, VarTree>, externs: map<string, ExternFunction>)
    requires main.id in registry
    requires Listed(order, functions, registry)
    ensures var p := ProgramAsm(strings, main, order, functions, registry, externs);
            var h := Header(strings);
            && |p.lines| > |h| + 3
            && p.lines[..|h|] == h
            && p.lines[|h|] == ".text\n.globl main"
            && p.lines[|h| + 1] == main.name + ":"
            && (!FunctionAsm(main, registry[main.id], externs).outcome.Ok? ==>
                  p.outcome == FunctionAsm(main, registry[main.id], externs).outcome)
  {
    var m := FunctionAsm(main, registry[main.id], externs);
    FunctionShape(main, registry[main.id], externs);
    var h := Header(strings);
    var head := h + [".text\n.globl main"] + m.lines;
    var p := ProgramAsm(strings, main, order, functions, registry, externs);
    assert m.lines[0] == main.name + ":";
    assert head[|h|] == ".text\n.globl main" && head[|h| + 1] == main.name + ":";
    assert head[..|h|] == h;
    if m.outcome.Ok? {
      var rest := OthersAsm(order, functions, registry, externs);
      assert p.lines == head + ([""] + rest.lines);
      assert p.lines[..|head|] == head;
    }
  }
}
